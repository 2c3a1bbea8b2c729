/** Reading and validating the add and edit forms (getFormData, validateForm) and the
    request body the submit handlers build from them. */
module Form {
  import opened Common
  import opened Text
  import opened Numbers

  /** The four text inputs of a modal, trimmed, as strings. */
  datatype FormData = FormData(title: string, category: string, price: string, description: string)

  /** What validateForm decides; the two refusals are the two alerts it shows. */
  datatype Verdict = Accepted | MissingField | InvalidPrice

  /** The body sent to the product API: the price is a number, the rest is text. */
  datatype ProductData = ProductData(title: string, category: string, price: real, description: string)

  /** What a submit handler gets from its modal before any request is made. */
  datatype Submission = Unreadable | Refused(verdict: Verdict) | Ready(data: ProductData)

  /** Every field holds some text. */
  predicate Filled(d: FormData) {
    d.title != [] && d.category != [] && d.price != [] && d.description != []
  }

  /** Every field is already trimmed. */
  predicate Clean(d: FormData) {
    NoOuterWhitespace(d.title) && NoOuterWhitespace(d.category) &&
    NoOuterWhitespace(d.price) && NoOuterWhitespace(d.description)
  }

  /** getFormData: the modal's first four text inputs, in the order title, category, price,
      description, each trimmed. A modal with fewer inputs makes the lookup throw (None). */
  function ReadForm(values: seq<string>): (r: Option<FormData>)
    ensures r.Some? <==> |values| >= 4
    ensures r.Some? ==> Clean(r.value)
    ensures r.Some? ==> r.value == FormData(Trim(values[0]), Trim(values[1]), Trim(values[2]), Trim(values[3]))
  {
    if |values| < 4 then None
    else Some(FormData(Trim(values[0]), Trim(values[1]), Trim(values[2]), Trim(values[3])))
  }

  /** Reading a form that was read already changes nothing: every field is its own trim. */
  lemma ReadFormStable(values: seq<string>)
    requires |values| >= 4
    ensures var d := ReadForm(values).value;
      ReadForm([d.title, d.category, d.price, d.description]) == ReadForm(values)
  {
    TrimIdempotent(values[0]);
    TrimIdempotent(values[1]);
    TrimIdempotent(values[2]);
    TrimIdempotent(values[3]);
  }

  /** validateForm: first every field must be non-empty, then the price must be numeric
      (isNaN is false) and parseFloat of it must not be `<= 0`. */
  function Validate(d: FormData): (v: Verdict)
    ensures v == MissingField <==> !Filled(d)
    ensures v == Accepted <==> (Filled(d) &&
      (Trim(d.price) == [] || (IsDecimal(Trim(d.price)) && DecimalValue(Trim(d.price)) > 0.0)))
  {
    if d.title == [] || d.category == [] || d.price == [] || d.description == [] then MissingField
    else if ToNumber(d.price).None? || (var f := ParseFloat(d.price); f.Some? && f.value <= 0.0) then InvalidPrice
    else Accepted
  }

  /** On a trimmed form, validateForm accepts exactly when all four fields are filled and
      the price is a decimal literal with no minus sign and a digit other than 0. */
  lemma ValidateClean(d: FormData)
    requires Clean(d)
    ensures Validate(d) == Accepted <==>
      (Filled(d) && IsDecimal(d.price) && DecimalValue(d.price) > 0.0)
    ensures Validate(d) == Accepted <==>
      (Filled(d) && IsDecimal(d.price) && d.price[0] != '-' && HasNonZeroDigit(d.price))
  {
    TrimClean(d.price);
    if IsDecimal(d.price) {
      DecimalPositive(d.price);
    }
  }

  /** On its own, validateForm lets a whitespace-only price through: Number of a blank text is 0,
      so isNaN is false, and parseFloat of it is NaN, which is not <= 0. The trimming in
      getFormData keeps such a price from reaching it. */
  lemma BlankPriceAccepted(s: string)
    requires s != [] && forall i :: 0 <= i < |s| ==> IsWhitespace(s[i])
    ensures Validate(FormData("Hat", "Accessories", s, "Red")) == Accepted
  {
    TrimBlank(s);
  }

  /** The request body the submit handlers send: the trimmed fields and parseFloat(price). */
  function Payload(d: FormData): (p: ProductData)
    requires Validate(d) == Accepted && Trim(d.price) != []
    ensures p.price > 0.0
    ensures p.title == d.title && p.category == d.category && p.description == d.description
  {
    ProductData(d.title, d.category, ParseFloat(d.price).value, d.description)
  }

  /** getFormData, then validateForm, then the body of the request (lines 93-101 and
      110-118): a form is submitted exactly when it is readable and valid, and then with
      four non-empty trimmed texts and a positive price read from the price field. */
  function Submit(values: seq<string>): (s: Submission)
    ensures s.Unreadable? <==> |values| < 4
    ensures s.Refused? <==> |values| >= 4 && Validate(ReadForm(values).value) != Accepted
    ensures s.Refused? ==> s.verdict == Validate(ReadForm(values).value)
    ensures s.Ready? ==> var d := ReadForm(values).value;
      Filled(d) && IsDecimal(d.price) && s.data.price == DecimalValue(d.price) && s.data.price > 0.0 &&
      s.data == ProductData(Trim(values[0]), Trim(values[1]), DecimalValue(d.price), Trim(values[3]))
  {
    match ReadForm(values)
    case None => Unreadable
    case Some(d) =>
      var v := Validate(d);
      if v != Accepted then Refused(v)
      else
        ValidateClean(d);
        TrimClean(d.price);
        Ready(Payload(d))
  }

  /** A form filled in with clean text and a whole-number price is submitted as typed. */
  lemma SubmitWholeNumber(title: string, category: string, price: string, description: string)
    requires title != [] && category != [] && description != []
    requires NoOuterWhitespace(title) && NoOuterWhitespace(category) && NoOuterWhitespace(description)
    requires price != [] && AllDigits(price) && HasNonZeroDigit(price)
    ensures Submit([title, category, price, description]) ==
      Ready(ProductData(title, category, NatValue(price) as real, description))
  {
    TrimClean(title);
    TrimClean(category);
    TrimClean(price);
    TrimClean(description);
    assert DotIndex(price) == None;
    assert Magnitude(price) == price;
    DecimalPositive(price);
  }
}
