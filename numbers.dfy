/** The numeric reading of a price text: the decimal literals that JavaScript's Number()
    and parseFloat() both accept, with their exact rational value. */
module Numbers {
  import opened Common
  import opened Text

  predicate IsDigit(c: char) { '0' <= c <= '9' }

  predicate AllDigits(s: string) { forall i :: 0 <= i < |s| ==> IsDigit(s[i]) }

  /** Some character of s is a digit other than zero. */
  predicate HasNonZeroDigit(s: string) { exists i :: 0 <= i < |s| && '1' <= s[i] <= '9' }

  /** The position of the first '.' in s, if any. */
  function DotIndex(s: string): (r: Option<nat>)
    ensures r.None? ==> forall i :: 0 <= i < |s| ==> s[i] != '.'
    ensures r.Some? ==> r.value < |s| && s[r.value] == '.' && forall i :: 0 <= i < r.value ==> s[i] != '.'
  {
    if s == [] then None
    else if s[0] == '.' then Some(0)
    else match DotIndex(s[1..])
      case None => None
      case Some(k) => Some(k + 1)
  }

  /** The value of a string of decimal digits, most significant first. */
  function NatValue(s: string): nat
    requires AllDigits(s)
    decreases |s|
  {
    if s == [] then 0 else 10 * NatValue(s[..|s| - 1]) + (s[|s| - 1] as int - '0' as int)
  }

  function Pow10(n: nat): (r: nat)
    ensures r >= 1
  {
    if n == 0 then 1 else 10 * Pow10(n - 1)
  }

  /** digits, digits '.', '.' digits or digits '.' digits: at least one digit in all. */
  predicate IsUnsignedDecimal(b: string) {
    match DotIndex(b)
    case None => b != [] && AllDigits(b)
    case Some(k) => |b| > 1 && AllDigits(b[..k]) && AllDigits(b[k + 1..])
  }

  function UnsignedValue(b: string): real
    requires IsUnsignedDecimal(b)
  {
    match DotIndex(b)
    case None => NatValue(b) as real
    case Some(k) => NatValue(b[..k]) as real + NatValue(b[k + 1..]) as real / Pow10(|b| - k - 1) as real
  }

  predicate HasSign(s: string) { |s| > 0 && (s[0] == '+' || s[0] == '-') }

  /** s without its sign. */
  function Magnitude(s: string): string { if HasSign(s) then s[1..] else s }

  /** An optionally signed decimal literal without exponent. */
  predicate IsDecimal(s: string) { IsUnsignedDecimal(Magnitude(s)) }

  function DecimalValue(s: string): real
    requires IsDecimal(s)
  {
    if |s| > 0 && s[0] == '-' then -UnsignedValue(Magnitude(s)) else UnsignedValue(Magnitude(s))
  }

  /** Number(s), restricted to decimal literals: the margins are trimmed, an empty or
      all-whitespace string is 0, anything else is NaN (None). */
  function ToNumber(s: string): (r: Option<real>)
    ensures r.Some? <==> (Trim(s) == [] || IsDecimal(Trim(s)))
    ensures (forall i :: 0 <= i < |s| ==> IsWhitespace(s[i])) ==> r == Some(0.0)
    ensures r.Some? && Trim(s) != [] ==> r.value == DecimalValue(Trim(s))
  {
    TrimBlank(s);
    var t := Trim(s);
    if t == [] then Some(0.0) else if IsDecimal(t) then Some(DecimalValue(t)) else None
  }

  /** parseFloat(s) on a string that Number() reads as a number: leading whitespace is
      skipped and the decimal literal read; with nothing left to read it is NaN (None). */
  function ParseFloat(s: string): (r: Option<real>)
    requires ToNumber(s).Some?
    ensures r.Some? <==> Trim(s) != []
    ensures r.Some? ==> r == ToNumber(s)
  {
    var t := Trim(s);
    if t == [] then None else Some(DecimalValue(t))
  }

  /** A digit string denotes a positive number exactly when one of its digits is not 0. */
  lemma {:induction false} NatValuePositive(s: string)
    requires AllDigits(s)
    ensures NatValue(s) > 0 <==> HasNonZeroDigit(s)
  {
    if s != [] {
      var init := s[..|s| - 1];
      assert AllDigits(init);
      NatValuePositive(init);
      if HasNonZeroDigit(init) {
        var i :| 0 <= i < |init| && '1' <= init[i] <= '9';
        assert s[i] == init[i];
      }
      assert forall j :: 0 <= j < |init| ==> init[j] == s[j];
    }
  }

  /** The non-zero digits of x + y are those of x and those of y. */
  lemma NonZeroDigitConcat(x: string, y: string)
    ensures HasNonZeroDigit(x + y) <==> HasNonZeroDigit(x) || HasNonZeroDigit(y)
  {
    var xy := x + y;
    if HasNonZeroDigit(x) {
      var i :| 0 <= i < |x| && '1' <= x[i] <= '9';
      assert xy[i] == x[i];
    }
    if HasNonZeroDigit(y) {
      var i :| 0 <= i < |y| && '1' <= y[i] <= '9';
      assert xy[|x| + i] == y[i];
    }
    if HasNonZeroDigit(xy) {
      var i :| 0 <= i < |xy| && '1' <= xy[i] <= '9';
      if i < |x| { assert x[i] == xy[i]; } else { assert y[i - |x|] == xy[i]; }
    }
  }

  /** A whole part plus a fraction over a positive power of ten is positive exactly
      when one of the two numerators is. */
  lemma SplitValuePositive(w: nat, n: nat, p: nat)
    requires p >= 1
    ensures w as real + n as real / p as real > 0.0 <==> w > 0 || n > 0
  {
    var q := n as real / p as real;
    assert q * p as real == n as real;
    assert q >= 0.0;
    assert n > 0 ==> q > 0.0;
  }

  /** Cutting out a '.' leaves the non-zero digits where they were. */
  lemma DotSplitDigits(b: string, k: nat)
    requires k < |b| && b[k] == '.'
    ensures HasNonZeroDigit(b) <==> HasNonZeroDigit(b[..k]) || HasNonZeroDigit(b[k + 1..])
  {
    assert b == b[..k] + ([b[k]] + b[k + 1..]);
    NonZeroDigitConcat(b[..k], [b[k]] + b[k + 1..]);
    NonZeroDigitConcat([b[k]], b[k + 1..]);
    assert !HasNonZeroDigit([b[k]]);
  }

  /** An unsigned decimal is positive exactly when one of its digits is not 0. */
  lemma UnsignedPositive(b: string)
    requires IsUnsignedDecimal(b)
    ensures UnsignedValue(b) > 0.0 <==> HasNonZeroDigit(b)
  {
    match DotIndex(b)
    case None =>
      NatValuePositive(b);
    case Some(k) =>
      NatValuePositive(b[..k]);
      NatValuePositive(b[k + 1..]);
      DotSplitDigits(b, k);
      SplitValuePositive(NatValue(b[..k]), NatValue(b[k + 1..]), Pow10(|b| - k - 1));
  }

  /** A decimal literal denotes a number greater than zero exactly when it has no minus
      sign and some digit is not 0. */
  lemma DecimalPositive(s: string)
    requires IsDecimal(s)
    ensures DecimalValue(s) > 0.0 <==> s[0] != '-' && HasNonZeroDigit(s)
  {
    var m := Magnitude(s);
    UnsignedPositive(m);
    if HasSign(s) {
      assert s == [s[0]] + m;
      NonZeroDigitConcat([s[0]], m);
      assert !HasNonZeroDigit([s[0]]);
    }
  }
}
