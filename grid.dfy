/** The product grid as the sequence of its cards, in document order. A card shows one
    product and is found by the product's id. */
module Grid {
  import opened Common

  type Id = int

  /** A product as the API returns it; `image` may be missing (the card then shows a
      placeholder). */
  datatype Product = Product(id: Id, title: string, category: string, price: real,
                             description: string, image: Option<string>)

  /** The ids of the cards, in grid order. */
  function Ids(cards: seq<Product>): seq<Id> {
    seq(|cards|, j requires 0 <= j < |cards| => cards[j].id)
  }

  /** Some card shows a product with this id. */
  predicate HasId(cards: seq<Product>, id: Id) {
    exists j :: 0 <= j < |cards| && cards[j].id == id
  }

  /** The position of the first card whose product has this id, the one the attribute
      selector `[data-product-id="id"]` finds. */
  function FirstIndex(cards: seq<Product>, id: Id): (r: Option<nat>)
    ensures r.None? <==> !HasId(cards, id)
    ensures r.Some? ==> (r.value < |cards| && cards[r.value].id == id &&
      forall j :: 0 <= j < r.value ==> cards[j].id != id)
  {
    if cards == [] then None
    else if cards[0].id == id then Some(0)
    else match FirstIndex(cards[1..], id)
      case None =>
        assert forall j :: 1 <= j < |cards| ==> cards[j] == cards[1..][j - 1];
        None
      case Some(k) => Some(k + 1)
  }

  /** updateProduct (line 185): the first card with the product's id is replaced by a card
      for the product, in the same place; with no such card the lookup yields null and the
      replacement fails (None). */
  function ReplaceFirst(cards: seq<Product>, p: Product): (r: Option<seq<Product>>)
    ensures r.Some? <==> HasId(cards, p.id)
    ensures r.Some? ==> (|r.value| == |cards| &&
      var k := FirstIndex(cards, p.id).value;
      r.value[k] == p && forall j :: 0 <= j < |cards| && j != k ==> r.value[j] == cards[j])
  {
    match FirstIndex(cards, p.id)
    case None => None
    case Some(k) => Some(cards[k := p])
  }

  /** The card at position k taken off the grid; the rest stay in their order. */
  function RemoveAt(cards: seq<Product>, k: nat): (r: seq<Product>)
    requires k < |cards|
    ensures |r| == |cards| - 1
    ensures forall j :: 0 <= j < k ==> r[j] == cards[j]
    ensures forall j :: k <= j < |r| ==> r[j] == cards[j + 1]
    ensures multiset(r) + multiset{cards[k]} == multiset(cards)
  {
    assert cards == cards[..k] + [cards[k]] + cards[k + 1..];
    cards[..k] + cards[k + 1..]
  }

  /** Replacing a card keeps every id where it was. */
  lemma ReplaceKeepsIds(cards: seq<Product>, p: Product)
    requires HasId(cards, p.id)
    ensures Ids(ReplaceFirst(cards, p).value) == Ids(cards)
  {
  }

  /** After a replacement the same card is the first with that id, so a second update of
      the same product overwrites the first one: the last write wins. */
  lemma ReplaceLastWins(cards: seq<Product>, p: Product, q: Product)
    requires HasId(cards, p.id) && q.id == p.id
    ensures var once := ReplaceFirst(cards, p).value;
      HasId(once, q.id) && ReplaceFirst(once, q) == ReplaceFirst(cards, q)
  {
    var k := FirstIndex(cards, p.id).value;
    var once := ReplaceFirst(cards, p).value;
    assert once[k].id == q.id;
    var k' := FirstIndex(once, q.id).value;
    assert k' == k;
    assert once[k := q] == cards[k := q];
  }

  /** Appending a card puts it last and leaves the earlier cards and their order alone. */
  lemma AppendKeepsOrder(cards: seq<Product>, p: Product)
    ensures Ids(cards + [p]) == Ids(cards) + [p.id]
    ensures (cards + [p])[..|cards|] == cards
  {
    var ids := Ids(cards + [p]);
    assert forall j :: 0 <= j < |cards| ==> ids[j] == Ids(cards)[j];
  }

  /** Appending a list card by card shows the cards in the order of the list. */
  lemma {:induction false} AppendAll(cards: seq<Product>, ps: seq<Product>, i: nat)
    requires i < |ps|
    ensures (cards + ps[..i]) + [ps[i]] == cards + ps[..i + 1]
  {
    assert ps[..i + 1] == ps[..i] + [ps[i]];
  }

  /** Removing a card by position takes out exactly one occurrence of its id. */
  lemma RemoveAtIds(cards: seq<Product>, k: nat)
    requires k < |cards|
    ensures Ids(RemoveAt(cards, k)) == Ids(cards)[..k] + Ids(cards)[k + 1..]
  {
    var ids, rest := Ids(cards), Ids(RemoveAt(cards, k));
    assert forall j :: 0 <= j < |rest| ==> rest[j] == (ids[..k] + ids[k + 1..])[j];
  }
}
