/** The catalogue page: its view state, the cards in the grid, and the requests it has
    sent to the product API. Every handler of the page is a method here. */
module Page {
  import opened Common
  import opened Form
  import opened Grid
  import opened View

  /** A request to the product API (createProduct, updateProduct at line 9, deleteProduct,
      getAllProducts). The edit request carries the editing id, which may be null. */
  datatype Request = Create(body: ProductData) | Update(target: Option<Id>, body: ProductData)
                   | Delete(victim: Id) | ListAll

  /** How an awaited API call ended: with the decoded response, or with a rejection (a
      network failure or a body that is not JSON), which throws out of the handler. */
  datatype Reply<T> = Resolved(value: T) | Rejected

  /** How a submit handler ended. `NotSent`: the form could not be read or was invalid, so
      nothing was sent. `RequestRejected`: the API call threw. `CardMissing`: no card had
      the id to replace, so replaceWith threw. `Completed`: the grid was updated and the
      product list is shown again. */
  datatype Outcome = NotSent | RequestRejected | CardMissing | Completed

  class Page {
    var view: ViewState
    var cards: seq<Product>
    var requests: seq<Request>

    /** The page as loaded: the product list on screen, no card yet, nothing sent. */
    constructor ()
      ensures view == Initial() && cards == [] && requests == []
    {
      view := Initial();
      cards := [];
      requests := [];
    }

    /** showProductsPage (lines 43-49). */
    method ShowProductsPage()
      modifies this
      ensures view == old(view).ShowProducts()
      ensures cards == old(cards) && requests == old(requests)
    {
      view := view.ShowProducts();
    }

    /** showAddPage (lines 51-56), the add button's click handler (line 88). */
    method ShowAddPage()
      modifies this
      ensures view == old(view).ShowAdd()
      ensures cards == old(cards) && requests == old(requests)
    {
      view := view.ShowAdd();
    }

    /** showEditPage (lines 58-64). */
    method ShowEditPage(id: Id)
      modifies this
      ensures view == old(view).ShowEdit(id)
      ensures cards == old(cards) && requests == old(requests)
    {
      view := view.ShowEdit(id);
    }

    /** The edit button of the card at position k (lines 161-168): the edit page for that
        card's product. */
    method EditCard(k: nat)
      requires k < |cards|
      modifies this
      ensures view == old(view).ShowEdit(old(cards)[k].id)
      ensures cards == old(cards) && requests == old(requests)
    {
      ShowEditPage(cards[k].id);
    }

    /** addProduct (lines 180-183): a card for p appended to the grid. */
    method AddProduct(p: Product)
      modifies this
      ensures cards == old(cards) + [p]
      ensures view == old(view) && requests == old(requests)
    {
      cards := cards + [p];
    }

    /** updateProduct (lines 185-189): the first card with p's id replaced by a card for p;
        ok is false when no card has that id (the source throws there). */
    method UpdateProduct(p: Product) returns (ok: bool)
      modifies this
      ensures ok == HasId(old(cards), p.id)
      ensures ok ==> cards == ReplaceFirst(old(cards), p).value
      ensures !ok ==> cards == old(cards)
      ensures view == old(view) && requests == old(requests)
    {
      match ReplaceFirst(cards, p)
      case None =>
        ok := false;
      case Some(replaced) =>
        cards := replaced;
        ok := true;
    }

    /** The delete button of the card at position k (lines 170-175): after confirmation the
        delete request is sent, and once it has resolved that card, and no other, leaves
        the grid. */
    method DeleteCard(k: nat, confirmed: bool, reply: Reply<Product>)
      requires k < |cards|
      modifies this
      ensures !confirmed ==> requests == old(requests)
      ensures confirmed ==> requests == old(requests) + [Delete(old(cards)[k].id)]
      ensures confirmed && reply.Resolved? ==> cards == RemoveAt(old(cards), k)
      ensures !(confirmed && reply.Resolved?) ==> cards == old(cards)
      ensures view == old(view)
    {
      if confirmed {
        requests := requests + [Delete(cards[k].id)];
        if reply.Resolved? {
          cards := RemoveAt(cards, k);
        }
      }
    }

    /** The DOMContentLoaded handler (lines 191-194): all products fetched, then a card
        appended for each, in the order of the response. */
    method Load(reply: Reply<seq<Product>>)
      modifies this
      ensures requests == old(requests) + [ListAll]
      ensures reply.Resolved? ==> cards == old(cards) + reply.value
      ensures reply.Rejected? ==> cards == old(cards)
      ensures view == old(view)
    {
      requests := requests + [ListAll];
      if reply.Rejected? {
        return;
      }
      var products := reply.value;
      var i := 0;
      while i < |products|
        invariant 0 <= i <= |products|
        invariant cards == old(cards) + products[..i]
        invariant view == old(view) && requests == old(requests) + [ListAll]
      {
        AppendAll(old(cards), products, i);
        AddProduct(products[i]);
        i := i + 1;
      }
      assert products[..i] == products;
    }

    /** The add modal's submit handler (lines 90-105). */
    method SubmitAdd(values: seq<string>, reply: Reply<Product>) returns (o: Outcome)
      modifies this
      ensures !Submit(values).Ready? ==>
        o == NotSent && view == old(view) && cards == old(cards) && requests == old(requests)
      ensures Submit(values).Ready? ==> requests == old(requests) + [Create(Submit(values).data)]
      ensures Submit(values).Ready? && reply.Rejected? ==>
        o == RequestRejected && view == old(view) && cards == old(cards)
      ensures Submit(values).Ready? && reply.Resolved? ==>
        o == Completed && cards == old(cards) + [reply.value] && view == old(view).ShowProducts()
      ensures old(view).Coherent() ==> view.Coherent()
    {
      var s := Submit(values);
      if !s.Ready? {
        return NotSent;
      }
      requests := requests + [Create(s.data)];
      if reply.Rejected? {
        return RequestRejected;
      }
      AddProduct(reply.value);
      ShowProductsPage();
      o := Completed;
    }

    /** The edit modal's submit handler (lines 107-123), with the update request and the
        card replacement as two separate steps: the response's id is overwritten with the
        editing id before its card replaces the old one. */
    method SubmitEdit(values: seq<string>, reply: Reply<Product>) returns (o: Outcome)
      modifies this
      ensures !Submit(values).Ready? ==>
        o == NotSent && view == old(view) && cards == old(cards) && requests == old(requests)
      ensures Submit(values).Ready? ==>
        requests == old(requests) + [Update(old(view).editingId, Submit(values).data)]
      ensures Submit(values).Ready? && reply.Rejected? ==>
        o == RequestRejected && view == old(view) && cards == old(cards)
      ensures Submit(values).Ready? && reply.Resolved? ==>
        o == (if old(view).editingId.Some? && HasId(old(cards), old(view).editingId.value)
              then Completed else CardMissing)
      ensures o == CardMissing ==> view == old(view) && cards == old(cards)
      ensures o == Completed ==> (old(view).editingId.Some? && reply.Resolved? &&
        cards == ReplaceFirst(old(cards), reply.value.(id := old(view).editingId.value)).value &&
        view == old(view).ShowProducts())
      ensures old(view).Coherent() ==> view.Coherent()
    {
      var s := Submit(values);
      if !s.Ready? {
        return NotSent;
      }
      requests := requests + [Update(view.editingId, s.data)];
      if reply.Rejected? {
        return RequestRejected;
      }
      match view.editingId
      case None =>
        o := CardMissing;
      case Some(id) =>
        var ok := UpdateProduct(reply.value.(id := id));
        if !ok {
          return CardMissing;
        }
        ShowProductsPage();
        o := Completed;
    }

    /** The page shows exactly one of its three views. */
    predicate Coherent()
      reads this
    {
      view.Coherent()
    }

    /** Every handler the visible controls can trigger keeps exactly one view on screen:
        the add button and the card buttons sit on the product list, the submit buttons in
        their modals. */
    method Step(event: Event) returns (o: Outcome)
      requires Coherent() && Enabled(event)
      modifies this
      ensures Coherent()
    {
      o := Completed;
      match event
      case ClickAdd =>
        ShowAddPage();
      case ClickEdit(k) =>
        EditCard(k);
      case ClickDelete(k, confirmed, reply) =>
        DeleteCard(k, confirmed, reply);
      case SubmitAddForm(values, reply) =>
        o := SubmitAdd(values, reply);
      case SubmitEditForm(values, reply) =>
        o := SubmitEdit(values, reply);
    }

    /** The control behind the event is on screen. */
    predicate Enabled(event: Event)
      reads this
    {
      match event
      case ClickAdd => view.addButtonVisible
      case ClickEdit(k) => view.gridVisible && k < |cards|
      case ClickDelete(k, _, _) => view.gridVisible && k < |cards|
      case SubmitAddForm(_, _) => view.addModalVisible
      case SubmitEditForm(_, _) => view.editModalVisible
    }
  }

  /** A user action on the page, with what the environment answers (confirm, the API). */
  datatype Event = ClickAdd | ClickEdit(k: nat)
                 | ClickDelete(k: nat, confirmed: bool, reply: Reply<Product>)
                 | SubmitAddForm(values: seq<string>, reply: Reply<Product>)
                 | SubmitEditForm(values: seq<string>, reply: Reply<Product>)
}
