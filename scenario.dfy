/** A session on the page, from loading the list to deleting a product, checked against
    the handlers' contracts alone. */
module Scenario {
  import opened Common
  import opened Form
  import opened Grid
  import opened View
  import opened Page

  function Shirt(): Product { Product(1, "Shirt", "Clothing", 20.0, "Cotton", None) }

  function Hat(): Product { Product(2, "Hat", "Accessories", 15.0, "Red", None) }

  /** The list loads with the shirt, and the hat is added through the add modal. */
  method LoadAndAdd(form: seq<string>) returns (page: Page)
    requires Submit(form).Ready?
    ensures fresh(page)
    ensures page.cards == [Shirt(), Hat()] && page.view.Browsing()
  {
    page := new Page();
    page.Load(Resolved([Shirt()]));
    assert page.cards == [Shirt()];
    page.ShowAddPage();
    assert page.view.Adding();
    var added := page.SubmitAdd(form, Resolved(Hat()));
    assert added == Completed;
  }

  /** The shirt is edited; its card keeps its place and the server's id is overwritten
      with the shirt's. */
  method EditShirt(page: Page, form: seq<string>)
    requires Submit(form).Ready?
    requires page.cards == [Shirt(), Hat()] && page.view.Browsing()
    modifies page
    ensures page.cards == [Shirt().(price := 25.0), Hat()] && page.view.Browsing()
  {
    page.EditCard(0);
    assert page.view.editingId == Some(1);
    assert FirstIndex([Shirt(), Hat()], 1) == Some(0);
    assert HasId(page.cards, 1) by { assert page.cards[0].id == 1; }
    var response := Shirt().(id := 7, price := 25.0);
    var edited := page.SubmitEdit(form, Resolved(response));
    assert edited == Completed;
  }

  /** Load one product, add one, edit the first, delete it: for any two forms that pass
      validation. */
  method Session(addForm: seq<string>, editForm: seq<string>)
    requires Submit(addForm).Ready? && Submit(editForm).Ready?
  {
    var page := LoadAndAdd(addForm);
    EditShirt(page, editForm);
    page.DeleteCard(0, false, Resolved(Shirt()));
    assert page.cards == [Shirt().(price := 25.0), Hat()];
    page.DeleteCard(0, true, Resolved(Shirt()));
    assert page.cards == [Hat()];
  }
}
