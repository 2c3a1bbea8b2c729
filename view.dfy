/** What the page shows: the visibility of the grid, the add button and the two modals,
    the page title, and the id of the product being edited (currentEditingProductId). */
module View {
  import opened Common
  import opened Grid

  datatype ViewState = ViewState(gridVisible: bool, addButtonVisible: bool, title: string,
                                 addModalVisible: bool, editModalVisible: bool,
                                 editingId: Option<Id>)
  {
    /** The product list with its add button, no modal open. */
    predicate Browsing() {
      gridVisible && addButtonVisible && title == "Products" && !addModalVisible && !editModalVisible
    }

    /** The add modal alone. */
    predicate Adding() {
      !gridVisible && !addButtonVisible && title == "Add Product" && addModalVisible && !editModalVisible
    }

    /** The edit modal alone, for product id. */
    predicate Editing(id: Id) {
      !gridVisible && !addButtonVisible && title == "Update Product" && !addModalVisible &&
      editModalVisible && editingId == Some(id)
    }

    /** Exactly one of the three views is on screen. */
    predicate Coherent() {
      Browsing() || Adding() || (editingId.Some? && Editing(editingId.value))
    }

    /** showProductsPage: grid and add button shown, title "Products", both modals hidden;
        the editing id is left as it was. */
    function ShowProducts(): (r: ViewState)
      ensures r.Browsing() && r.Coherent()
      ensures r.editingId == editingId
    {
      this.(gridVisible := true, addButtonVisible := true, title := "Products",
            addModalVisible := false, editModalVisible := false)
    }

    /** showAddPage: grid and add button hidden, title "Add Product", add modal shown; the
        edit modal and the editing id are left as they were. From the product list this is
        the add view. */
    function ShowAdd(): (r: ViewState)
      ensures !r.gridVisible && !r.addButtonVisible && r.title == "Add Product" && r.addModalVisible
      ensures r.editModalVisible == editModalVisible && r.editingId == editingId
      ensures Browsing() ==> r.Adding() && r.Coherent()
    {
      this.(gridVisible := false, addButtonVisible := false, title := "Add Product",
            addModalVisible := true)
    }

    /** showEditPage(id): grid and add button hidden, title "Update Product", edit modal
        shown, the editing id set to id; the add modal is left as it was. From the product
        list this is the edit view for id. */
    function ShowEdit(id: Id): (r: ViewState)
      ensures !r.gridVisible && !r.addButtonVisible && r.title == "Update Product"
      ensures r.editModalVisible && r.editingId == Some(id)
      ensures r.addModalVisible == addModalVisible
      ensures Browsing() ==> r.Editing(id) && r.Coherent()
    {
      this.(gridVisible := false, addButtonVisible := false, title := "Update Product",
            editModalVisible := true, editingId := Some(id))
    }
  }

  /** The page before any handler runs: the product list, nobody edited. */
  function Initial(): (v: ViewState)
    ensures v.Browsing() && v.editingId == None
  {
    ViewState(true, true, "Products", false, false, None)
  }

  /** Opening the add modal from the list and going back restores the list exactly. */
  lemma AddThenBack(v: ViewState)
    requires v.Browsing()
    ensures v.ShowAdd().ShowProducts() == v
  {
  }

  /** Opening the edit modal and going back restores the list but keeps the editing id:
      showProductsPage does not clear it. */
  lemma EditThenBack(v: ViewState, id: Id)
    requires v.Browsing()
    ensures v.ShowEdit(id).ShowProducts() == v.(editingId := Some(id))
  {
  }

  /** The three views exclude one another. */
  lemma ViewsExclusive(v: ViewState, id: Id)
    ensures !(v.Browsing() && v.Adding())
    ensures !(v.Browsing() && v.Editing(id))
    ensures !(v.Adding() && v.Editing(id))
  {
  }
}
