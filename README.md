# Product catalogue page, modelled in Dafny

`script.js` drives a catalogue page backed by a remote product API. It keeps a grid of
product cards, opens an add modal and an edit modal, validates the four form fields
(title, category, price, description), sends create, update and delete requests, and
updates the grid in place. This project models the logic behind the network and DOM
calls and proves what that logic guarantees.

- `text.dfy` (module `Text`): `String.prototype.trim` as `getFormData` uses it, over the
  exact ECMAScript set of whitespace and line-terminator characters. It proves that trim
  removes whitespace only at the two ends, is the only such cut with no outer whitespace
  left, and is idempotent.
- `numbers.dfy` (module `Numbers`): the price text as `Number()` and `parseFloat()` read
  it, restricted to decimal literals (`[+|-](digits[.[digits]] | .digits)`), with exact rational
  values. It proves that a decimal literal is greater than zero exactly when it has no
  minus sign and some digit other than 0.
- `form.dfy` (module `Form`): `getFormData` (`ReadForm`), `validateForm` (`Validate`, whose
  two refusals are its two alerts), and the request body the submit handlers build
  (`Payload`, `Submit`).
- `grid.dfy` (module `Grid`): a card is reduced to the product it shows, and the grid is
  the sequence of those products in document order. It defines the lookup by
  `data-product-id` (`FirstIndex`), the in-place replacement (`ReplaceFirst`) and the
  removal of one card (`RemoveAt`).
- `view.dfy` (module `View`): the visibility of the grid, the add button and the two
  modals, the page title and `currentEditingProductId`, as one record, `ViewState`. It
  also defines the three transitions `showProductsPage`, `showAddPage` and
  `showEditPage`.
- `page.dfy` (module `Page`): the page as a class. Its fields are the view record, the
  grid (a `seq` of products) and the log of requests sent to the API. There is one method
  per view, grid and event-handler function of the script; `getFormData` and
  `validateForm` are the functions of `Form`. The API is an oracle: a handler that
  awaits a call takes the call's `Reply` as a parameter, either `Resolved(response)` or
  `Rejected`. A rejection throws out of the handler, so no later statement runs. `confirm`
  is a boolean parameter. `Step` dispatches every user event and proves that the page
  always shows exactly one of its three views.
- `scenario.dfy` (module `Scenario`): load one product, add a second, edit the first,
  then delete it. It is checked against the handlers' contracts alone.

Where the code departs from what a reader would expect of such a page, the model follows
the code:
- `showProductsPage` does not clear `currentEditingProductId`. Leaving the edit view keeps
  the old id (`View.EditThenBack`).
- Nothing is checked about the status of a reply. Any resolved reply is taken as success.
- Validation stops at the first failing rule and shows one alert for it. It does not
  report every field that fails.
- The delete handler removes the clicked card itself (`article.remove()`), not a card
  looked up by id. The model finds that card by its position at click time. This is the
  same card because handlers do not interleave (see the `async` line under "## Left out").

## Model

| member | source | states |
|---|---|---|
| Text.Trim | script.js:69-72 | the trimmed value has no whitespace at either end, and it is the input with only whitespace cut from its two ends |
| Text.TrimCharacterized | script.js:69-72 | any way of cutting only whitespace off the two ends that leaves no outer whitespace gives exactly the trimmed value |
| Text.TrimIdempotent | script.js:69-72 | trimming a trimmed value changes nothing |
| Text.TrimBlank | script.js:69-72 | trimming gives the empty text exactly when every character is whitespace |
| Numbers.ToNumber | script.js:81 | `Number()` of the price trims it: the result is a number exactly when the trimmed text is empty or a decimal literal; a blank text is 0, and a decimal literal is its value; anything else is NaN |
| Numbers.ParseFloat | script.js:81 | on a price that `Number()` reads as a number, `parseFloat` is NaN exactly for an all-whitespace text, and otherwise agrees with `Number()` |
| Numbers.DecimalPositive | script.js:81 | a decimal price is greater than zero exactly when it has no minus sign and some digit other than 0 |
| Form.ReadForm | script.js:66-74 | the form is read exactly when the modal has four inputs; the fields come in the order title, category, price, description, each trimmed, none with outer whitespace |
| Form.ReadFormStable | script.js:66-74 | reading an already-read form gives the same form again |
| Form.Validate | script.js:76-86 | the missing-field alert is given exactly when some field is empty, so an empty field is reported before the price is looked at; the form is accepted exactly when every field is filled and the price is blank or a positive decimal |
| Form.ValidateClean | script.js:76-86 | on a trimmed form, acceptance holds exactly when all four fields are filled and the price is a decimal literal greater than zero, that is, with no minus sign and a non-zero digit |
| Form.BlankPriceAccepted | script.js:77-85 | on its own, `validateForm` accepts every non-empty price made only of whitespace, because `Number` reads it as 0 and `parseFloat` as NaN |
| Form.Payload | script.js:96-101 | the request body of an accepted form carries its three texts unchanged and a price greater than zero |
| Form.Submit | script.js:93-101 | the form leads to a request exactly when it is readable and accepted; otherwise the result is the verdict of `validateForm`; the body holds the trimmed title, category and description and the positive value of the price text |
| Form.SubmitWholeNumber | script.js:93-101 | a form with clean texts and a whole-number price is sent as typed |
| Grid.FirstIndex | script.js:186 | the lookup finds no card exactly when no card has the id; otherwise it finds the first card with that id |
| Grid.ReplaceFirst | script.js:185-189 | the replacement fails exactly when no card has the product's id; otherwise the grid keeps its length, the first card with that id now shows the product, and every other card is unchanged |
| Grid.ReplaceKeepsIds | script.js:185-189 | a replacement leaves the id of every card in its place |
| Grid.ReplaceLastWins | script.js:185-189 | replacing the same product twice gives the grid of the second replacement alone |
| Grid.RemoveAt | script.js:173 | removing a card shortens the grid by one; earlier cards are unchanged and later cards move up one place in their order; exactly one copy of the removed card is gone |
| Grid.RemoveAtIds | script.js:170-175 | after a removal the ids are the old ids with that one position cut out |
| Grid.AppendKeepsOrder | script.js:180-183 | appending puts the new card last and leaves the earlier cards and their order untouched |
| View.ViewState.ShowProducts | script.js:43-49 | the result is the product list: grid and add button shown, title "Products", both modals hidden; the editing id is not touched |
| View.ViewState.ShowAdd | script.js:51-56 | grid and add button hidden, title "Add Product", add modal shown; the edit modal and the editing id are left as they were; from the product list this is the add view |
| View.ViewState.ShowEdit | script.js:58-64 | grid and add button hidden, title "Update Product", edit modal shown, editing id set; the add modal is left as it was; from the product list this is the edit view |
| View.Initial | script.js:41 | the page starts on the product list with no editing id |
| View.AddThenBack | script.js:43-56 | opening the add modal from the list and returning restores the list exactly |
| View.EditThenBack | script.js:43-64 | opening the edit modal and returning restores the list but keeps the editing id |
| Page.Page.constructor | script.js:41 | the page starts with the initial view, an empty grid and no request sent |
| Page.Page.ShowProductsPage | script.js:43-49 | the view becomes the product list; grid and requests unchanged |
| Page.Page.ShowAddPage | script.js:51-56 | the view becomes the add view; grid and requests unchanged |
| Page.Page.ShowEditPage | script.js:58-64 | the view becomes the edit view for the id; grid and requests unchanged |
| Page.Page.EditCard | script.js:161-168 | the edit button of a card opens the edit view for that card's product id |
| Page.Page.AddProduct | script.js:180-183 | the grid grows by one card, the given product, placed last; view and requests unchanged |
| Page.Page.UpdateProduct | script.js:185-189 | the replacement succeeds exactly when some card has the product's id, and then the grid is the first-match replacement; otherwise nothing changes |
| Page.Page.DeleteCard | script.js:170-175 | without confirmation nothing is sent and nothing changes; with it one delete request for that card's id is sent, and only if it resolves is that card removed from the grid |
| Page.Page.Load | script.js:191-194 | one list request is sent; when it resolves the grid is the old grid followed by the products in the order returned |
| Page.Page.SubmitAdd | script.js:90-105 | an unreadable or invalid form sends nothing and changes nothing; a valid one sends one create request with the form's body; when it resolves the grid gains exactly the response as its last card and the product list is shown, and when it is rejected the grid and view stay |
| Page.Page.SubmitEdit | script.js:107-123 | an invalid form sends nothing and changes nothing; a valid one sends one update request for the editing id; the response, with its id overwritten by the editing id, replaces the first card with that id and the product list is shown; with no such card, or a rejected request, grid and view stay |
| Page.Page.Step | script.js:88-175 | any event whose control is on screen leaves the page showing exactly one of the list, add and edit views |
| Scenario.LoadAndAdd | script.js:90-105 | loading one product and adding a second through the add modal shows both cards in that order, on the product list |
| Scenario.EditShirt | script.js:107-123 | editing the first of two cards replaces it in place with the first card's id kept, and returns to the product list |

## Left out

- `createProduct`, `updateProduct` (line 9), `deleteProduct` and `getAllProducts`
  (lines 1-25) are not modelled as code. Each call is logged as a `Request` and answered
  by a `Reply` parameter. The source checks no status codes, so any resolved reply is
  used as it is. `Rejected` stands for a rejected `fetch` or a body that is not JSON.
- JSON encoding and decoding, and the request URLs, are left out.
- The card template of `createProductCard` (lines 125-159) is left out: the markup, the
  placeholder image and the CSS `display` strings. A card is its product, and
  visibility is a boolean.
- The edit button copies the product's four fields into the edit modal (lines 162-166).
  This is left out because it needs JavaScript's number-to-string conversion of the
  price. The submit handlers take the modal's input values as a parameter.
- `alert` is left out. The two alert texts are the two refusals of `Form.Verdict`.
  `confirm` is a boolean parameter.
- `async`/`await` scheduling is left out. Each handler runs to its end, or to the point
  where it throws, before another starts. Another event could run between an `await`
  and the code after it; that interleaving is not modelled (the script has no
  double-submit guard).
- `isNaN` and `parseFloat` are modelled only for decimal literals with an optional sign.
  Hexadecimal, binary and octal literals, exponents and `Infinity` count as not numeric
  here.
- Prices are exact rationals, not floating-point numbers. A price the server returns is
  kept as it is.
- Because the script declares `updateProduct` twice, the declaration at line 185 shadows
  the one at line 9. So line 113 calls the grid function with an id instead of calling
  the API. `querySelector` then returns null, and `replaceWith` throws before any request
  is sent. The model does not reproduce this crash. `Page.Page.SubmitEdit` models the
  intended flow: the API update, then the grid replacement.
- The page's markup is not part of this model. The constructor assumes the product list
  is on screen with the title "Products" and that the grid starts empty.
- Two exceptions are modelled only as outcomes: a modal with fewer than four inputs,
  and a missing card in `updateProduct`. The model shows which handler steps did not
  run, but not the error objects.
- `Page.Page.Step`: states only that exactly one view stays on screen. What each event
  does is stated by the handler it calls.
