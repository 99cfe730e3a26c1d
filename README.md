# Patis't Délice storefront: a Dafny model

Patis't Délice is a bakery's web shop. Customers browse products by
category, fill a cart and send an order. The order is saved on the server.
The shop then gets a PDF invoice and a WhatsApp message about it. A
password-protected admin panel adds categories and products, and deletes
products. The server keeps everything in a key-value store.

This project models the logic behind those screens and routes:

- **Cart** (`cart.dfy`): the shopping cart, a JavaScript object from product
  id to quantity. It is modelled as an ordered list of entries, in
  `Object.entries` order. It covers `addToCart`, `removeFromCart` and
  `clearItemFromCart`, the cart count, the cart items and the total.
- **Storefront** (`app.dfy`): class `App` holds the cart, the product list
  and the category list. It models loading products (with the six default
  products as a fallback), loading and normalising categories,
  `onCategoryAdded`, and the order submission. Submission builds the order
  payload, saves it, then makes the invoice and the WhatsApp link and
  empties the cart.
- **Invoice** (`invoice.dfy`): `generateInvoicePDF`, as the list of drawing
  operations it issues, with their coordinates and the file name.
- **WhatsApp** (`whatsapp.dfy`): the message text, line by line, and the
  `wa.me` link that carries it. `uri.dfy` models `encodeURIComponent` and
  its decoding. `jstext.dfy` models `trim`, the `\s+` replacement, number
  printing and `toFixed(2)`.
- **AdminPanel** (`adminpanel.dfy`): category normalisation and the
  `Map`-based dedupe, product loading, and the add-category, add-product
  and delete-product handlers. Class `Panel` holds the panel's state.
- **ProductsSection**, **OrderForm** and **CartSheet**: the derived values
  these components show. These are the category tabs, the products in each
  tab, the per-card quantity, the form state and its submit rule, and the
  cart sheet's lines and total.
- **Server** (`server.dfy`): the routes' records and replies over a store
  `map<string, Json>`. This covers the record built for each POST, the
  listing filters, the newest-first order sort and the 401 and 500 paths.
  Class `Kv` holds the store.

The shared pieces are in two files:

- `collections.dfy` holds sequence filtering, the `Set` dedupe (first
  occurrence, in order) and the `Map` dedupe (first position, last value).
- `jsvalue.dfy` holds JSON values, JavaScript truthiness and the domain
  records.

Prices are integer numbers of cents throughout.

## Model

| member | source | states |
|---|---|---|
| Cart.Lookup | src/App.tsx:135-141 | reading `prev[id]` finds a value exactly when some entry has that key, and returns that entry's value |
| Cart.LookupPut | src/App.tsx:135-141 | after `{...prev, [id]: q}` the key reads `q` and every other key reads as before |
| Cart.LookupDelete | src/App.tsx:143-153 | after `delete` the key reads as absent and every other key reads as before |
| Cart.PutWellFormed | src/App.tsx:135-141 | a spread-assign keeps the keys distinct and adds no entry other than the new one |
| Cart.DeleteWellFormed | src/App.tsx:143-162 | deleting a key keeps the keys distinct |
| Cart.AddedToValid | src/App.tsx:135-141 | adding one keeps every stored quantity at least 1 |
| Cart.RemovedFromValid | src/App.tsx:143-153 | removing one, and deleting the entry at 1, keeps every stored quantity at least 1 |
| Cart.ClearedOfValid | src/App.tsx:155-162 | clearing an item keeps every stored quantity at least 1 |
| Cart.AddThenRemove | src/App.tsx:135-153 | adding one of a product and then removing one gives back the same cart, order included |
| Cart.RemoveAbsent | src/App.tsx:143-162 | removing or clearing a product not in the cart changes nothing |
| Cart.CountAfterAdd | src/App.tsx:135-141 | the cart count goes up by exactly one on add |
| Cart.CountAfterRemove | src/App.tsx:143-153 | the cart count goes down by one on remove when the product is there, and is unchanged otherwise |
| Cart.CountAfterClear | src/App.tsx:155-162 | clearing lowers the cart count by that product's quantity |
| Cart.CountOfValid | src/App.tsx:164-167 | the count is at least the number of entries, and zero exactly when the cart is empty |
| Cart.CartItems | src/App.tsx:177-184 | every cart item has a positive quantity and is the catalogue's product with that id |
| Cart.CartItemsArePositiveEntries | src/App.tsx:177-184 | the cart items are the entries with quantity > 0, in cart order |
| Cart.CartItemsOfValid | src/App.tsx:177-184 | in a cart the handlers built, the items cover every entry, and there are none exactly when the cart is empty |
| Cart.TotalAppend | src/utils/pdfGenerator.ts:73-75 | the running total grows by price × quantity at each item |
| Cart.TotalIsSumOver | src/components/OrderForm.tsx:43-53 | the total of the cart items equals price × quantity summed over the cart's entries |
| Cart.TotalAfterAdd | src/App.tsx:135-141 | adding a catalogue product raises the total by its price |
| Cart.TotalAfterRemove | src/App.tsx:143-153 | removing one lowers the total by the product's price when it was in the cart, and leaves it unchanged otherwise |
| Cart.TotalAfterClear | src/App.tsx:155-162 | clearing a product lowers the total by price × its quantity |
| Storefront.OrderNumbersDiffer | src/App.tsx:187 | orders placed at different instants get different `CMD…` numbers |
| Storefront.ItemsTotalOfSnapshots | src/App.tsx:190-200 | the saved line items add up to the same total as the cart items |
| Storefront.PayloadFromCart | src/App.tsx:190-200 | the payload carries the order number, the customer fields, one saved line per positive cart entry (id, name, price, quantity) and the cart's total |
| Storefront.CategoryName | src/App.tsx:66-76 | a string entry is its own name (dropped when empty); an object's `name` string wins over its `label`; any other value gives no name |
| Storefront.LoadedCategoryList | src/App.tsx:65-78 | the loaded categories have no duplicates, are exactly the names found, and keep their first-occurrence order |
| Storefront.DefaultIdOf | src/App.tsx:84-133 | the six default products have the ids `product:1` to `product:6`, in order |
| Storefront.DefaultIdsDistinct | src/App.tsx:84-133 | no two default products share an id |
| Storefront.SubmitOutcomes | src/App.tsx:177-222 | a cart with an unknown product fails before anything is sent; otherwise the payload is the cart's; invoice and link happen exactly when the save succeeded; the link's text decodes to the WhatsApp message |
| Storefront.App.constructor | src/App.tsx:20-25 | the storefront starts with an empty cart, no products and no categories |
| Storefront.App.CartCount | src/App.tsx:164-167 | the cart count is at least the number of entries, and zero exactly for an empty cart |
| Storefront.App.AddToCart | src/App.tsx:135-141 | the cart becomes `AddedTo(old cart, id)`, still valid; products and categories unchanged |
| Storefront.App.RemoveFromCart | src/App.tsx:143-153 | the cart becomes `RemovedFrom(old cart, id)`, still valid; products and categories unchanged |
| Storefront.App.ClearItemFromCart | src/App.tsx:155-162 | the cart becomes `ClearedOf(old cart, id)`, still valid; products and categories unchanged |
| Storefront.App.HandleSubmitOrder | src/App.tsx:177-222 | the outcome is the submission of the old cart, and the cart is emptied exactly when the order was sent |
| Storefront.App.Dispatch | src/App.tsx:215-219 | once saved, the invoice is drawn and the message sent for the payload's order number and the cart items |
| Storefront.App.LoadCategories | src/App.tsx:58-82 | the category list becomes the deduplicated names of the response, or stays as it was when the request fails |
| Storefront.App.OnCategoryAdded | src/App.tsx:252-254 | a new name is appended unless already present |
| Storefront.App.LoadProducts | src/App.tsx:36-56 | a non-empty answer gives its non-null products in order; anything else gives the six defaults |
| Invoice.GenerateInvoicePdf | src/utils/pdfGenerator.ts:1-127 | the document is the invoice's operation list, the total is Σ price × quantity, and the file name is `facture_<number>_<name>.pdf` |
| Invoice.DrawItemRows | src/utils/pdfGenerator.ts:73-91 | the item loop draws the rows for the items, ends at the rows' end, and totals price × quantity |
| Invoice.RowsEndBelow | src/utils/pdfGenerator.ts:73-91 | each row moves down at least 7 units, so the rows end at least 7 × n below where they started |
| Invoice.RowStartsIncrease | src/utils/pdfGenerator.ts:73-91 | later rows start strictly lower on the page, at least 7 units per row |
| Invoice.RowsBetweenHeaderAndTotal | src/utils/pdfGenerator.ts:57-101 | every row is drawn below the table header and above the total line |
| Invoice.TotalBlock | src/utils/pdfGenerator.ts:94-101 | the separator is 5 below the last row and `TOTAL TTC` with the total is 10 below that |
| Invoice.NotesBlock | src/utils/pdfGenerator.ts:104-111 | the notes block is drawn exactly when there are notes, with the wrapped notes under its label |
| Invoice.AddressLine | src/utils/pdfGenerator.ts:39-41 | an address line is drawn exactly when the address is non-empty, whatever the order type |
| Invoice.PickupDateLine | src/utils/pdfGenerator.ts:48-54 | a pickup-date line is drawn exactly when a date was chosen |
| Invoice.FileNameShape | src/utils/pdfGenerator.ts:123 | the file name is the prefix, the order number, `_`, the name with no white space left, and `.pdf` |
| Invoice.FileNameOfPlainName | src/utils/pdfGenerator.ts:123 | a name without white space appears unchanged in the file name |
| WhatsApp.SendWhatsAppNotification | src/utils/whatsappNotification.ts:11-60 | the message sent is the order message and the link is the `wa.me` link for it |
| WhatsApp.ArticleLines | src/utils/whatsappNotification.ts:43-47 | the item loop writes one bullet per item, in order |
| WhatsApp.MessageOpensWithOrder | src/utils/whatsappNotification.ts:22-26 | the message opens with the header, then the order number, client, email and phone lines |
| WhatsApp.TypeLineShown | src/utils/whatsappNotification.ts:28-30 | among the pieces the message is built from, exactly one type line, "Livraison" or "Retrait en magasin" as the order type says |
| WhatsApp.AddressLineShown | src/utils/whatsappNotification.ts:32-34 | among the pieces the message is built from, an address line appears exactly for a delivery with a non-empty address, showing it |
| WhatsApp.DateLineShown | src/utils/whatsappNotification.ts:36-40 | among the pieces the message is built from, a date line appears exactly when a pickup date is set, showing that date formatted |
| WhatsApp.ArticleLinesInOrder | src/utils/whatsappNotification.ts:42-47 | the bullet lines are exactly one per item, in order |
| WhatsApp.TotalLineShown | src/utils/whatsappNotification.ts:16-49 | among the pieces the message is built from, exactly one total line, carrying Σ price × quantity |
| WhatsApp.NotesLineShown | src/utils/whatsappNotification.ts:51-53 | among the pieces the message is built from, a notes line appears exactly when the notes are not empty |
| WhatsApp.LinkCarriesMessage | src/utils/whatsappNotification.ts:56-57 | the link is the shop number's `wa.me` address, and what follows `?text=` decodes back to the whole message and holds no character that ends the value |
| UriEncoding.DecodeEncode | src/utils/whatsappNotification.ts:56 | decoding `encodeURIComponent(s)` gives back `s` |
| UriEncoding.EncodedIsQuerySafe | src/utils/whatsappNotification.ts:56 | the encoded text holds only unreserved characters and `%XX` escapes |
| UriEncoding.EncodeUnreserved | src/utils/whatsappNotification.ts:56 | text made only of unreserved characters is left as it is |
| JsText.TrimShape | src/components/AdminPanel.tsx:104 | `trim()` gives a slice of its input with no white space at either end |
| JsText.TrimEmptyIff | src/components/AdminPanel.tsx:92 | `trim()` is empty exactly when the input is all white space |
| JsText.CollapseHasNoWhiteSpace | src/utils/pdfGenerator.ts:123 | after `replace(/\s+/g, "_")` no white space is left |
| JsText.CollapseKeepsPlainText | src/utils/pdfGenerator.ts:123 | text without white space is left unchanged |
| JsText.CollapseRun | src/utils/pdfGenerator.ts:123 | a whole run of white space, however long, becomes a single `_` |
| JsText.CollapseConcat | src/utils/pdfGenerator.ts:123 | the replacement works piece by piece: cutting the text after a character that is not white space splits the result at the same place |
| JsText.NatToStringRoundTrip | src/App.tsx:187 | the decimal digits of a timestamp read back as that timestamp |
| JsText.NatToStringInjective | src/App.tsx:187 | different timestamps print differently |
| JsText.FormatFixed2Value | src/utils/pdfGenerator.ts:88-89 | `toFixed(2)` of a cents amount prints the euros, a point and exactly two digits of cents |
| Collections.DistinctOfNoDuplicates | src/App.tsx:77-78 | a `Set` built from a list without repeats keeps the list as it is |
| Collections.DistinctFirstOccurrenceOrder | src/App.tsx:77-78 | a `Set` keeps each value at its first occurrence, in that order |
| Collections.DedupeByKeyUnique | src/components/AdminPanel.tsx:68 | a `Map` keyed by name holds each key once |
| Collections.DedupeByKeyLastWins | src/components/AdminPanel.tsx:68 | for each key the `Map` keeps the last value written |
| AdminPanel.NormalizeCategory | src/components/AdminPanel.tsx:55-66 | a string becomes `{id, name}` equal to it; an object takes `name` (else `label`) and `id` (else the name); a value that is empty or of any other kind is dropped |
| AdminPanel.AdminCategoryList | src/components/AdminPanel.tsx:54-68 | the panel's categories have distinct, non-empty names, one per name found, in first-occurrence order |
| AdminPanel.AdminCategoryLastWins | src/components/AdminPanel.tsx:68 | each kept category is the last one found under its name |
| AdminPanel.NamesAgree | src/components/AdminPanel.tsx:55-66 | the panel and the storefront read the same name from an entry, except that the panel drops an object whose name is empty |
| AdminPanel.LoadedProducts | src/components/AdminPanel.tsx:81-84 | a `null` body throws; a falsy `products` gives none; an array keeps its non-null entries |
| AdminPanel.LoadedProductsKeepOrder | src/components/AdminPanel.tsx:83 | a list without nulls is loaded unchanged, in order |
| AdminPanel.LoadedProductsDropNull | src/components/AdminPanel.tsx:83 | a `null` is dropped where it stands: the entries before and after it all stay, in their order |
| AdminPanel.LoadedProductsJoinRuns | src/components/AdminPanel.tsx:83 | two null-free runs with a `null` between them load as the two runs joined |
| AdminPanel.CategoryRequest | src/components/AdminPanel.tsx:92-104 | nothing is posted exactly when the input is all white space; otherwise `{name}` holds the trimmed input |
| AdminPanel.ProductRequest | src/components/AdminPanel.tsx:132-147 | nothing is posted exactly when name, price or category is empty; otherwise the draft's fields with the price parsed |
| AdminPanel.DeletePath | src/components/AdminPanel.tsx:181 | the delete request goes to `/products/` followed by the id, unchanged |
| AdminPanel.Panel.constructor | src/components/AdminPanel.tsx:27-39 | the panel starts with no categories, no products, closed dialogs and empty inputs |
| AdminPanel.Panel.LoadCategories | src/components/AdminPanel.tsx:47-74 | the category list becomes the normalised, deduplicated response, or stays as it was when the request fails |
| AdminPanel.Panel.LoadProducts | src/components/AdminPanel.tsx:76-89 | the product list becomes the loaded products, or stays as it was when loading throws |
| AdminPanel.Panel.HandleAddCategory | src/components/AdminPanel.tsx:91-129 | posts the trimmed name unless it is blank; on success reports it, clears the input, closes the dialog and reloads |
| AdminPanel.Panel.HandleAddProduct | src/components/AdminPanel.tsx:131-173 | posts the draft unless a required field is empty; on success resets the draft, closes the dialog and reloads |
| AdminPanel.Panel.HandleDeleteProduct | src/components/AdminPanel.tsx:175-199 | asks first; when confirmed it sends the delete for the id and reloads on success |
| ProductsSection.TabList | src/components/ProductsSection.tsx:14-18 | the tabs start with "Tous", then hold unique names: the provided ones first, in order, then each non-empty product category |
| ProductsSection.ProductCategories | src/components/ProductsSection.tsx:14 | the computed categories are exactly the non-empty categories of the products |
| ProductsSection.TabContents | src/components/ProductsSection.tsx:42-43 | "Tous" shows every product; another tab shows exactly the products of that category |
| ProductsSection.EveryProductHasItsTab | src/components/ProductsSection.tsx:14-43 | a product with a category has a tab, and is shown under it |
| ProductsSection.CardQuantity | src/components/ProductsSection.tsx:48-50 | a card shows 0 exactly when the product is not in the cart; + adds one, − removes one or stays at 0 |
| OrderForm.FormSummary | src/components/OrderForm.tsx:43-53 | the form's items are the positive cart entries and its total is Σ price × quantity over the cart |
| OrderForm.SubmitRule | src/components/OrderForm.tsx:206 | the submit button is disabled exactly when no entry is positive, so for a cart the handlers built, exactly when it is empty |
| OrderForm.VisibleInputs | src/components/OrderForm.tsx:147-161 | the address input shows for a delivery and the date picker for a pickup, never both |
| OrderForm.HiddenAddressStillInvoiced | src/components/OrderForm.tsx:129-161 | an address typed and then hidden by switching to a pickup stays in the form data; the invoice still prints it, the WhatsApp message leaves it out |
| OrderForm.HiddenDateStillSent | src/components/OrderForm.tsx:129-179 | a pickup date chosen and then hidden by switching to a delivery stays in the form data, and both the invoice and the WhatsApp message still show it |
| OrderForm.Form.constructor | src/components/OrderForm.tsx:30-36 | the form starts empty, as a pickup, with no address or date |
| OrderForm.Form.HandleSubmit | src/components/OrderForm.tsx:38-41 | the order handed on is the form's current data |
| OrderForm.Form.SetName | src/components/OrderForm.tsx:93 | only the name changes |
| OrderForm.Form.SetEmail | src/components/OrderForm.tsx:106 | only the email changes |
| OrderForm.Form.SetPhone | src/components/OrderForm.tsx:119 | only the phone changes |
| OrderForm.Form.SetOrderType | src/components/OrderForm.tsx:129 | only the order type changes; a hidden address or date is kept |
| OrderForm.Form.SetAddress | src/components/OrderForm.tsx:155 | only the address changes |
| OrderForm.Form.SetPickupDate | src/components/OrderForm.tsx:179 | only the pickup date changes |
| OrderForm.Form.SetNotes | src/components/OrderForm.tsx:197 | only the notes change |
| CartSheet.SheetShowsCart | src/components/CartSheet.tsx:24-66 | one line per positive entry, each with the catalogue name and price, the quantity and price × quantity; the lines add up to the total; "Votre panier est vide" shows exactly when no entry is positive |
| CartSheet.SubtotalsAddUp | src/components/CartSheet.tsx:31-34 | the line subtotals add up to the total |
| CartSheet.RemoveButton | src/components/CartSheet.tsx:72 | a line's remove button takes the product out of the cart and lowers the total by that line's subtotal |
| Server.KeysOfInstants | src/supabase/functions/server/index.tsx:67-158 | each key carries its prefix, and records posted at different instants get different keys |
| Server.ValuesAtListing | src/supabase/functions/server/index.tsx:44-45 | a `getByPrefix` listing yields exactly the stored values under that prefix |
| Server.CategoriesReply | src/supabase/functions/server/index.tsx:42-52 | the categories list holds exactly the non-null values stored under `category:`, one per key that holds a value, in the store's listing order |
| Server.FilterValuesAt | src/supabase/functions/server/index.tsx:44-45 | dropping the `null` values of a listing gives the values of exactly the keys that hold one, in listing order |
| Server.ProductsReply | src/supabase/functions/server/index.tsx:87-95 | the products list holds every value stored under `product:`, in listing order, nulls included |
| Server.CategoryRecord | src/supabase/functions/server/index.tsx:65-76 | the record has the id `cat_<t>`, the creation time and the name when one was given |
| Server.ProductRecord | src/supabase/functions/server/index.tsx:108-123 | the record has the id `prod_<t>`, the creation time, description and image (else ""), the parsed price, and name and category when given |
| Server.OrderRecord | src/supabase/functions/server/index.tsx:158-165 | the order is the body's fields with the `order:` key as id (unless the body has one), the creation time, and status "pending" |
| Server.Insert | src/supabase/functions/server/index.tsx:188-190 | inserting adds the item and loses none |
| Server.InsertKeepsOrder | src/supabase/functions/server/index.tsx:188-190 | inserting into a newest-first list keeps it newest first |
| Server.SortNewestFirst | src/supabase/functions/server/index.tsx:188-190 | the orders come back newest first, as a permutation of those stored |
| Server.OrdersReply | src/supabase/functions/server/index.tsx:187-190 | the orders reply holds the stored orders, newest first |
| Server.Deleted | src/supabase/functions/server/index.tsx:144-145 | the delete removes exactly the key in the path |
| Server.DeleteMissesPostedProduct | src/supabase/functions/server/index.tsx:110-145 | deleting a posted product by its `id` leaves the record stored under its `product:` key |
| Server.DeletedProduct | src/supabase/functions/server/index.tsx:144-145 | the corrected delete removes the product's store key and nothing else |
| Server.DeleteRemovesPostedProduct | src/supabase/functions/server/index.tsx:110-145 | with the corrected delete, a posted product is gone after deleting it by its `id`, and all other entries remain |
| Server.Kv.GetCategories | src/supabase/functions/server/index.tsx:42-52 | replies with the categories listing |
| Server.Kv.GetProducts | src/supabase/functions/server/index.tsx:87-95 | replies with the products listing |
| Server.Kv.PostCategory | src/supabase/functions/server/index.tsx:55-84 | 401 without admin rights and 500 for an unreadable body, both leaving the store as it was; otherwise stores the category record under `category:<t>` and returns it |
| Server.Kv.PostProduct | src/supabase/functions/server/index.tsx:98-131 | 401 without admin rights and 500 for an unreadable body, store unchanged; otherwise stores the product record under `product:<t>` and returns it |
| Server.Kv.DeleteProduct | src/supabase/functions/server/index.tsx:134-152 | 401 without admin rights, store unchanged; otherwise removes exactly the key in the path and replies success |
| Server.Kv.PostOrder | src/supabase/functions/server/index.tsx:155-174 | needs no sign-in; 500 for an unreadable body, store unchanged; otherwise stores the order record under `order:<t>` |
| Server.Kv.GetOrders | src/supabase/functions/server/index.tsx:177-195 | 401 without admin rights; otherwise the orders, newest first |

## Left out

- Rendering: JSX, styling, dialogs, toasts, scrolling and the hero, header,
  footer and product-card components draw nothing that the model needs.
  This includes the browser's own form validation: the `required` inputs
  (src/components/OrderForm.tsx:90,103,116,152) keep the form from being
  sent with an empty name, email or phone, or for a delivery with no
  address.
- OrderForm.Form.HandleSubmit: it hands on the form data whatever it holds,
  because the `required` check above happens in the browser before the
  handler runs.
- The network: `fetch` results are parameters, namely the parsed response,
  `ok` and whether saving worked. A failed request or an unparsable body is
  `None`.
- Asynchrony: every handler runs to completion at once. Interleaved
  requests, and the state updates React batches, are not modelled.
- Supabase sign-in and tokens: admin rights are a boolean `authorized`.
  The admin sign-up route and `AdminAuth.tsx` are not part of this model.
- Floating point: prices are integer cents, and `toFixed(2)` is exact on
  them. A price posted by the admin is a `real` parsed by a given
  `parseFloat` (`None` is `NaN`). Rounding is not modelled.
- Clocks and locale: `Date.now()` is the natural number `now` or `t`.
  `toISOString()` and today's date are passed in as text.
  `toLocaleDateString("fr-FR")` is a given `DateFormat`.
- jsPDF: `splitTextToSize` is a given `Splitter`. The invoice is modelled
  as the drawing operations, and `doc.save` is left out. The letterhead's
  fixed lines are modelled as drawn, but no lemma speaks of them.
- `window.open`: the method returns the link instead of opening it.
- Storefront.DefaultProducts: each default image is kept as its photo id
  rather than the full Unsplash URL.
- Storefront.App.LoadProducts: the response is given as a list of products
  that may hold nulls, or `None` when the request or `.filter` throws.
- Storefront.App.Dispatch: the invoice and notification steps are taken not
  to throw, so a saved order always ends as `Sent`. In the source
  (src/App.tsx:215-222) an exception there would skip `setCart({})` and show
  the error message instead. One cause is `encodeURIComponent` throwing
  `URIError` on a lone surrogate, which Dafny's `char` cannot represent.
- Storefront.App.HandleSubmitOrder: a cart holding a product missing from
  the catalogue makes the source throw at `item.product.id` (src/App.tsx:194). The model turns
  that into the `NotSent` outcome instead of modelling the exception.
- WhatsApp.TypeLineShown, WhatsApp.AddressLineShown, WhatsApp.DateLineShown,
  WhatsApp.TotalLineShown and WhatsApp.NotesLineShown speak of the pieces
  the message is joined from, not of the lines of the joined text. Text the
  customer types (name, address, notes) can hold a newline and a label of
  its own, so the sent message can show a line that only looks like, say,
  an address line.
- JSON objects are maps, so their key order is not modelled.
- Server.OrderRecord: spreading a body that is not an object adds no
  fields. JavaScript would copy an array's or a string's indices.
- Server.SortNewestFirst: `new Date(x.createdAt).getTime()` is a given
  total function `time`. The sort is proved ordered and a permutation;
  sort stability and `NaN` dates are not modelled.
- Server.Kv: the store is a map. The order in which `getByPrefix` lists
  keys is a parameter (`Listing`). A store failure's 500 is not modelled.
- Server.Kv.DeleteProduct keeps the route as written (see below).
- `onProductsUpdate` belongs to the parent component and is not modelled.
  `onCategoryAdded` is taken to be provided.

## Findings

| source | as written | input that shows it | evidently intended | confidence | as-written member | corrected member |
|---|---|---|---|---|---|---|
| src/supabase/functions/server/index.tsx:110-111,144-145 with src/components/AdminPanel.tsx:376 | a product is stored under `product:<t>`, but its `id` is `prod_<t>`; the panel deletes with `product.id`, and the route deletes the key `prod_<t>` | post a product at instant t, then delete it from the panel: the request hits `/products/prod_t` and `product:t` stays | deleting a product by its id removes its stored record | not executed | Server.DeleteMissesPostedProduct | Server.DeleteRemovesPostedProduct |
