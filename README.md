# Storefront cart engine and catalog service, in Dafny

This project models the two pieces of sequential logic in the AJMAL-TAROO/Ecommerce storefront.
Both are proved in Dafny 4.11.

- **`EcommerceApp`** (js/app.js) is the shopper's side. It holds:
  - the catalog, the selected category and the cart;
  - the browser storage slot that keeps the cart;
  - the operations that add, remove and re-quantify cart lines, check out and filter the catalog;
  - the rule that turns a rating into a row of stars.
- **`FirebaseService`** (js/firebase-service.js) is the admin and back-end side. It works over an in-memory copy of the realtime database. It covers:
  - the category list, with its default value and its add, delete and rename operations;
  - listing the product and order nodes, with orders sorted newest first;
  - the order record `saveOrder` writes;
  - the admin credential check;
  - the guard on which product images get deleted.

Modules:

- `Common` (common.dfy) holds the shared pieces:
  - an option type;
  - a listed entry `{ id: key, ...record }`;
  - order-preserving subsequences;
  - JavaScript's `String.prototype.includes`.
- `CartModel` (cart.dfy) is the cart rules as functions over a `seq<CartLine>`. It holds the cart invariant `WellFormed` (every quantity at least 1, one line per product id), the lookups, the two reductions and the lemmas about them.
- `App` (app.js model, app.dfy):
  - The class `EcommerceApp` has fields `products`, `categories`, `currentCategory`, `cart` and `storedCart`. The last one is the storage slot `'cart'`.
  - The contracts of `AddToCart`, `RemoveFromCart` and `UpdateQuantity` tie the new cart to a `CartModel` function. Those three and `Checkout` keep `WellFormed`. `Checkout` reports `ItemCount` and `CartTotal`, and the other methods state their new fields directly.
  - The star rule is a looping method, `RenderStars`, proved against the function `Stars`.
- `Categories` (categories.dfy) holds the category-list functions and their properties.
- `Orders` (orders.dfy) holds the order record and the newest-first sort.
- `Service` (service.dfy):
  - The class `FirebaseService` has one field per database node: `products`, `categories`, `categoryMetadata`, `orders` and `admin`.
  - A key-to-record node is a `map`. A missing node is the empty map, or `None` for the category list and the admin record.

Modelling conventions:

- Prices are integer cents (`nat`). Products in the app are keyed by integer ids, as in the catalog file. Database records are keyed by string keys.
- What the outside world delivers comes in as a parameter:
  - the catalog fetch (`Option<Catalog>`, `None` when it fails);
  - the shopper's answer to the checkout dialog (`confirmed`);
  - whether a database read failed (`readFailed`);
  - the result of a payment-proof upload (`UploadOutcome`);
  - the fresh push key and the server clock.
- `Object.keys` lists an object's keys in a fixed order, but the order in which the database SDK's `snapshot.val()` builds that object is the SDK's own. So `Service.ListEntries` picks keys nondeterministically, and its contract holds whatever the order is.

## Model

| member | source | states |
|---|---|---|
| CartModel.IndexOfProduct | js/app.js:186 | `find` by id: returns the index of the first product with that id, or none exactly when no product has it |
| CartModel.IndexOfLine | js/app.js:189 | `find` on the cart: returns the first line of the product, or none exactly when the cart has no line for it |
| CartModel.LineTotal | js/app.js:277 | definition: a line's unit price (the snapshot taken when the line was made) times its quantity; summed by `CartTotal` |
| CartModel.ItemCount | js/app.js:229 | the sum of quantities; with every quantity at least 1 it is at least the number of lines |
| CartModel.CartTotal | js/app.js:285 | the sum of price × quantity; never negative while no quantity is negative |
| CartModel.ItemCountAppend | js/app.js:229 | the item count of two carts joined is the sum of their counts |
| CartModel.CartTotalAppend | js/app.js:285 | the total of two carts joined is the sum of their totals |
| CartModel.SumsUpdate | js/app.js:192 | changing one line in place changes the count, the total and that product's line count by exactly the difference between the old and new line |
| CartModel.Removed | js/app.js:205 | the filter keeps exactly the lines of other products, each as often as before, in their original relative order |
| CartModel.RemovedSums | js/app.js:205 | removal takes exactly the product's summed quantity off the item count and leaves no line of it |
| CartModel.RemovedTotal | js/app.js:205 | removal takes exactly the price × quantity of the product's lines off the cart total |
| CartModel.RemovedLength | js/app.js:205 | removal shortens the cart by the number of the product's lines |
| CartModel.RemovedAbsent | js/app.js:205 | removing a product that has no line returns the cart unchanged |
| CartModel.RemovedWellFormed | js/app.js:205 | removal keeps a well-formed cart well formed |
| CartModel.RemovedEffect | js/app.js:205 | no line of the id remains and a second removal is a no-op; in a well-formed cart one line goes and the count and the total drop by its quantity and its line total; with no line the cart is unchanged |
| CartModel.RemovedIgnoresLine | js/app.js:215-218 | removing a product gives the same cart whatever its line's quantity was just set to |
| CartModel.QuantityOfUnique | js/app.js:189-192 | in a well-formed cart the product's one line carries all of its quantity and all of its line total |
| CartModel.AddLine | js/app.js:189-198 | definition: the cart after one unit of an in-stock product is added, an existing line gaining one unit in place, otherwise a new line of quantity 1 appended; its properties are the `AddLine…` lemmas below |
| CartModel.AddLineWellFormed | js/app.js:189-198 | adding a unit to a well-formed cart keeps it well formed and leaves exactly one line for the product |
| CartModel.AddLineCount | js/app.js:189-198 | adding a unit raises the item count by exactly one |
| CartModel.AddLineTotal | js/app.js:189-198 | adding a unit raises the total by the price stored in the receiving line: the snapshot price for an existing line, the product's price for a new one |
| CartModel.AddLineOthers | js/app.js:191-198 | adding a unit leaves every other product's line where and as it was |
| CartModel.Updated | js/app.js:211-223 | definition: the cart after `updateQuantity`: unchanged without a line, the product removed when its quantity falls to 0 or below, the line's quantity changed in place otherwise; its properties are the three `Updated…` lemmas below |
| CartModel.UpdatedCases | js/app.js:211-223 | exactly one of three outcomes: (1) no line, cart unchanged; (2) new quantity ≤ 0, line gone; (3) the line holds old + change ≥ 1 at the same index, other lines unchanged |
| CartModel.UpdatedWellFormed | js/app.js:211-223 | a quantity change keeps a well-formed cart well formed |
| CartModel.WellFormedUpdate | js/app.js:215 | giving a line a new positive quantity keeps the cart well formed |
| CartModel.UpdatedCount | js/app.js:211-223 | with no line the cart is unchanged; when the line stays, the item count moves by exactly `change` |
| CartModel.EmptyIffNoItems | js/app.js:289-296 | for a well-formed cart, empty exactly when the item count is 0, and the total is 0 when empty |
| CartModel.InCategory | js/app.js:63 | the category filter keeps exactly the products of that category, with their multiplicities, in catalog order |
| App.EcommerceApp.constructor | js/app.js:3-6 | starts with no products, category `'All'` and the cart loaded from storage |
| App.EcommerceApp.LoadCart | js/app.js:31-34 | the stored cart, or an empty cart when nothing is stored |
| App.EcommerceApp.SaveCart | js/app.js:36-39 | storage then holds the current cart, and loading it gives that cart back |
| App.EcommerceApp.LoadProducts | js/app.js:19-29 | a successful fetch installs its products and categories; a failed one leaves the catalog as it was |
| App.EcommerceApp.FilterByCategory | js/app.js:53-57 | the chosen category becomes current |
| App.EcommerceApp.FilteredProducts | js/app.js:59-64 | for `'All'`, every product; otherwise exactly the products of the current category, in catalog order |
| App.EcommerceApp.AddToCart | js/app.js:185-202 | an unknown or out-of-stock id changes neither the cart nor storage; otherwise the cart becomes `AddLine` of the product and is stored; well formedness is preserved |
| App.EcommerceApp.RemoveFromCart | js/app.js:204-209 | the cart becomes the filtered cart and is stored; well formedness is preserved |
| App.EcommerceApp.UpdateQuantity | js/app.js:211-223 | the cart becomes `Updated(old cart, id, change)`; stored only when the product had a line; well formedness is preserved |
| App.EcommerceApp.Checkout | js/app.js:289-304 | an empty cart changes nothing; otherwise it reports the item count and total; on confirmation the cart is empty and stored empty with count and total 0; on refusal nothing changes; well formedness is preserved |
| App.Ceil | js/app.js:127 | `Math.ceil`: the least integer not below the argument |
| App.ModOne | js/app.js:118 | JavaScript's `rating % 1`: the argument minus an integer, in [0, 1) for non-negative arguments and in (-1, 0] for negative ones |
| App.HasHalfStar | js/app.js:118 | definition: the fraction of the rating is at least one half |
| App.Stars | js/app.js:116-133 | definition: `floor(rating)` orange stars, one more when `HasHalfStar`, then `5 - ceil(rating)` grey; characterised by `WholeRatingStars` and `StarsAsWritten` |
| App.Repeat | js/app.js:121-123 | a counting loop's output: `max(n, 0)` copies of one star |
| App.RenderStars | js/app.js:116-133 | the two loops and the half-star test draw exactly the row `Stars(rating)` |
| App.WholeRatingStars | js/app.js:117-130 | a whole rating r in 0..5 draws five stars, of which the first r are orange |
| App.StarsAsWritten | js/app.js:116-133 | for ratings in 0..5 the row has five stars, except four when the fraction is strictly between 0 and one half |
| App.FourPointTwoDrawsFourStars | js/app.js:117-130 | rating 4.2 draws four orange stars and no grey one |
| App.PaddedStars | js/app.js:116-133 | definition of the corrected row: the orange stars as drawn, then grey ones up to five; characterised by `PaddedStarsHasFive` |
| App.PaddedStarsHasFive | js/app.js:116-133 | the corrected row always has five stars and equals the drawn row wherever that one is not short |
| Common.Includes | js/firebase-service.js:130 | `includes` holds exactly when the substring occurs at some position |
| Categories.CategoriesOrDefault | js/firebase-service.js:181-190 | the stored list, or the constant `DefaultCategories` = `['All','Electronics','Accessories','Sports','Home']` when none is stored or the read fails |
| Categories.IndexOf | js/firebase-service.js:284 | `indexOf`: the first position of the name, or none exactly when it is absent |
| Categories.WithoutCategory | js/firebase-service.js:263 | keeps exactly the categories other than the name and `'All'`, each as often as before, in order |
| Categories.AddedCategory | js/firebase-service.js:242-245 | definition: the read list, with the name pushed at the end when it is absent; characterised by `AddedCategoryEffect` |
| Categories.AddedCategoryEffect | js/firebase-service.js:242-245 | the name ends up listed; pushed at the end only if absent; no duplicate is introduced; adding twice equals adding once |
| Categories.DeletedCategory | js/firebase-service.js:263-268 | definition: the filtered list, with `'All'` put in front when missing; characterised by `DeletedCategoryEffect` |
| Categories.DeletedCategoryEffect | js/firebase-service.js:263-268 | `'All'` is at index 0 and nowhere else; the name is gone unless it is `'All'`; the rest are the other categories, each as often as before, in original order |
| Categories.DeletedCategoryNoDuplicates | js/firebase-service.js:263-268 | deleting keeps a duplicate-free list duplicate free |
| Categories.WithoutCategoryNoDuplicates | js/firebase-service.js:263 | the filter keeps a duplicate-free list duplicate free |
| Categories.RenamedCategory | js/firebase-service.js:284-289 | definition: the first occurrence of the old name, found by `IndexOf`, replaced by the new name; characterised by `RenamedCategoryEffect` |
| Categories.RenamedCategoryEffect | js/firebase-service.js:284-289 | the length is kept; only the first occurrence of the old name is replaced, at its index; without the old name the list is unchanged |
| Orders.BuildOrder | js/firebase-service.js:321-341 | status pending, the fresh key as id, the given creation time, the customer fields, items and total copied; the screenshot is empty exactly when no proof was given or the upload failed, and is the uploaded URL otherwise |
| Orders.CreatedAtOrZero | js/firebase-service.js:368 | definition: `createdAt || 0`, an order's sort key |
| Orders.InsertNewest | js/firebase-service.js:368 | inserting keeps all orders and adds the new one |
| Orders.InsertNewestBound | js/firebase-service.js:368 | inserting an order no newer than a bound keeps every order within that bound |
| Orders.InsertNewestSorted | js/firebase-service.js:368 | inserting into a newest-first list keeps it newest first |
| Orders.SortNewest | js/firebase-service.js:363-368 | the sorted list is a permutation of the input, ordered by creation time descending, a missing time counting as 0 |
| Service.ListEntries | js/firebase-service.js:45-48 | one entry per key, each carrying its key as id and that key's record; empty for an empty node |
| Service.Retagged | js/firebase-service.js:300-301 | definition: one product after re-tagging, its category replaced when it was the old name; characterised by `RetagAll` |
| Service.RetagAll | js/firebase-service.js:298-303 | the same keys; every product of the old category now has the new one; all other products are untouched |
| Service.ImageToDelete | js/firebase-service.js:127-131 | an image is deleted exactly when the product exists and its address contains `firebase`, and it is that product's image |
| Service.AdminAccepts | js/firebase-service.js:428-444 | a failed read refuses; with no record only `admin`/`admin123` passes; with a record, exactly its username and password pass |
| Service.DefaultAdminKeepsAnswer | js/firebase-service.js:433-454 | once the default record (the constant `DefaultAdmin`: `admin`/`admin123`/`admin@beverlyshop.com`) is stored, it accepts exactly what the missing record accepted |
| Service.FirebaseService.constructor | js/firebase-service.js:3-9 | a service over a database holding the given nodes |
| Service.FirebaseService.GetProducts | js/firebase-service.js:35-48 | lists each product once under its key, and nothing for an empty node |
| Service.FirebaseService.GetCategories | js/firebase-service.js:181-190 | returns the stored list or the default list |
| Service.FirebaseService.AddCategory | js/firebase-service.js:239-257 | writes the list with the name pushed only when the name is absent from the read list; saves non-empty metadata under the name; returns the name |
| Service.FirebaseService.DeleteCategory | js/firebase-service.js:260-278 | writes and returns the filtered list with a leading `'All'`, and drops the name's metadata |
| Service.FirebaseService.UpdateCategory | js/firebase-service.js:281-310 | writes the renamed list only when the old name was present; moves the metadata to the new name; re-tags the old category's products; returns the new name |
| Service.FirebaseService.RetagProducts | js/firebase-service.js:298-303 | the loop over the listed products leaves the product node equal to `RetagAll` of the old node |
| Service.FirebaseService.DeleteProduct | js/firebase-service.js:124-142 | asks storage to delete the image exactly as `ImageToDelete` says, removes the record and nothing else, and returns true |
| Service.FirebaseService.SaveOrder | js/firebase-service.js:315-350 | stores `BuildOrder` under the fresh key, adding that key and changing no other order, and returns it with the key as id |
| Service.FirebaseService.GetOrders | js/firebase-service.js:353-373 | every order exactly once under its key, newest first, and empty for an empty node |
| Service.FirebaseService.VerifyAdmin | js/firebase-service.js:428-444 | answers `AdminAccepts` on the record it read; writes the default record when none existed and the read succeeded |

## Left out

- All DOM work. This covers rendering categories, products, the cart drawer and the product modal, notifications, event listeners and the cart-count badge. The reductions behind the badge and the drawer are modelled as `ItemCount` and `CartTotal`. `RenderStars` models the star markup as a sequence of `Star` values.
- `toFixed(2)` formatting and floating-point price arithmetic. Prices are exact integer cents, which the JavaScript numbers only approximate.
- The catalog `fetch` and JSON decoding in `loadProducts`. `loadProducts` gets the fetch result as a parameter.
- The JSON round trip of the stored cart. The storage slot holds the cart value itself. A corrupt stored blob makes `JSON.parse` throw in the source, and that path is not modelled.
- The backend SDK: initialisation, `ref`/`once`/`set`/`update`/`remove`/`push`, push-key generation and `ServerValue.TIMESTAMP`. Keys and times come in as parameters, and every database write is assumed to succeed.
- Storage uploads and deletes, including the 30-second upload timeout race in `uploadPaymentScreenshot`:
  - An upload is only its `UploadOutcome`.
  - `DeleteProduct` returns the image address it would ask storage to delete.
  - The storage delete and its ignored errors are not modelled.
- `getProduct`, `addProduct` and `updateProduct` as standalone operations. The re-tagging loop of `updateCategory` is modelled as the product write.
- Also not modelled as operations: `updateCategories`, `getCategoryMetadata`, `updateOrderStatus`, `updateAdmin`, `createDefaultAdmin` and the two migrations. `getCategoryMetadata` is a thin read wrapper that falls back to `{}`, and the others are thin write wrappers. The default-admin write is modelled inside `VerifyAdmin`.
- `createdAt` and `updatedAt` on product, metadata and admin records.
- The extra `id` field that the re-tagging writes into each product record, because it spreads the listed product.
- Stored records that carry their own `id` field. In the source that field would override the key in a listed entry.
- A failing read inside `deleteProduct`, `getProducts` or `getOrders`, and a failing push or write inside `saveOrder`. These throw in the source. Of the modelled operations, only `getCategories` and `verifyAdmin` catch their read failures, and those are modelled.
- `VerifyAdmin`: it does not model a failure of the default-admin write. The source logs such a failure and still answers as if the record had been written.
- RenderStars: the rating is an exact `real`, not a JavaScript number read from `product.rating`. A missing rating (NaN) drawing no star, and an infinite one never leaving the first loop, are not modelled.
- EcommerceApp.constructor: the model starts `categories` as the empty list, but the source leaves `this.categories` undefined until a catalog fetch succeeds.
- SortNewest: the JavaScript sort is stable, but the model only proves the order by creation time and the permutation. The relative order of orders with equal times is not stated.

Facts about the source that the model follows:

- The cart has no promotion pricing; the line total is price × quantity.
- Checkout has no timeout and no guard against a second submission; it is a synchronous confirm-and-clear.
- Loading the cart has no recovery from a corrupt stored value.
- A failed catalog fetch installs no fallback products; the catalog stays as it was.

## Findings

| source | as written | input that shows it | evidently intended | confidence | as-written member | corrected member |
|---|---|---|---|---|---|---|
| js/app.js:117-130 | draws `floor(rating)` orange stars, one more when the fraction is at least 0.5, then `5 - ceil(rating)` grey | rating 4.2 gives 4 orange and 0 grey stars, so 4 stars in total; any fraction strictly between 0 and 0.5 loses a star | a row of five stars, with the grey ones filling whatever the orange ones leave | not executed | App.FourPointTwoDrawsFourStars | App.PaddedStarsHasFive |
