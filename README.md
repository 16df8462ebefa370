# Adorna storefront and admin logic, in Dafny

Adorna is a small clothing shop: an Express/Mongoose backend, a React storefront and a React
admin panel. This project models the parts of it that decide something, and proves what they
promise:

- **The server-side cart** (`cartController.js`). A user's `cartData` is a nested object
  itemId → size → count. `addToCart` raises one count by one and `updateCart` overwrites one
  count. `getUserCart` returns the cart as stored. The users collection is a class whose
  `docs` the handlers update in place. JavaScript objects keep their keys in insertion order,
  so a cart is an ordered object (`JsObject.Obj`): a key sequence plus a map.
- **The storefront cart page and totals** (`cart.jsx`, `CartTotal.jsx`). The nested loops
  flatten the cart into (id, size, quantity) rows. The quantity input and the delete icon call
  `updateQuantity`. The total rule is 0 for an empty cart, otherwise subtotal plus delivery fee.
- **Catalogue selection**:
  - the collection page's category and type toggles, its search, category and type filters,
    and its price sort (an in-place sort on an array);
  - the top-five best-sellers;
  - the top-five related products;
  - the first ten "latest" products.
- **Order history** (`orders.jsx`). Every item of every order is tagged with its order's status,
  payment state, payment method and date. The items are concatenated and the list is reversed
  in place.
- **The admin add-product form** (`Add.jsx`). It has its fields, the size and bestseller
  toggles, and the multipart body it builds entry by entry. A successful submit clears some
  fields. The sizes travel as JSON. `Json` models `JSON.stringify`/`JSON.parse` for arrays of
  strings, and proves the round trip.
- **The product and user controllers**. `addProduct` builds a record from the request, and
  `removeProduct`, `singleProduct` and `listProducts` each wrap one store call. `registerUser`,
  `loginUser` and `adminLogin` are ladders of checks. The stores are classes over sequences of
  documents with unique ids (and unique emails for users). The library calls are function
  values passed in: bcrypt, jsonwebtoken, validator, the image host and `Number`. A database
  exception is a `dbFault` parameter.

## Model

| member | source | states |
|---|---|---|
| CartData.Incremented | Backend/controllers/cartController.js:17-26 | The count at (itemId, size) becomes the old count plus one, a missing item or size counting as 0. An item not yet in the cart gets an inner object holding only that size, appended after the existing items. Every other item, and every other size of the same item, keeps its count and its presence. |
| CartData.WithCount | Backend/controllers/cartController.js:54 | The count at (itemId, size) becomes exactly `quantity`, with no clamping. A quantity of 0 keeps the key. Item order is unchanged and every other (item, size) is untouched. |
| CartData.MergeAdd | Backend/controllers/cartController.js:17-26 | The handler's branches compute exactly `Incremented`. A truthy count goes up by one. A missing or zero count becomes 1. An unknown item first gets an empty size map. |
| CartController.AddToCart | Backend/controllers/cartController.js:10-36 | A database exception fails with its message and writes nothing. An unknown user fails with the null-read TypeError message and writes nothing. Otherwise the reply is "Added To Cart", and only that user's document changes, its cart becoming `Incremented` of the old one. |
| CartController.UpdateCart | Backend/controllers/cartController.js:47-64 | The same failure cases as AddToCart. An item the cart does not hold fails with the TypeError of the assignment and writes nothing. Otherwise the reply is "Cart Updated" and the user's cart becomes `WithCount` of the old one. |
| CartController.GetUserCart | Backend/controllers/cartController.js:75-88 | Succeeds exactly when there is no fault and the user exists, and then returns that user's stored cart unchanged. An unknown user gives the null-read message. |
| CartController.HandlerAsWritten | Backend/controllers/cartController.js:14 | As the file is written, `userModel` is not in scope: every handler replies with the ReferenceError and leaves the documents unchanged. |
| CartController.MissingImportLosesAdd | Backend/controllers/cartController.js:14-28 | For a user who exists, the as-written handler's documents differ from the intended ones, whose count is one higher. |
| UserStore.WithCart | Backend/controllers/cartController.js:28 | `findByIdAndUpdate(id, {cartData})`: the same number of documents, and the matching document takes the new cart while every other document is unchanged. |
| UserStore.UserCollection.UpdateCart | Backend/controllers/cartController.js:28 | The documents become `WithCart` of the old ones, and ids and emails stay unique. |
| UserStore.UserCollection.Insert | Backend/models/userModel.js:30 | A document whose id or email is already taken is refused with the duplicate-key error and nothing is stored. Otherwise it is appended, and uniqueness is kept. |
| UserStore.UserCollection.FindOne | Backend/controllers/userController.js:29 | Finds a document exactly when one has that email, and returns a stored document with that email. |
| CartPage.Flattened | frontend/src/pages/cart.jsx:49-61 | Every row is an (item, size) entry of the cart, carries that entry's count, and has a positive quantity. Rows follow item order, then size order within an item. |
| CartPage.FlattenedExactly | frontend/src/pages/cart.jsx:51-59 | A row (id, size, q) is listed if and only if the cart has that entry with count q > 0. No (item, size) pair is listed twice. |
| CartPage.CollectRows | frontend/src/pages/cart.jsx:49-61 | The nested loops build exactly `Flattened` of the cart. |
| CartPage.PushSizeRows | frontend/src/pages/cart.jsx:52-58 | The inner loop appends exactly the positive-count rows of one item, in the item's size order. |
| CartPage.CartView.Refresh | frontend/src/pages/cart.jsx:47-64 | With products loaded, the list becomes `Flattened(cartItems)`. With no products, the list is left as it was. |
| CartPage.OnQuantityInput | frontend/src/pages/cart.jsx:98 | No call exactly for the strings "" and "0". Any other value calls `updateQuantity(id, size, Number(value))`. |
| CartPage.OnDeleteClick | frontend/src/pages/cart.jsx:101 | The icon calls `updateQuantity(id, size, 0)` for its row. |
| CartPage.QuantityInputSendsNumber | frontend/src/pages/__tests__/cart.test.js:63-66 | Typing "3" into the row ("1", "S") sends `updateQuantity("1", "S", 3)`. |
| CartPage.DeleteHidesRow | frontend/src/pages/cart.jsx:101 | After the delete's quantity 0 is stored with `WithCount`, the recomputed list no longer holds that (item, size). Every other row stays, and no row is added. |
| CartTotal.CartTotals | frontend/src/componets/CartTotal.jsx:33-47 | The subtotal is the amount and the shipping line is always the fee. The total is 0 when the amount is 0, and amount + fee otherwise. |
| CartTotal.TotalCoversSubtotal | frontend/src/componets/CartTotal.jsx:47 | For a non-negative fee and amount, the total is at least the subtotal, and it is zero exactly when the amount is. |
| Seqs.Toggled | frontend/src/pages/collection.jsx:20-35 | The value's membership flips, every other value keeps its membership, and a list without duplicates stays without duplicates. |
| Seqs.ToggledTwice | admin/src/pages/Add.jsx:162 | Adding an absent value and clicking it again restores the exact list. |
| CollectionPage.Includes | frontend/src/pages/collection.jsx:42 | `includes` holds exactly when the needle occurs at some position of the text. |
| CollectionPage.Lower | frontend/src/pages/collection.jsx:42 | Same length, each character lower-cased. |
| CollectionPage.Filtered | frontend/src/pages/collection.jsx:38-53 | The result is an order-preserving subsequence of the products. A product is in it exactly when it is a product that passes every active filter. The search is active only with the bar shown and non-empty text, and is a case-insensitive substring test on the name. An empty category or type selection restricts nothing. |
| CollectionPage.FilteredIsOnePass | frontend/src/pages/collection.jsx:41-51 | The three passes equal one filter by the conjunction of the active tests, element for element. |
| CollectionPage.SortByPrice | frontend/src/pages/collection.jsx:62-66 | The array ends sorted by the comparator's key and is a permutation of its old contents. |
| CollectionPage.SortedByKeyMeansPriceOrder | frontend/src/pages/collection.jsx:62-66 | Sorted by key means non-decreasing price for "low-high" and non-increasing price for "high-low". |
| CollectionPage.Page.constructor | frontend/src/pages/collection.jsx:14-17 | No selections, sort "relavent", an empty list. |
| CollectionPage.Page.ApplyFilter | frontend/src/pages/collection.jsx:38-54 | The shown list becomes `Filtered` of the catalogue under the current selections and search. The selections and sort choice are unchanged. |
| CollectionPage.Page.ToggleCategory | frontend/src/pages/collection.jsx:20-26 | The category selection becomes `Toggled`. The effect then shows the filtered catalogue in catalogue order, without re-sorting. |
| CollectionPage.Page.ToggleSubCategory | frontend/src/pages/collection.jsx:29-35 | The same as ToggleCategory, for the type selection. |
| CollectionPage.Page.SortProduct | frontend/src/pages/collection.jsx:57-73 | "low-high" and "high-low" give a permutation of the shown list, ordered by price up or down. Any other sort type re-runs the filter. |
| CollectionPage.Page.SelectSort | frontend/src/pages/collection.jsx:80-83 | Choosing a sort stores it and then has the effect of SortProduct. |
| BestSeller.BestSellers | frontend/src/componets/BestSeller.jsx:26-30 | The first min(5, #best-sellers) best-sellers, in catalogue order, each with `bestseller` set. |
| RelatedProducts.Related | frontend/src/componets/RelatedProducts.jsx:23-37 | An empty catalogue keeps the previous list. Otherwise at most five products, each matching both category and type, as a subsequence of the catalogue. The viewed product is not excluded. |
| RelatedProducts.RelatedIsFirstMatches | frontend/src/componets/RelatedProducts.jsx:29-34 | The list is the first min(5, n) of all n products matching both fields. |
| LatestCollection.Latest | frontend/src/componets/LatestCollection.jsx:23-26 | A prefix of the catalogue of length min(10, n). All products are shown when there are ten or fewer. |
| OrdersPage.Tagged | frontend/src/pages/orders.jsx:32-35 | The item gets its order's status, payment, payment method and date, and its other fields keep their values. |
| OrdersPage.TagAllExactly | frontend/src/pages/orders.jsx:31-37 | One tagged entry per item of the order, in item order. |
| OrdersPage.FlattenLength | frontend/src/pages/orders.jsx:30-38 | The flattened list's length is the sum of the orders' item counts. |
| OrdersPage.FlattenMembers | frontend/src/pages/orders.jsx:30-38 | An entry is in the flattened list if and only if it is some item of some order tagged with that order. |
| OrdersPage.ReverseInPlace | frontend/src/pages/orders.jsx:40 | The array ends as the exact reverse of its old contents. |
| OrdersPage.OrdersView.LoadOrderData | frontend/src/pages/orders.jsx:17-47 | No token, a request that throws, or `success: false` leaves the list unchanged. Otherwise the list becomes the reverse of the flattened, tagged items. |
| OrdersPage.LatestFirst | frontend/src/pages/orders.jsx:40 | The first entry shown is the last item of the last order, tagged with that order. |
| AddForm.Form.constructor | admin/src/pages/Add.jsx:20-32 | No images, empty name, description and price, "Men" / "Topwear", no sizes, not a bestseller. |
| AddForm.Form.ClickSize | admin/src/pages/Add.jsx:161-162 | The sizes become `Toggled` of the old ones, and no other field changes. |
| AddForm.ClickKeepsOfferedSizes | admin/src/pages/Add.jsx:161-162 | Clicking offered sizes keeps the selection duplicate-free and within S, M, L, XL, XXL. |
| AddForm.Form.ToggleBestseller | admin/src/pages/Add.jsx:171 | The flag flips and no other field changes. |
| AddForm.TextFields | admin/src/pages/Add.jsx:48-54 | The seven text entries read back as the field values, with the flag as "true"/"false" and the sizes as `JSON.stringify`. No file entries. |
| AddForm.AppendImage | admin/src/pages/Add.jsx:57-60 | A chosen image is appended under its own name and an empty slot appends nothing. Other entries read the same. |
| AddForm.Form.BuildFormData | admin/src/pages/Add.jsx:45-60 | The body carries every field under its own name and exactly the chosen images, with one entry per text field and per chosen image. |
| AddForm.Form.OnSubmit | admin/src/pages/Add.jsx:40-84 | It sends the body of the fields as they were. Success clears name, description, price and all four images, and keeps category, type, sizes and flag. An error reply or an exception changes no field. |
| Json.Stringify | admin/src/pages/Add.jsx:54 | The text is a bracketed array. |
| Json.ParseStringify | Backend/controllers/productController.js:40 | `JSON.parse(JSON.stringify(xs))` gives `xs` back for every array of strings, escapes included. |
| ProductController.Present | Backend/controllers/productController.js:22 | The k-th result is the value of the k-th filled slot, and there are as many results as filled slots. |
| ProductController.Images | Backend/controllers/productController.js:17-22 | At most four files, and a file is included exactly when it fills one of the four slots. |
| ProductController.UploadAll | Backend/controllers/productController.js:25-30 | On success, one URL per image at the same position. The call fails exactly when some upload fails, and with that upload's message. |
| ProductController.NewProduct | Backend/controllers/productController.js:33-43 | Fails exactly when `sizes` does not parse, and then with the parse error. Otherwise the text fields are copied and the price goes through `Number`. `bestseller` is true exactly for the text "true", the sizes are the parsed array, and the images are the URLs in order. |
| ProductController.AddProduct | Backend/controllers/productController.js:12-57 | Failures are checked in order, each replying with its own message: an upload failure, then a parse failure, then a save that throws, then a taken id (the duplicate-key error). Success happens exactly when none occurs, and it appends the built product. Any failure saves nothing. |
| ProductController.RemoveProduct | Backend/controllers/productController.js:86-95 | Without a fault the reply is "Product Removed", whether or not the id existed. The product with that id is gone and the rest keep their order. |
| ProductController.SingleProduct | Backend/controllers/productController.js:105-115 | Without a fault the reply succeeds with whatever the lookup gave, including none. |
| ProductController.ListProducts | Backend/controllers/productController.js:67-76 | Without a fault the reply succeeds with every stored product. |
| ProductController.FormBuildsProduct | Backend/controllers/productController.js:33-43 | The body the admin form sends yields a product whose name, description, category, type, price, bestseller flag and sizes are the form's. |
| ProductStore.WithoutId | Backend/controllers/productController.js:88 | Exactly the documents with another id, in their original order. |
| ProductStore.ProductCollection.FindByIdAndDelete | Backend/controllers/productController.js:88 | The documents become `WithoutId` of the old ones, unchanged when the id is unknown. The deleted document, if any, is returned. |
| ProductStore.ProductCollection.Insert | Backend/controllers/productController.js:48-49 | A taken id is refused with the duplicate-key error. Otherwise the product is appended. Ids stay unique. |
| UserController.Sign | Backend/controllers/userController.js:12-14 | Fails with "secretOrPrivateKey must have a value" exactly when `JWT_SECRET` is unset or empty. Otherwise it is the signature of the claim with the secret. |
| UserController.LoginUser | Backend/controllers/userController.js:24-49 | The checks run in order: an unknown email gives "User doesn't exist", then a failed hash comparison gives "Invalid credentials", else the token for the user's id. Success implies a stored user with that email whose hash matches. |
| UserController.AdminLogin | Backend/controllers/userController.js:106-122 | The request fields may be missing, and so may the environment values. Login succeeds exactly when each field equals its configured value under `===`, missing equalling unset, and a secret is set. It then signs `email + password`. A mismatch gives "Invalid credentials". A match without a usable secret gives the signing error. |
| UserController.Concatenated | Backend/controllers/userController.js:112 | `email + password` joins the two texts, a missing field reading as "undefined". Two missing fields give `NaN`. |
| UserController.UnsetAdminAcceptsEmptyRequest | Backend/controllers/userController.js:111-112 | When neither admin variable is set, a request without email and password is accepted and gets the token signed over `NaN`. |
| UserController.NewUser | Backend/controllers/userController.js:78-85 | The stored document holds the hash of the password, never the password itself, and an empty cart. |
| UserController.RegisterUser | Backend/controllers/userController.js:59-96 | The checks run in order: a taken email, then an invalid email, then a missing password, then a password under 8 characters (8 passes). A missing password fails with the TypeError of reading `length` of undefined. Each check fails with its own message and saves nothing. If the new id is already taken, the save is refused with the duplicate-key error and nothing is stored. Otherwise the `NewUser` document is appended and the reply is the token for its id, or the signing error. |
| UserController.LoginAfterRegister | Backend/controllers/userController.js:31-43 | After registering, logging in with the same email and password returns the token for the new id, provided bcrypt accepts a password against its own hash. |

## Left out

- The database, the image host (Cloudinary), multer, express routing and the authentication middleware are not modelled. The store is a sequence of documents in a class, and uploads and `Number` are function parameters.
- bcrypt, jsonwebtoken and `validator.isEmail` are function values passed in. Their own behaviour is not modelled; `LoginAfterRegister` states as a hypothesis the one bcrypt property it needs.
- Database failures: every exception a Mongoose call can raise is one `dbFault: Option<string>` parameter per handler. Mongoose's own validation errors (required fields, casting a malformed id) are not modelled. Neither are the ids Mongo assigns: a fresh id is a parameter.
- Asynchrony: each handler is one sequential step. `Promise.all` rejects with whichever upload fails first in time; the model picks the first in list order.
- UserController.RegisterUser: a database exception is modelled only before the first check. A failing `save` is modelled only as the duplicate-key refusal for a taken id.
- UserController.AdminLogin: what `jsonwebtoken` produces for a `NaN` payload is left to the `sign` parameter.
- JavaScript object keys: the cart keeps insertion order for every key. JavaScript lists integer-like keys first in numeric order; the model ignores that.
- Numbers: prices, counts and quantities are unbounded integers. Floating point, `NaN` and `Number` parsing are not modelled (`Number` is a parameter), and neither is the `.00` price formatting.
- `truthiness` in `addToCart`: a stored count of 0 is falsy and is reset to 1, which the model covers. A non-numeric count is not modelled.
- CollectionPage.Lower: only ASCII letters are lower-cased; JavaScript's full Unicode `toLowerCase` is not modelled.
- CollectionPage.SortByPrice: stability is not proved. The insertion sort keeps equal prices in their order, as the engine's stable sort does.
- UserController.RegisterUser: `password.length` counts UTF-16 code units in JavaScript and code points here, so they differ only above U+FFFF.
- Json.Parse accepts arrays of strings only, with the standard escapes and whitespace. Other JSON values (numbers, objects, a bare string) that `JSON.parse` would accept are refused, as are `\u` escapes naming surrogate code points. The syntax error message is one fixed text.
- The React side: rendering, routing, toasts, the shop context's `getCartAmount`/`getCartCount`/`updateQuantity` bodies (`ShopContest.jsx` is not part of this model), and the admin order list.
- The order controller is not part of this model; the order list arrives as a parameter.
- In `orders.jsx` each item object is mutated in place inside the response. The model builds tagged copies, so aliasing with the response is not captured.

## Findings

| source | as written | input that shows it | evidently intended | confidence | as-written member | corrected member |
|---|---|---|---|---|---|---|
| Backend/controllers/cartController.js:14 | The file never imports `userModel`, so `userModel.findById` throws a ReferenceError. Every cart handler answers `success: false` and nothing is saved. | `addToCart` with any existing `userId`, `itemId`, `size` | Import the model and merge the cart as the code goes on to do | high; not executed | CartController.HandlerAsWritten (shown by CartController.MissingImportLosesAdd) | CartController.AddToCart |
