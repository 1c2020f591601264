# Storefront rules, modelled in Dafny

This project models the rules of a small e-commerce storefront: an Express/Mongoose
backend and a React/Redux client. The backend parts modelled are:

- order placement, with its item-by-item stock check and decrement;
- the product catalogue: paging, the truthiness-based update merge, and
  one review per user with the rating recomputed as the mean;
- the product and order document schemas.

The client parts modelled are:

- the three-step checkout wizard, the cart and the product page;
- sorting, filtering and the URL query parameters of the product list;
- category de-duplication on the home page;
- the register and profile forms, including the browser's own
  `required` and `type="email"` check that runs before their submit
  handlers, and the order status colours;
- the three Redux reducers.

The model is functional.

- The database is a `map<string, Product>` (`ProductSchema.Store`) or a `map<string, Order>`.
- Handler replies are `Response<T>`: `Success(code, value)` or `Failure(code, message)`.
- Every handler and reducer is a pure function of its inputs.
- Money is integer cents. Ratings are `real`, so the mean of review ratings is exact.
- JavaScript's `||` on strings and numbers is written out: `Wrappers.OrElse`,
  `ProductController.TruthyString` and `ProductController.TruthyNumber`.
- Mongoose save-time validation is modelled where a save can break it. The
  handler checks the document against the schema predicate and answers 500
  when the document fails. This applies to the update merge, a new review,
  a new product, a new order and an order status change.

Some behaviours are modelled as the code has them:

- The stock loop of `createOrder` is not all-or-nothing.
  `OrderController.CreateOrder` models it as written.
  `OrderController.CreateOrderAtomic` is an all-or-nothing reference.
  `OrderController.AtomicAgreesWithCreateOrder` proves the two give the
  same replies and differ only in the stock a refused order leaves behind.
- The checkout wizard never reaches its third step, "Confirmar Orden".
  The Next button is hidden on the payment step, so that step is left
  only by Back or by a successful order (`Checkout.RunStaysReachable`).
- The register and profile forms dispatch their thunks and then navigate
  or close the editor whatever the outcome. A dispatched Redux Toolkit
  thunk resolves instead of throwing, so their `catch` branches never run.

## Model

| member | source | states |
|---|---|---|
| ProductSchema.MeanRatingInRange | backend/src/models/Product.ts:80-86 | The mean of review ratings that each lie in [0, 5] also lies in [0, 5], so a recomputed product rating satisfies the schema. |
| ProductSchema.NewProduct | backend/src/models/Product.ts:48-92 | A new product takes the schema defaults (stock 0, rating 0, no reviews). The document is built exactly when name, price, description and category are supplied. |
| OrderSchema.NewOrder | backend/src/models/Order.js:78-82 | A new order gets the default status "processing", which is one of the five statuses. Its items, total and user are as given. |
| OrderController.Refusal | backend/src/controllers/orderController.js:15-25 | A failing line item gets 404 when its product is missing and 400 when its product is out of stock. |
| OrderController.Reserve | backend/src/controllers/orderController.js:14-28 | The stock loop keeps the set of product ids. When it stops early, the reply is a failure with code 400 or 404. |
| OrderController.ReserveCharacterised | backend/src/controllers/orderController.js:14-28 | The loop runs to the end iff every item passes its check against the stock left by the items before it. It then takes each product's summed demand. Otherwise it stops at the FIRST failing item with that item's refusal, and the earlier items' debits stay in place. |
| OrderController.ReservePreservesSchema | backend/src/controllers/orderController.js:21-27 | Stock never goes negative: a schema-valid collection stays valid through the loop, because each decrement follows its check. |
| OrderController.CreateOrder | backend/src/controllers/orderController.js:5-58 | A missing or empty item list gives 400 and leaves the store unchanged. A success is a 201 with a schema-valid order. Every failure is 400, 404 or 500. |
| OrderController.Snapshot | backend/src/controllers/orderController.js:31-36 | There is one order item per request line. |
| OrderController.PlacedOrder | backend/src/controllers/orderController.js:14-44 | A placed order copies the request line by line: id, name, quantity and the REQUEST's price. Its totalAmount is stored as submitted and its status is "processing". Each product's stock fell by the sum of the quantities naming it. |
| OrderController.RefusedOrderKeepsEarlierDebits | backend/src/controllers/orderController.js:14-28 | A refused order names the first failing item. The stock taken for the items before it is not given back. |
| OrderController.PartialDebitExample | backend/src/controllers/orderController.js:21-27 | Concretely: with stocks a=5 and b=1, an order for 1 a and 3 b is refused with 400, and a's stock is left at 4. |
| OrderController.NegativeQuantityRaisesStock | backend/src/controllers/orderController.js:21-26 | A negative quantity passes the stock check and raises the product's stock. |
| OrderController.ExactStockAccepted | backend/src/controllers/orderController.js:21-26 | A quantity equal to the stock is accepted and leaves stock 0. |
| OrderController.CreateOrderPreservesSchema | backend/src/controllers/orderController.js:14-28 | Placing an order, whether it succeeds or is refused, keeps every product schema-valid. |
| OrderController.FirstFailing | backend/src/controllers/orderController.js:14-25 | This is the index of the first line item that fails its check, or the length of the list when none fails. |
| OrderController.CreateOrderAtomic | backend/src/controllers/orderController.js:14-28 | In the all-or-nothing placement, a refused or failed order leaves the products collection exactly as it was. |
| OrderController.AtomicAgreesWithCreateOrder | backend/src/controllers/orderController.js:14-51 | The all-or-nothing placement gives the same reply as the handler for every input, and the same collection whenever the order is placed. |
| OrderController.AtomicNeverRaisesStock | backend/src/controllers/orderController.js:21-26 | In the all-or-nothing placement, an order holding a quantity below one is refused and every stock is left as it was. No placement ever raises a stock, because the order schema requires every quantity to be at least 1. |
| OrderController.GetOrderById | backend/src/controllers/orderController.js:62-72 | The reply is the stored order iff its id is known, and 404 otherwise. |
| OrderController.UpdateOrderStatus | backend/src/controllers/orderController.js:113-130 | An unknown id gives 404. A status outside the enumeration fails the save with 500 and changes nothing. Otherwise only that order's status changes. |
| OrderController.UpdateOrderStatusKeepsValid | backend/src/controllers/orderController.js:113-130 | A status change keeps every stored order schema-valid, whatever status is asked for: a status outside the enumeration is never stored. |
| ProductController.ResolvePage | backend/src/controllers/productController.js:7 | A missing, non-numeric or zero page becomes 1. Any other number is kept. |
| ProductController.PageCount | backend/src/controllers/productController.js:25 | The page count is ceil(count / 10): the least number of ten-product pages that hold every product. |
| ProductController.GetProducts | backend/src/controllers/productController.js:4-32 | The reply skips 10·(page−1) products and returns the next at most ten, in order, with the page and the page count. A negative skip is refused with 500. |
| ProductController.EveryProductOnItsPage | backend/src/controllers/productController.js:17-26 | The product at position i is item i mod 10 of page i/10+1, and that page is within the announced page count. |
| ProductController.PagesPastTheEndAreEmpty | backend/src/controllers/productController.js:18-20 | A page beyond the page count is empty. |
| ProductController.GetProductById | backend/src/controllers/productController.js:35-48 | The reply is the product iff its id is known, and 404 otherwise. |
| ProductController.CreateProduct | backend/src/controllers/productController.js:51-69 | A product is created (201) exactly when the draft yields a schema-valid document; otherwise 500 with the store unchanged. |
| ProductController.MergeReplacesOnlyTruthy | backend/src/controllers/productController.js:79-84 | A field is replaced only by a truthy value. A stock or price of 0 and an empty name keep the old value. A supplied image list always replaces the old one. |
| ProductController.MergeIdempotent | backend/src/controllers/productController.js:79-84 | Applying an update twice is applying it once, and an update with only falsy values changes nothing. |
| ProductController.UpdateProduct | backend/src/controllers/productController.js:72-96 | An unknown id gives 404 and changes nothing. The update succeeds iff the merged product is schema-valid. Only that product changes, and the collection stays valid. Falsy stock, price or name keep the old values. |
| ProductController.DeleteProduct | backend/src/controllers/productController.js:99-114 | An unknown id gives 404 and changes nothing. Otherwise exactly that product is removed. |
| ProductController.WithReview | backend/src/controllers/productController.js:139-142 | The review is appended, and the rating becomes the mean of all review ratings. Nothing else changes. |
| ProductController.PostReview | backend/src/controllers/productController.js:117-154 | An unknown product gives 404 and a second review by the same user gives 400, both with no change. Otherwise the review is stored iff the product stays schema-valid, and a failure changes nothing. |
| ProductController.CreateProductReviewAsWritten | backend/src/controllers/productController.js:133-137 | The handler as written builds the review without a name. A failure changes nothing. |
| ProductController.ReviewAsWrittenNeverSaved | backend/src/controllers/productController.js:133-145 | As written, no review is ever stored: past the 404 and 400 checks, every request fails its save with 500. |
| ProductController.CreateProductReview | backend/src/controllers/productController.js:117-154 | With the reviewer's name filled in, a success appends exactly one review and sets the rating to the mean. Only that product changes. |
| ProductController.ReviewStoredIff | backend/src/controllers/productController.js:133-145 | On a valid collection, a first review is stored iff its rating is in [0, 5], its comment is non-empty and the reviewer's name is non-empty. The collection stays valid. |
| ProductController.SecondReviewRefused | backend/src/controllers/productController.js:124-131 | After a stored review, a second review by the same user gives 400, and reviews and rating stay unchanged. |
| Text.Trim | frontend/src/pages/Checkout.tsx:102 | `trim` returns a contiguous slice of the input that neither begins nor ends with white space, and everything outside that slice is white space. |
| Text.TrimEmptyIffBlank | frontend/src/pages/Checkout.tsx:101-103 | A string trims to "" iff it consists only of white space. |
| Text.ToLower | frontend/src/pages/ProductList.tsx:115 | Lower-casing keeps the length and lowers each letter A–Z, leaving every other character as it is. |
| Text.ParseIntOfIntToString | frontend/src/pages/ProductList.tsx:54-83 | `parseInt` reads back every integer that `toString` wrote, with integers taken as unbounded (see "Left out" for the double-precision limits). |
| Text.ParseInt | frontend/src/pages/ProductList.tsx:54 | `parseInt` without a radix gives NaN for the empty string and for a first character that is neither white space, a sign nor a digit. A string that starts with a digit and has no "0x"/"0X" prefix reads as a non-negative number, and so does any parsed string whose first character is not white space or '-'. |
| Text.ParseIntRadixExamples | frontend/src/pages/ProductList.tsx:54 | Without a radix, "0x10" reads as 16, "0X1f" as 31 and "-0x2" as −2. "0x" and "0xg" are NaN. "010" is 10, not octal, and " 12abc" is 12. |
| Catalog.Keep | frontend/src/pages/ProductList.tsx:114-116 | `filter` keeps exactly the elements that pass the test, and nothing else. |
| Catalog.KeepAppend | frontend/src/pages/ProductList.tsx:114-116 | Filtering distributes over concatenation, so the filter keeps the input order. |
| Catalog.KeepIdempotent | frontend/src/pages/Home.tsx:61 | Filtering twice by the same test is filtering once. |
| Catalog.KeepCategory | frontend/src/pages/Home.tsx:61 | The category filter keeps exactly the products of that category. |
| Catalog.KeepCategoryCount | frontend/src/pages/Home.tsx:61 | The filter keeps exactly as many products as the category holds. |
| Cart.TotalAppend | frontend/src/pages/Cart.tsx:51-56 | The total of two carts laid end to end is the sum of their totals. |
| Cart.TotalNonNegative | frontend/src/pages/Cart.tsx:51-56 | Non-negative prices and quantities give a non-negative total. |
| Cart.FindItem | frontend/src/pages/Cart.tsx:38 | The lookup finds the FIRST line with the product id, or none iff no line has it. |
| Cart.HandleQuantityChange | frontend/src/pages/Cart.tsx:37-45 | An update is dispatched iff the product is in the cart and the new quantity lies in [1, stock]. A product not in the cart is a no-op. |
| Cart.ButtonsAgreeWithHandler | frontend/src/pages/Cart.tsx:183-205 | For a line in [1, stock], minus (disabled at ≤ 1) and plus (disabled at ≥ stock) are enabled exactly when their click dispatches a ±1 update. |
| Cart.CheckoutRoute | frontend/src/pages/Cart.tsx:58-64 | Checkout goes to /login iff the user is not authenticated, and to /checkout otherwise. |
| Checkout.ShippingCompleteIffNoBlankField | frontend/src/pages/Checkout.tsx:89-103 | The form passes iff none of the seven fields is blank. A whitespace-only field counts as empty. |
| Checkout.HandleNext | frontend/src/pages/Checkout.tsx:89-112 | At step 0 with an incomplete form, the error is set and the step kept. Otherwise, with no validation at other steps, the error is cleared and the step advances by exactly 1. |
| Checkout.HandleBack | frontend/src/pages/Checkout.tsx:114-117 | Back decrements the step and clears the error. |
| Checkout.OrderPayload | frontend/src/pages/Checkout.tsx:119-130 | The payload carries the cart lines (id, name, quantity, price), the shipping form, totalAmount equal to the cart total, and payment method "PayPal". |
| Checkout.OnEvent | frontend/src/pages/Checkout.tsx:89-200 | Only Next and Back move the step. Nothing happens after the success navigation. The cart is kept unless the order was accepted. An order is posted only on an approval at step 1. |
| Checkout.RunStaysReachable | frontend/src/pages/Checkout.tsx:89-143 | Through any event sequence from the start, the step stays in {0, 1}, and step 1 is held only with a complete form. Every posted payload has complete shipping and the cart's lines and total. The cart is cleared only by an accepted order. |
| Checkout.StepOneLeftOnlyByBack | frontend/src/pages/Checkout.tsx:427-442 | At the payment step, the step changes only through Back, which leads to step 0 with the error cleared. |
| Checkout.ConfirmStepNeverShown | frontend/src/pages/Checkout.tsx:31 | Through any run from the start, the current step is one of the first two labels, and the Next button never reads "Confirmar Orden". |
| Checkout.CheckoutScreen | frontend/src/pages/Checkout.tsx:58-62 | A visitor is sent to login. An authenticated user with an empty cart sees the empty-cart notice; otherwise the wizard is shown. |
| ProductDetail.UpperBound | frontend/src/pages/ProductDetail.tsx:49 | The bound is the product's stock, or 1 when no product is loaded or its stock is 0. |
| ProductDetail.HandleQuantityChange | frontend/src/pages/ProductDetail.tsx:47-52 | A change is taken iff the new quantity lies in [1, bound]. Otherwise the quantity stays. |
| ProductDetail.QuantityStaysInRange | frontend/src/pages/ProductDetail.tsx:35-52 | Starting from 1, any sequence of clicks keeps the quantity at least 1. It is exactly 1 with no product or stock 0, and within [1, stock] otherwise. |
| ProductDetail.AddToCart | frontend/src/pages/ProductDetail.tsx:54-58 | Add-to-cart yields the product with the current quantity iff a product is loaded. |
| ProductDetail.ButtonsAgreeWithClamp | frontend/src/pages/ProductDetail.tsx:222-257 | With stock ≥ 1 and a quantity in range, minus and plus are enabled exactly when their click moves the quantity by one. |
| ProductDetail.Render | frontend/src/pages/ProductDetail.tsx:60-83 | A spinner while loading. Then the error, or "Producto no encontrado" when no product is loaded. Otherwise the product. |
| ProductList.ParseSortKey | frontend/src/pages/ProductList.tsx:93-103 | Exactly "priceAsc", "priceDesc" and "ratingDesc" select a sort. Anything else keeps the order. |
| ProductList.Insert | frontend/src/pages/ProductList.tsx:94-99 | An insertion adds exactly the element and keeps a sorted list sorted. |
| ProductList.SortBy | frontend/src/pages/ProductList.tsx:94-99 | The sort returns a permutation of the input, ordered by the key. |
| ProductList.SortedProducts | frontend/src/pages/ProductList.tsx:91-104 | The result is a permutation. priceAsc is non-decreasing in price, priceDesc non-increasing in price, and ratingDesc non-increasing in rating. "newest" and unknown keys return the input unchanged. |
| ProductList.InsertStable | frontend/src/pages/ProductList.tsx:94-99 | Inserting appends the element to its own key class and leaves the other classes untouched. |
| ProductList.SortByStable | frontend/src/pages/ProductList.tsx:94-99 | The sort is stable: products with equal keys keep their input order. |
| ProductList.EqualKeysKeepOrder | frontend/src/pages/ProductList.tsx:91-99 | Under each of the three sorts, products with equal sort keys keep their fetched order. |
| ProductList.FilteredProducts | frontend/src/pages/ProductList.tsx:111-116 | "Todos" keeps every product. Any other selection keeps exactly the products whose category equals the selection in lower case. |
| ProductList.LowerCaseSelection | frontend/src/pages/ProductList.tsx:26-34 | A lower-case category entry selects its own category. |
| ProductList.GetParam | frontend/src/pages/ProductList.tsx:53-54 | The lookup returns the value of the first pair with the name, or none iff no pair has it. |
| ProductList.SetParamSpec | frontend/src/pages/ProductList.tsx:72-84 | After a set, the name reads back the value and occurs once. The pairs under other names are exactly those before, in order. |
| ProductList.SetParamOtherNames | frontend/src/pages/ProductList.tsx:72-84 | Setting one name leaves every other name's value unchanged. |
| ProductList.HandleSearch | frontend/src/pages/ProductList.tsx:58-67 | The search writes a fresh query: the trimmed keyword only when it is non-empty, page "1", and no other parameters. The page state resets to 1. |
| ProductList.HandleCategoryChange | frontend/src/pages/ProductList.tsx:69-75 | A category change sets the page parameter to "1" and keeps the others. The page state resets to 1. |
| ProductList.HandlePageChange | frontend/src/pages/ProductList.tsx:77-85 | A page change writes the chosen page into the query and keeps the others. |
| ProductList.RequestedPage | frontend/src/pages/ProductList.tsx:52-56 | The effect asks for page 1 when the page parameter is absent or empty, and otherwise for what `parseInt` reads from it. |
| ProductList.HexPageRequested | frontend/src/pages/ProductList.tsx:54 | A page parameter "0x2" asks for page 2, and "0x" asks for NaN. |
| ProductList.InitialListState | frontend/src/pages/ProductList.tsx:46-50 | The page starts on the page the URL asks for, and with the category "Todos" and sort "newest" it shows the fetched products unchanged. |
| ProductList.HandlersRequestTheirPage | frontend/src/pages/ProductList.tsx:52-85 | After each handler the effect requests the intended page: 1 after a search or a category change, the chosen page after a page change. That is also the page the state holds. The keyword is kept, or replaced by the trimmed search term. |
| ProductList.AbsentPageIsOne | frontend/src/pages/ProductList.tsx:54 | A query without a page requests page 1. |
| Home.UniqueCategories | frontend/src/pages/Home.tsx:39-44 | The chip list begins with "todos". It then lists every product category exactly once, in order of first occurrence, and nothing else. |
| Home.Selected | frontend/src/pages/Home.tsx:58-61 | "todos" yields all products unchanged. Any other chip yields exactly the products of that category. |
| Home.AllChipIsNotACategory | backend/src/models/Product.ts:63-67 | Under the product schema no category is "todos", so the first chip is never repeated. |
| Home.CategoryChipSelectsItsProducts | frontend/src/pages/Home.tsx:58-61 | A chip made from a product's category never selects an empty list. |
| Forms.DomainShape | frontend/src/pages/Register.tsx:97 | A domain the `type="email"` check accepts is non-empty, holds only letters, digits, hyphens and dots, does not begin or end with a dot or a hyphen, and has no two dots in a row. |
| Forms.LabelIsDomain | frontend/src/pages/Register.tsx:97 | A single label is an acceptable domain. |
| Forms.DomainOfLabels | frontend/src/pages/Register.tsx:97 | A label, a dot and an acceptable domain make an acceptable domain. |
| Forms.EmailShape | frontend/src/pages/Register.tsx:97 | An accepted address holds exactly one "@", with text on both sides. |
| Forms.EmailOfParts | frontend/src/pages/Register.tsx:97 | A non-empty local part of allowed characters, an "@" and an acceptable domain make an accepted address. |
| Forms.NoAtNoEmail | frontend/src/pages/Register.tsx:97 | A value without an "@" is never an address, so a non-empty one fails the email check. |
| Forms.UsualAddressIsValid | frontend/src/pages/Register.tsx:97 | "ana@tienda.com" is accepted. |
| Forms.DotlessDomainIsValid | frontend/src/pages/Register.tsx:97 | "a@b" is accepted: the domain needs no dot. |
| Forms.MalformedAddresses | frontend/src/pages/Register.tsx:97 | "abc", "@tienda.com" and "ana@" are refused. |
| Forms.EmptyLabelIsInvalid | frontend/src/pages/Register.tsx:97 | "ana@tienda..com" is refused. |
| Register.HandleChange | frontend/src/pages/Register.tsx:31-52 | Editing confirmPassword or password sets the mismatch message iff the new value differs from the other field, and clears it otherwise. Edits to name or email leave it alone. |
| Register.HandleSubmit | frontend/src/pages/Register.tsx:54-68 | A mismatch sets the message and neither dispatches nor navigates. A match dispatches name, email and password (no confirmPassword) and navigates to "/". |
| Register.SubmitForm | frontend/src/pages/Register.tsx:83-124 | The browser refuses a form with an empty field or an email that is not a valid address, and then nothing changes or is sent. Otherwise `handleSubmit` runs. Whatever is dispatched has a name, a password and a valid address. |
| Register.MessageTracksMismatch | frontend/src/pages/Register.tsx:37-133 | After any edits and submits, the message is shown iff the two passwords differ. So when not loading, the button is enabled iff `handleSubmit` would dispatch, and a press dispatches iff the button is enabled and the browser accepts the fields. |
| Register.EmailWithoutAtIsRefused | frontend/src/pages/Register.tsx:93-102 | A form whose email holds no "@", the untouched form among them, is stopped before `handleSubmit`: nothing is dispatched and the page stays. |
| Register.WellFormedFormIsSent | frontend/src/pages/Register.tsx:54-124 | A filled-in form with a valid address and matching passwords dispatches exactly its name, email and password and navigates to "/". |
| Register.RunKeepsConsistent | frontend/src/pages/Register.tsx:31-59 | Edits and submits preserve the agreement between the message and the password fields. |
| Profile.LoadUser | frontend/src/pages/Profile.tsx:44-55 | A visitor is sent to "/login". Otherwise the form takes the user's name and email ("" when missing), with both password fields empty. |
| Profile.HandleSubmit | frontend/src/pages/Profile.tsx:65-86 | A mismatch sets the error and dispatches nothing. Otherwise the error is cleared, the name and email are sent, the password is sent absent when empty, and editing ends. |
| Profile.SubmitForm | frontend/src/pages/Profile.tsx:177-271 | Nothing is submitted outside editing or while loading, nor when the email is non-empty and not a valid address. Otherwise `handleSubmit` runs. Any email sent is empty or a valid address. |
| Profile.EmailWithoutAtIsRefused | frontend/src/pages/Profile.tsx:191-199 | A non-empty email without an "@" is stopped before `handleSubmit`. |
| Profile.StoreFollowsReply | frontend/src/store/slices/authSlice.ts:40-50 | The store merges the server's reply, not the form: each field the reply carries wins, the rest of the signed-in user survives, and with no user in the store the reply becomes the user. |
| Profile.SubmittedNameReachesStore | frontend/src/store/slices/authSlice.ts:102-105 | If the server's reply echoes the submitted name and email, they reach the signed-in user through the merge, and the user's id and admin flag survive unless the reply carries them. |
| Profile.ReloadedFormSubmitsNoPasswordChange | frontend/src/pages/Profile.tsx:48-80 | An untouched form submits the user's own name and email and no password change. |
| OrderViews.StatusColours | frontend/src/pages/Orders.tsx:23-38 | Both pages' mappings agree on every string. The five statuses map to five distinct colours, and any other string maps to "default". |
| OrderViews.LineAmounts | frontend/src/pages/OrderDetail.tsx:98 | Each line shows price × quantity. |
| OrderViews.HistoryOnUser | frontend/src/pages/Orders.tsx:48-54 | The history page goes to /login iff there is no user, and fetches the orders otherwise. |
| OrderViews.DetailFetch | frontend/src/pages/OrderDetail.tsx:48-52 | Details are requested iff the route carries a non-empty id. |
| OrderViews.DetailScreen | frontend/src/pages/OrderDetail.tsx:54-56 | A spinner while loading, then the error. Nothing is rendered without a loaded order. |
| AuthSlice.MergeUser | frontend/src/store/slices/authSlice.ts:104 | Every field the payload carries wins, and the others keep the old user's values. A null user spreads as empty. |
| AuthSlice.Reduce | frontend/src/store/slices/authSlice.ts:59-116 | Pending sets loading and clears the error. Login and register set the user and authenticate. updateProfile merges and keeps isAuthenticated. Rejected sets the message or the default. Logout clears the user. clearError touches only the error. |
| AuthSlice.ReplayCoherent | frontend/src/store/slices/authSlice.ts:59-116 | In every reachable state, authenticated implies a user is present, and loading implies no error. |
| AuthSlice.UpdateAfterLogoutLeavesUser | frontend/src/store/slices/authSlice.ts:102-114 | A profile update completing after logout leaves a user in a state that is not authenticated. |
| OrderSlice.Reduce | frontend/src/store/slices/orderSlice.ts:53-131 | Pending sets loading and clears the error. Each fulfilled action writes its own field and clears loading. Rejected sets the message or the default. clearOrder nulls order and error. clearPaymentIntent touches only the intent. |
| OrderSlice.ReduceFrames | frontend/src/store/slices/orderSlice.ts:57-129 | Pending and rejected actions never touch the data, and each data field changes only through its own actions. |
| OrderSlice.ReplayLoadingHasNoError | frontend/src/store/slices/orderSlice.ts:68-129 | While a request is in flight no error is held, in every reachable state. |
| OrderSlice.HistoryOnlyFromMyOrders | frontend/src/store/slices/orderSlice.ts:102-108 | Only a getMyOrders result replaces the order history. |
| ProductSlice.Reduce | frontend/src/store/slices/productSlice.ts:50-112 | fetchProducts copies products, page and pages. fetchProductDetails sets only the product. createReview only clears loading. Rejected sets the message or the default. The clear actions null what they name. |
| ProductSlice.ReplayLoadingHasNoError | frontend/src/store/slices/productSlice.ts:62-111 | While a request is in flight no error is held, in every reachable state. |
| ProductSlice.ReviewLeavesCachedProduct | frontend/src/store/slices/productSlice.ts:99-110 | A review round trip leaves the cached product and listing as they were; the new rating is not shown. |
| ProductSlice.PagingOnlyFromListing | frontend/src/store/slices/productSlice.ts:69-77 | Only a fetchProducts result moves page and pages. |
| Storefront.ShownAmountsMatchCart | frontend/src/pages/OrderDetail.tsx:98-106 | The amounts the detail page lists for order lines that copy the cart's prices and quantities add up to the cart total. |
| Storefront.CheckoutPayloadIsPlaced | frontend/src/pages/Checkout.tsx:119-137 | A payload from a non-empty cart with a validated form and a captured payment is placed whenever the stock covers it. The stored total equals the cart total and the sum of the amounts the detail page lists for the order. |
| Storefront.PaginationShownIffMoreThanOnePage | frontend/src/pages/ProductList.tsx:197 | The pagination control is shown iff the listing holds more than ten products. |

## Left out

- The keyword search of `getProducts` (a case-insensitive regular expression evaluated by the database) is not modelled. `ProductController.GetProducts` receives the listing the database returns for the query.
- ProductController.GetProducts: the page is an integer or NaN. A fractional page such as "1.5" is not modelled.
- Malformed ids are not modelled. In the source they make `findById` throw a cast error, which the handlers report as 500 rather than 404. Ids here are plain strings that are either present or absent.
- OrderController.Reserve: saving a product after its stock is decremented is treated as succeeding. Only `stock` changes, and it stays ≥ 0 after the check, so a schema-valid product stays valid (`OrderController.ReservePreservesSchema`).
- OrderController.Reserve: item quantities and stocks are integers and always present. In the source a missing or non-numeric quantity passes `stock < quantity`, turns the stock into NaN, and makes that product's save fail with 500 after earlier items were debited. A fractional quantity such as 1.5 passes both the stock check and the order schema's minimum, leaving a fractional stock.
- AuthSlice.MergeUser: a payload field is either present with a value or absent. A field that is JSON `null` is not modelled; the spread would copy it over the old value, while an absent field keeps the old value.
- OrderController.UpdateOrderStatus: a request with no `status` at all is not modelled. A status is always some string, and the empty string fails the enumeration.
- `getMyOrders` and `getOrders` are not modelled. They are database queries sorted by creation time, which the model does not keep. The `createdAt` timestamps and review `createdAt` defaults are left out for the same reason.
- `populate` of product and user references in replies is not modelled. It changes what is sent, not what is stored.
- The `user` reference of a review is not checked by `ProductSchema.ValidReview`. The handler always fills it from the authenticated user.
- ProductController.CreateProductReview: `Number(rating)` of a non-numeric rating (NaN) is not modelled. The rating arrives as a `real`.
- A missing `totalAmount` or item `price` in an order request is not modelled. They are integers here and always present.
- The PayPal SDK calls and the amount string built with `toFixed` are not modelled. An approval arrives as an event carrying the capture and order outcome (`Checkout.ApprovalOutcome`).
- The checkout `loading` flag and spinner are not modelled. An approval is handled as one atomic event.
- Checkout.OnEvent: an approval whose `actions.order` is missing, and an order reply with an empty body, are not modelled. Both would leave the page unchanged.
- Text.ParseIntOfIntToString: page numbers are unbounded integers. JavaScript numbers are doubles, so `toString` writes 1e21 and larger as "1e+21", which `parseInt` reads back as 1, and integers beyond 2^53 are not exact. The pagination control only offers pages 1 to the page count, far below either limit.
- Forms.ValidEmail: the browser strips newlines and leading and trailing white space from an email field's value before the page sees it. The model takes each edited value as given. Internationalised domain names, which some browsers convert before checking, are not modelled.
- Profile.SubmittedNameReachesStore: the reply of `PUT /api/users/profile` is assumed to echo the submitted name and email. The server's user controller is not part of this model, so the lemma takes that echo as a precondition; `Profile.StoreFollowsReply` states what the store does with any reply.
- The messages the browser shows for a refused field are not modelled. A refused submit changes no state.
- Text.ToLower: only the ASCII letters A–Z are lowered. `toLowerCase` also lowers non-ASCII letters, which the category values never contain.
- Text.Trim: strings are sequences of Unicode code points, and white space is checked per code point. JavaScript checks UTF-16 units, but every white-space code point lies in the Basic Multilingual Plane, so the result is the same.
- The cart reducer (`addToCart`, `updateQuantity`, `removeFromCart`, `clearCart`) is not part of this model. The pages are modelled up to the action they dispatch.
- HTTP transport (axios), localStorage, token headers and navigation side effects are not modelled. Reducers receive thunk results as action payloads, and navigation is a returned route.
- Concurrent requests competing for the same stock are not modelled. Only the sequential loop is.
- Floating-point prices are not modelled; prices are integer cents, so `toFixed` formatting has no counterpart.
- Presentation-only components (theme, navigation bar, footer, product cards, login and order-success pages) are not part of this model.

## Findings

| source | as written | input that shows it | evidently intended | confidence | as-written member | corrected member |
|---|---|---|---|---|---|---|
| backend/src/controllers/productController.js:133-137 | The review pushed onto the product has no `name`, which the review sub-schema requires, so the product save fails validation. | Any first review of an existing product, e.g. rating 4 with comment "ok". The reply is 500 and nothing is stored. | The review carries the reviewer's name, and a valid first review is stored with the rating recomputed. | medium: not executed | ProductController.ReviewAsWrittenNeverSaved | ProductController.ReviewStoredIff |
| backend/src/controllers/orderController.js:14-28 | Stock is decremented and saved item by item, and a later failing item returns early without restoring the earlier decrements. | Store a (stock 5), b (stock 1); order [1×a, 3×b]. The reply is 400, but a's stock is left at 4 with no order created. | A refused order leaves every stock unchanged. | high: not executed | OrderController.PartialDebitExample | OrderController.AtomicAgreesWithCreateOrder |
| backend/src/controllers/orderController.js:21-26 | The check `stock < quantity` lets a negative quantity through, and the decrement then raises the stock. The order itself fails the `min: 1` item check only after the stock was raised. | Store a (stock 2); order [−3×a]. The stock becomes 5 and the reply is 500. | A non-positive quantity is refused before any stock changes. | high: not executed | OrderController.NegativeQuantityRaisesStock | OrderController.AtomicNeverRaisesStock |
