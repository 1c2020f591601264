/**
 The catalog endpoints of the backend (backend/src/controllers/productController.js):
 one page of the listing, reading, creating, updating and deleting a product,
 and posting a review. The products collection is a map.
 */
module ProductController {
  import opened Wrappers
  import opened ProductSchema

  /** Products per page. */
  const PageSize: int := 10

  const ProductNotFoundMessage := "Producto no encontrado"
  const DeletedMessage := "Producto eliminado"
  const AlreadyReviewedMessage := "Producto ya fue rese\U{00F1}ado"
  const ReviewAddedMessage := "Rese\U{00F1}a agregada"
  const ListFailedMessage := "Error al obtener productos"
  const CreateFailedMessage := "Error al crear producto"
  const UpdateFailedMessage := "Error al actualizar producto"
  const ReviewFailedMessage := "Error al crear rese\U{00F1}a"

  // ---------------------------------------------------------------------
  // Listing.

  /** The `page` query parameter after `Number(...)`: missing (`NaN`), not a
      number (`NaN`), or an integer. */
  datatype PageQuery = Absent | NotANumber | Number(n: int)

  /** `Number(req.query.page) || 1`: `NaN` and 0 are falsy and become 1;
      any other number is kept, negative ones included. */
  function ResolvePage(q: PageQuery): (page: int)
    ensures page != 0
    ensures q.Number? && q.n != 0 ==> page == q.n
    ensures q.Absent? || q.NotANumber? || q == Number(0) ==> page == 1
  {
    if q.Number? && q.n != 0 then q.n else 1
  }

  /** `Math.ceil(count / pageSize)`: the least number of pages of ten
      that holds `count` products. */
  function PageCount(count: nat): (pages: nat)
    ensures pages * PageSize >= count
    ensures pages > 0 ==> (pages - 1) * PageSize < count
  {
    (count + PageSize - 1) / PageSize
  }

  /** The reply body of `GET /api/products`. */
  datatype ProductsPage = ProductsPage(products: seq<Product>, page: int, pages: nat)

  /** `getProducts` over the products the database holds for the query (the
      keyword filter is the database's): skip `10 * (page - 1)` products and
      return at most ten. The database refuses a negative skip, which the
      handler reports as 500. */
  function GetProducts(listing: seq<Product>, q: PageQuery): (r: Response<ProductsPage>)
    ensures r.Success? <==> ResolvePage(q) >= 1
    ensures r.Failure? ==> r == Failure(ServerError, ListFailedMessage)
    ensures r.Success? ==>
      var skip := PageSize * (ResolvePage(q) - 1);
      && r.code == Ok
      && r.value.page == ResolvePage(q)
      && r.value.pages == PageCount(|listing|)
      && |r.value.products| <= PageSize
      && |r.value.products| == (if skip + PageSize <= |listing| then PageSize
                                else if skip <= |listing| then |listing| - skip else 0)
      && (forall j :: 0 <= j < |r.value.products| ==> r.value.products[j] == listing[skip + j])
  {
    var page := ResolvePage(q);
    var skip := PageSize * (page - 1);
    if skip < 0 then Failure(ServerError, ListFailedMessage)
    else
      var lo := if skip <= |listing| then skip else |listing|;
      var hi := if skip + PageSize <= |listing| then skip + PageSize else |listing|;
      Success(Ok, ProductsPage(listing[lo..hi], page, PageCount(|listing|)))
  }

  /** Every product of the listing is served on exactly one page: the
      product at position `i` is item `i % 10` of page `i / 10 + 1`, and
      that page is among the `pages` the reply announces. */
  lemma EveryProductOnItsPage(listing: seq<Product>, i: nat)
    requires i < |listing|
    ensures var r := GetProducts(listing, Number(i / PageSize + 1));
      && r.Success?
      && i % PageSize < |r.value.products|
      && r.value.products[i % PageSize] == listing[i]
      && 1 <= r.value.page <= r.value.pages
  {
    var p := i / PageSize + 1;
    var r := GetProducts(listing, Number(p));
    assert PageSize * (p - 1) + i % PageSize == i;
  }

  /** A page past the last one is empty. */
  lemma PagesPastTheEndAreEmpty(listing: seq<Product>, p: int)
    requires p > PageCount(|listing|)
    ensures GetProducts(listing, Number(p)).Success?
    ensures GetProducts(listing, Number(p)).value.products == []
  {
    var pages := PageCount(|listing|);
    assert PageSize * (p - 1) >= PageSize * pages;
  }

  // ---------------------------------------------------------------------
  // Reading, creating, updating and deleting.

  /** `getProductById`: the product, or 404. */
  function GetProductById(s: Store, id: string): (r: Response<Product>)
    ensures r.Success? <==> id in s
    ensures r.Success? ==> r == Success(Ok, s[id])
    ensures r.Failure? ==> r == Failure(NotFound, ProductNotFoundMessage)
  {
    if id in s then Success(Ok, s[id]) else Failure(NotFound, ProductNotFoundMessage)
  }

  /** `createProduct` with the id the database allocates: the document gets
      the schema defaults and is stored only when it satisfies the schema. */
  function CreateProduct(s: Store, id: string, d: ProductDraft): (r: (Response<Product>, Store))
    requires id !in s
    ensures r.0.Success? ==> r.0.code == Created && ValidProduct(r.0.value)
                             && r.1 == s[id := r.0.value] && r.0.value.id == id
    ensures r.0.Failure? ==> r.0.code == ServerError && r.1 == s
    ensures r.0.Success? <==> NewProduct(id, d).Some? && ValidProduct(NewProduct(id, d).value)
  {
    match NewProduct(id, d)
    case None => (Failure(ServerError, CreateFailedMessage), s)
    case Some(p) =>
      if ValidProduct(p) then (Success(Created, p), s[id := p])
      else (Failure(ServerError, CreateFailedMessage), s)
  }

  /** The fields of `PUT /api/products/:id`; any may be missing. */
  datatype ProductUpdate = ProductUpdate(
    name: Option<string>,
    price: Option<int>,
    description: Option<string>,
    category: Option<string>,
    stock: Option<int>,
    images: Option<seq<string>>)

  /** JavaScript truthiness of a possibly-missing string and number; an
      array, even an empty one, is truthy. */
  predicate TruthyString(o: Option<string>) { o.Some? && o.value != "" }
  predicate TruthyNumber(o: Option<int>) { o.Some? && o.value != 0 }

  /** `field = supplied || field` for each updatable field. */
  function Merge(p: Product, u: ProductUpdate): Product {
    p.(name := if TruthyString(u.name) then u.name.value else p.name,
       price := if TruthyNumber(u.price) then u.price.value else p.price,
       description := if TruthyString(u.description) then u.description.value else p.description,
       category := if TruthyString(u.category) then u.category.value else p.category,
       stock := if TruthyNumber(u.stock) then u.stock.value else p.stock,
       images := if u.images.Some? then u.images.value else p.images)
  }

  /** The merge replaces a field exactly when the supplied value is truthy:
      a stock or price of 0 and an empty name, description or category
      leave the old value, while any supplied image list replaces the old
      one. Id, rating and reviews are never touched. */
  lemma MergeReplacesOnlyTruthy(p: Product, u: ProductUpdate)
    ensures var m := Merge(p, u);
      && (m.stock != p.stock ==> TruthyNumber(u.stock) && m.stock == u.stock.value)
      && (TruthyNumber(u.stock) ==> m.stock == u.stock.value)
      && (u.stock == Some(0) ==> m.stock == p.stock)
      && (m.price != p.price ==> TruthyNumber(u.price) && m.price == u.price.value)
      && (u.price == Some(0) ==> m.price == p.price)
      && (m.name != p.name ==> TruthyString(u.name) && m.name == u.name.value)
      && (u.name == Some("") ==> m.name == p.name)
      && (m.description != p.description ==> TruthyString(u.description))
      && (m.category != p.category ==> TruthyString(u.category))
      && (u.images.Some? ==> m.images == u.images.value)
      && m.id == p.id && m.rating == p.rating && m.reviews == p.reviews
  {
  }

  /** Applying the same update twice is applying it once, and an update
      carrying only falsy values changes nothing. */
  lemma MergeIdempotent(p: Product, u: ProductUpdate)
    ensures Merge(Merge(p, u), u) == Merge(p, u)
    ensures !TruthyString(u.name) && !TruthyNumber(u.price) && !TruthyString(u.description)
            && !TruthyString(u.category) && !TruthyNumber(u.stock) && u.images.None?
            ==> Merge(p, u) == p
  {
  }

  /** `updateProduct`: 404 for an unknown id; otherwise the merged document
      is saved, or the save fails with 500 when it breaks the schema. Only
      the addressed product can change. */
  function UpdateProduct(s: Store, id: string, u: ProductUpdate): (r: (Response<Product>, Store))
    ensures id !in s ==> r == (Failure(NotFound, ProductNotFoundMessage), s)
    ensures r.0.Failure? ==> r.1 == s
    ensures r.0.Success? <==> id in s && ValidProduct(Merge(s[id], u))
    ensures r.0.Success? ==> r.0 == Success(Ok, Merge(s[id], u)) && r.1 == s[id := Merge(s[id], u)]
    ensures r.1.Keys == s.Keys
    ensures forall other :: other in s && other != id ==> r.1[other] == s[other]
    ensures ValidStore(s) ==> ValidStore(r.1)
    ensures r.0.Success? && !TruthyNumber(u.stock) ==> r.1[id].stock == s[id].stock
    ensures r.0.Success? && !TruthyNumber(u.price) ==> r.1[id].price == s[id].price
    ensures r.0.Success? && !TruthyString(u.name) ==> r.1[id].name == s[id].name
    ensures r.0.Success? ==> r.1[id].rating == s[id].rating && r.1[id].reviews == s[id].reviews
  {
    if id !in s then (Failure(NotFound, ProductNotFoundMessage), s)
    else
      var m := Merge(s[id], u);
      if ValidProduct(m) then (Success(Ok, m), s[id := m])
      else (Failure(ServerError, UpdateFailedMessage), s)
  }

  /** `deleteProduct`: 404 for an unknown id; otherwise exactly that
      product is removed. */
  function DeleteProduct(s: Store, id: string): (r: (Response<string>, Store))
    ensures id !in s ==> r == (Failure(NotFound, ProductNotFoundMessage), s)
    ensures id in s ==> r.0 == Success(Ok, DeletedMessage)
    ensures r.1.Keys == s.Keys - {id}
    ensures forall other :: other in r.1 ==> r.1[other] == s[other]
  {
    if id in s then (Success(Ok, DeletedMessage), s - {id})
    else (Failure(NotFound, ProductNotFoundMessage), s)
  }

  // ---------------------------------------------------------------------
  // Reviews.

  /** The body of `POST /api/products/:id/reviews`, after `Number(rating)`.
      A missing comment is the empty string. */
  datatype ReviewRequest = ReviewRequest(rating: real, comment: string)

  /** Some review of `p` was written by `user`. */
  predicate AlreadyReviewed(p: Product, user: string) {
    exists i :: 0 <= i < |p.reviews| && p.reviews[i].user == user
  }

  /** The product with `review` appended and its rating recomputed as the
      mean of all review ratings. */
  function WithReview(p: Product, review: Review): (q: Product)
    ensures q.reviews == p.reviews + [review]
    ensures q.rating == MeanRating(q.reviews)
    ensures q == p.(reviews := q.reviews, rating := q.rating)
  {
    var rs := p.reviews + [review];
    p.(reviews := rs, rating := MeanRating(rs))
  }

  /** The review handler around a given review document: 404 for an unknown
      product, 400 when the user has reviewed it already, otherwise the
      review is appended, the rating recomputed and the product saved, the
      save failing with 500 when the product breaks the schema. */
  function PostReview(s: Store, id: string, user: string, review: Review): (r: (Response<string>, Store))
    ensures id !in s ==> r == (Failure(NotFound, ProductNotFoundMessage), s)
    ensures id in s && AlreadyReviewed(s[id], user) ==> r == (Failure(BadRequest, AlreadyReviewedMessage), s)
    ensures r.0.Failure? ==> r.1 == s
    ensures r.0.Success? <==> id in s && !AlreadyReviewed(s[id], user) && ValidProduct(WithReview(s[id], review))
    ensures r.0.Success? ==> r.0 == Success(Created, ReviewAddedMessage) && r.1 == s[id := WithReview(s[id], review)]
  {
    if id !in s then (Failure(NotFound, ProductNotFoundMessage), s)
    else if AlreadyReviewed(s[id], user) then (Failure(BadRequest, AlreadyReviewedMessage), s)
    else
      var q := WithReview(s[id], review);
      if ValidProduct(q) then (Success(Created, ReviewAddedMessage), s[id := q])
      else (Failure(ServerError, ReviewFailedMessage), s)
  }

  /** `createProductReview` as written: the review document is built from
      the user, the rating and the comment, WITHOUT the `name` the review
      schema requires. */
  function CreateProductReviewAsWritten(s: Store, id: string, user: string, req: ReviewRequest): (r: (Response<string>, Store))
    ensures r.0.Failure? ==> r.1 == s
  {
    PostReview(s, id, user, Review(user, None, req.rating, req.comment))
  }

  /** As written, no review is ever stored: every request that gets past
      the 404 and 400 checks fails its save with 500 and changes nothing. */
  lemma ReviewAsWrittenNeverSaved(s: Store, id: string, user: string, req: ReviewRequest)
    ensures CreateProductReviewAsWritten(s, id, user, req).0.Failure?
    ensures CreateProductReviewAsWritten(s, id, user, req).1 == s
    ensures id in s && !AlreadyReviewed(s[id], user) ==>
              CreateProductReviewAsWritten(s, id, user, req).0.code == ServerError
  {
    var review := Review(user, None, req.rating, req.comment);
    if id in s && !AlreadyReviewed(s[id], user) {
      var q := WithReview(s[id], review);
      assert q.reviews[|q.reviews| - 1] == review;
      assert !ValidReview(review);
    }
  }

  /** `createProductReview` with the reviewer's name filled in, as the
      review schema requires. */
  function CreateProductReview(s: Store, id: string, user: string, userName: string, req: ReviewRequest): (r: (Response<string>, Store))
    ensures r.0.Failure? ==> r.1 == s
    ensures r.0.Success? ==>
      && id in s && id in r.1
      && r.1[id].reviews == s[id].reviews + [Review(user, Some(userName), req.rating, req.comment)]
      && r.1[id].rating == MeanRating(r.1[id].reviews)
      && r.1[id] == s[id].(reviews := r.1[id].reviews, rating := r.1[id].rating)
      && r.1.Keys == s.Keys
      && (forall other :: other in s && other != id ==> r.1[other] == s[other])
  {
    PostReview(s, id, user, Review(user, Some(userName), req.rating, req.comment))
  }

  /** On a schema-valid collection, a first review by a user is stored
      exactly when the review itself is valid: a rating in [0, 5], a
      non-empty comment and a non-empty reviewer name. The recomputed mean
      then stays within [0, 5], so the collection stays valid. */
  lemma ReviewStoredIff(s: Store, id: string, user: string, userName: string, req: ReviewRequest)
    requires ValidStore(s) && id in s && !AlreadyReviewed(s[id], user)
    ensures var r := CreateProductReview(s, id, user, userName, req);
      && (r.0.Success? <==> InRatingRange(req.rating) && req.comment != "" && userName != "")
      && ValidStore(r.1)
  {
    var review := Review(user, Some(userName), req.rating, req.comment);
    var q := WithReview(s[id], review);
    assert q.reviews[|q.reviews| - 1] == review;
    if ValidReview(review) {
      assert forall i :: 0 <= i < |q.reviews| ==> ValidReview(q.reviews[i]);
      MeanRatingInRange(q.reviews);
    }
  }

  /** A second review by the same user is refused with 400 whatever its
      content, and reviews and rating stay as they were. */
  lemma SecondReviewRefused(s: Store, id: string, user: string, userName: string, req: ReviewRequest, req2: ReviewRequest)
    requires CreateProductReview(s, id, user, userName, req).0.Success?
    ensures var s1 := CreateProductReview(s, id, user, userName, req).1;
      CreateProductReview(s1, id, user, userName, req2) == (Failure(BadRequest, AlreadyReviewedMessage), s1)
  {
    var s1 := CreateProductReview(s, id, user, userName, req).1;
    assert s1[id].reviews[|s1[id].reviews| - 1].user == user;
  }
}
