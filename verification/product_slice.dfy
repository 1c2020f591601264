/**
 The client's catalogue state (frontend/src/store/slices/productSlice.ts):
 the reducer's response to the fetchProducts, fetchProductDetails and
 createReview thunks and to clearProductDetails and clearError. Payloads
 arrive with the actions; the HTTP calls are not modelled.
 */
module ProductSlice {
  import opened Wrappers
  import opened ProductSchema

  datatype ProductState = ProductState(
    products: seq<Product>,
    product: Option<Product>,
    loading: bool,
    error: Option<string>,
    page: int,
    pages: int)

  const Initial := ProductState([], None, false, None, 1, 1)

  datatype Thunk = FetchProducts | FetchProductDetails | CreateReview

  function DefaultError(t: Thunk): string {
    match t
    case FetchProducts => "Error al obtener productos"
    case FetchProductDetails => "Error al obtener detalles del producto"
    case CreateReview => "Error al crear rese\U{00F1}a"
  }

  datatype Action =
    | Pending(thunk: Thunk)
    | ProductsFulfilled(products: seq<Product>, page: int, pages: int)
    | DetailsFulfilled(product: Product)
    | ReviewFulfilled
    | Rejected(thunk: Thunk, message: Option<string>)
    | ClearProductDetails
    | ClearError

  function Reduce(st: ProductState, a: Action): (r: ProductState)
    ensures a.Pending? ==> r == st.(loading := true, error := None)
    ensures a.ProductsFulfilled? ==>
      r == st.(loading := false, products := a.products, page := a.page, pages := a.pages)
    ensures a.DetailsFulfilled? ==> r == st.(loading := false, product := Some(a.product))
    ensures a.ReviewFulfilled? ==> r == st.(loading := false)
    ensures a.Rejected? ==>
      r == st.(loading := false, error := Some(OrElse(a.message, DefaultError(a.thunk))))
    ensures a.ClearProductDetails? ==> r == st.(product := None, error := None)
    ensures a.ClearError? ==> r == st.(error := None)
  {
    match a
    case Pending(_) => st.(loading := true, error := None)
    case ProductsFulfilled(ps, pg, n) => st.(loading := false, products := ps, page := pg, pages := n)
    case DetailsFulfilled(p) => st.(loading := false, product := Some(p))
    case ReviewFulfilled => st.(loading := false)
    case Rejected(t, m) => st.(loading := false, error := Some(OrElse(m, DefaultError(t))))
    case ClearProductDetails => st.(product := None, error := None)
    case ClearError => st.(error := None)
  }

  function Replay(st: ProductState, actions: seq<Action>): ProductState
    decreases |actions|
  {
    if |actions| == 0 then st else Replay(Reduce(st, actions[0]), actions[1..])
  }

  /** No error is shown while a request is in flight, in every state
      reachable from one where that holds. */
  lemma {:induction false} ReplayLoadingHasNoError(st: ProductState, actions: seq<Action>)
    requires st.loading ==> st.error.None?
    ensures var r := Replay(st, actions); r.loading ==> r.error.None?
    decreases |actions|
  {
    if |actions| > 0 {
      ReplayLoadingHasNoError(Reduce(st, actions[0]), actions[1..]);
    }
  }

  /** A review round trip leaves the cached product as it was: the new
      review and the new rating are not shown until the details are fetched
      again. */
  lemma {:induction false} ReviewLeavesCachedProduct(st: ProductState, actions: seq<Action>)
    requires forall i :: 0 <= i < |actions| ==>
      actions[i] in {Pending(CreateReview), ReviewFulfilled} || (actions[i].Rejected? && actions[i].thunk == CreateReview)
    ensures Replay(st, actions).product == st.product
    ensures Replay(st, actions).products == st.products
    decreases |actions|
  {
    if |actions| > 0 {
      ReviewLeavesCachedProduct(Reduce(st, actions[0]), actions[1..]);
    }
  }

  /** Only a fetchProducts result moves the listing's page and page
      count. */
  lemma {:induction false} PagingOnlyFromListing(st: ProductState, actions: seq<Action>)
    requires forall i :: 0 <= i < |actions| ==> !actions[i].ProductsFulfilled?
    ensures Replay(st, actions).page == st.page && Replay(st, actions).pages == st.pages
    decreases |actions|
  {
    if |actions| > 0 {
      PagingOnlyFromListing(Reduce(st, actions[0]), actions[1..]);
    }
  }
}
