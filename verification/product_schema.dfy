/**
 The persisted product document and its embedded reviews, with the
 constraints the document schema enforces when a product is saved
 (backend/src/models/Product.ts).
 */
module ProductSchema {
  import opened Wrappers

  /** The category enumeration of the schema. */
  const Categories: seq<string> := ["electronics", "clothing", "books", "home", "sports", "other"]

  const DefaultStock: int := 0
  const DefaultRating: real := 0.0
  const MaxRating: real := 5.0

  /** A review embedded in a product. A missing `comment` is represented by
      the empty string: both fail the schema's `required` check. */
  datatype Review = Review(user: string, name: Option<string>, rating: real, comment: string)

  /** A product document. Prices are integer cents. */
  datatype Product = Product(
    id: string,
    name: string,
    description: string,
    price: int,
    category: string,
    stock: int,
    images: seq<string>,
    rating: real,
    reviews: seq<Review>)

  /** The products collection, keyed by document id. */
  type Store = map<string, Product>

  predicate IsCategory(c: string) {
    c in Categories
  }

  predicate InRatingRange(x: real) {
    0.0 <= x <= MaxRating
  }

  /** The review sub-schema: name and comment are required (a string is
      missing when absent or empty) and the rating lies in [0, 5]. The user
      reference is also required; the handler always sets it from the
      authenticated user, so it is not checked here. */
  predicate ValidReview(r: Review) {
    && r.name.Some? && r.name.value != ""
    && InRatingRange(r.rating)
    && r.comment != ""
  }

  /** The product schema: required strings, `price >= 0`, a known category,
      `stock >= 0`, non-empty image strings, `rating` in [0, 5] and valid
      reviews. */
  predicate ValidProduct(p: Product) {
    && p.name != ""
    && p.description != ""
    && p.price >= 0
    && IsCategory(p.category)
    && p.stock >= 0
    && (forall i :: 0 <= i < |p.images| ==> p.images[i] != "")
    && InRatingRange(p.rating)
    && (forall i :: 0 <= i < |p.reviews| ==> ValidReview(p.reviews[i]))
  }

  /** Every product of the store satisfies the schema. */
  predicate ValidStore(s: Store) {
    forall id :: id in s ==> ValidProduct(s[id])
  }

  /** The sum of the ratings of `rs`. */
  function SumRatings(rs: seq<Review>): real {
    if |rs| == 0 then 0.0 else SumRatings(rs[..|rs| - 1]) + rs[|rs| - 1].rating
  }

  /** The arithmetic mean of the review ratings. */
  function MeanRating(rs: seq<Review>): real
    requires |rs| > 0
  {
    SumRatings(rs) / (|rs| as real)
  }

  lemma {:induction false} SumRatingsBounds(rs: seq<Review>)
    requires forall i :: 0 <= i < |rs| ==> InRatingRange(rs[i].rating)
    ensures 0.0 <= SumRatings(rs) <= MaxRating * (|rs| as real)
  {
    if |rs| > 0 {
      SumRatingsBounds(rs[..|rs| - 1]);
    }
  }

  /** The mean of ratings that each lie in [0, 5] lies in [0, 5]. */
  lemma MeanRatingInRange(rs: seq<Review>)
    requires |rs| > 0
    requires forall i :: 0 <= i < |rs| ==> InRatingRange(rs[i].rating)
    ensures InRatingRange(MeanRating(rs))
  {
    SumRatingsBounds(rs);
    var n := |rs| as real;
    assert MeanRating(rs) * n == SumRatings(rs);
  }

  /** The fields a client supplies when creating a product; any may be
      missing. */
  datatype ProductDraft = ProductDraft(
    name: Option<string>,
    price: Option<int>,
    description: Option<string>,
    category: Option<string>,
    stock: Option<int>,
    images: Option<seq<string>>)

  /** A new document built from a draft with the schema defaults applied:
      `stock` 0, `rating` 0, no images and no reviews when not supplied.
      `None` when a required field without a default is missing. */
  function NewProduct(id: string, d: ProductDraft): (r: Option<Product>)
    ensures r.Some? <==> d.name.Some? && d.price.Some? && d.description.Some? && d.category.Some?
    ensures r.Some? ==> r.value.stock == (if d.stock.Some? then d.stock.value else DefaultStock)
    ensures r.Some? ==> r.value.rating == DefaultRating && r.value.reviews == []
    ensures r.Some? ==> r.value.id == id && r.value.name == d.name.value && r.value.price == d.price.value
  {
    if d.name.None? || d.price.None? || d.description.None? || d.category.None? then None
    else Some(Product(
      id, d.name.value, d.description.value, d.price.value, d.category.value,
      d.stock.GetOr(DefaultStock), d.images.GetOr([]), DefaultRating, []))
  }
}
