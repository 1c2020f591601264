/**
 The home page (frontend/src/pages/Home.tsx): the category chips built from
 the fetched products, and the selection they drive.
 */
module Home {
  import opened ProductSchema
  import opened Catalog

  /** The chip that selects every product, always listed first. */
  const AllChip := "todos"

  predicate Distinct(s: seq<string>) {
    forall j, k :: 0 <= j < k < |s| ==> s[j] != s[k]
  }

  /** Index i holds the first product of its category. */
  predicate FirstOfCategory(products: seq<Product>, i: int)
    requires 0 <= i < |products|
  {
    forall j :: 0 <= j < i ==> products[j].category != products[i].category
  }

  /** `["todos", ...new Set(products.map(p => p.category))]`: a set keeps
      its first insertion of each value, in insertion order. The result
      starts with "todos"; the rest lists every product category once, in
      order of first occurrence, and nothing else. */
  method UniqueCategories(products: seq<Product>) returns (cats: seq<string>)
    ensures |cats| >= 1 && cats[0] == AllChip
    ensures Distinct(cats[1..])
    ensures forall i :: 0 <= i < |products| ==> products[i].category in cats[1..]
    ensures exists idx: seq<int> ::
      && |idx| == |cats| - 1
      && (forall k :: 0 <= k < |idx| ==>
            0 <= idx[k] < |products| && cats[k + 1] == products[idx[k]].category && FirstOfCategory(products, idx[k]))
      && (forall j, k :: 0 <= j < k < |idx| ==> idx[j] < idx[k])
  {
    var seen: seq<string> := [];
    ghost var idx: seq<int> := [];
    for i := 0 to |products|
      invariant Distinct(seen)
      invariant forall j :: 0 <= j < i ==> products[j].category in seen
      invariant |idx| == |seen|
      invariant forall k :: 0 <= k < |idx| ==>
        0 <= idx[k] < i && seen[k] == products[idx[k]].category && FirstOfCategory(products, idx[k])
      invariant forall j, k :: 0 <= j < k < |idx| ==> idx[j] < idx[k]
    {
      if products[i].category !in seen {
        seen := seen + [products[i].category];
        idx := idx + [i];
      }
    }
    cats := [AllChip] + seen;
    assert cats[1..] == seen;
  }

  /** The selected chip's products: all of them for "todos", otherwise
      those of the selected category, in order. */
  function Selected(products: seq<Product>, selected: string): (r: seq<Product>)
    ensures selected == AllChip ==> r == products
    ensures selected != AllChip ==> forall p :: p in r <==> p in products && p.category == selected
  {
    if selected == AllChip then products else KeepCategory(products, selected)
  }

  /** Under the product schema no category is "todos", so the first chip
      never doubles as a category chip. */
  lemma AllChipIsNotACategory(products: seq<Product>)
    requires forall i :: 0 <= i < |products| ==> IsCategory(products[i].category)
    ensures forall i :: 0 <= i < |products| ==> products[i].category != AllChip
  {
  }

  /** A chip built from a product's category never selects an empty
      list: that product is in it. */
  lemma CategoryChipSelectsItsProducts(products: seq<Product>, c: string)
    requires exists i :: 0 <= i < |products| && products[i].category == c
    ensures |Selected(products, c)| >= 1
  {
    var i :| 0 <= i < |products| && products[i].category == c;
    assert products[i] in Selected(products, c);
  }
}
