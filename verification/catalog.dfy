/**
 Order-preserving selection over a product listing, shared by the category
 filters of the home page (frontend/src/pages/Home.tsx) and the product
 list (frontend/src/pages/ProductList.tsx): `Array.prototype.filter`.
 */
module Catalog {
  import opened ProductSchema

  /** The products satisfying `keep`, in their original order. */
  function Keep(s: seq<Product>, keep: Product -> bool): (r: seq<Product>)
    ensures |r| <= |s|
    ensures forall i :: 0 <= i < |r| ==> keep(r[i]) && r[i] in s
    ensures forall i :: 0 <= i < |s| && keep(s[i]) ==> s[i] in r
  {
    if |s| == 0 then []
    else (if keep(s[0]) then [s[0]] else []) + Keep(s[1..], keep)
  }

  /** Filtering distributes over concatenation; with the one-element case
      (`Keep([x])` is `[x]` or `[]`) this fixes the order of the result. */
  lemma {:induction false} KeepAppend(a: seq<Product>, b: seq<Product>, keep: Product -> bool)
    ensures Keep(a + b, keep) == Keep(a, keep) + Keep(b, keep)
    decreases |a|
  {
    if |a| == 0 {
      assert a + b == b;
    } else {
      assert (a + b)[1..] == a[1..] + b;
      KeepAppend(a[1..], b, keep);
    }
  }

  /** A filter that keeps everything is the identity. */
  lemma {:induction false} KeepAll(s: seq<Product>, keep: Product -> bool)
    requires forall i :: 0 <= i < |s| ==> keep(s[i])
    ensures Keep(s, keep) == s
  {
    if |s| > 0 {
      KeepAll(s[1..], keep);
    }
  }

  /** Filtering twice by the same test is filtering once. */
  lemma {:induction false} KeepIdempotent(s: seq<Product>, keep: Product -> bool)
    ensures Keep(Keep(s, keep), keep) == Keep(s, keep)
  {
    KeepAll(Keep(s, keep), keep);
  }

  /** The test "belongs to category c". */
  function InCategory(c: string): Product -> bool {
    (p: Product) => p.category == c
  }

  /** `products.filter(p => p.category === c)`. */
  function KeepCategory(s: seq<Product>, c: string): (r: seq<Product>)
    ensures forall p :: p in r <==> p in s && p.category == c
  {
    Keep(s, InCategory(c))
  }

  /** The count of products with category c. */
  function CountCategory(s: seq<Product>, c: string): nat {
    if |s| == 0 then 0 else (if s[0].category == c then 1 else 0) + CountCategory(s[1..], c)
  }

  /** The category filter keeps exactly as many products as there are in
      the category: none is lost and none is repeated. */
  lemma {:induction false} KeepCategoryCount(s: seq<Product>, c: string)
    ensures |KeepCategory(s, c)| == CountCategory(s, c)
  {
    if |s| > 0 {
      KeepCategoryCount(s[1..], c);
    }
  }
}
