/**
 The product list page (frontend/src/pages/ProductList.tsx): sorting the
 fetched page, the category filter, and the URL query parameters the
 search box, the category selector and the pagination write.
 */
module ProductList {
  import opened Wrappers
  import opened Text
  import opened ProductSchema
  import opened Catalog

  /** The category selector's entry that keeps every product. */
  const AllCategories := "Todos"

  // ---------------------------------------------------------------------
  // Sorting
  // ---------------------------------------------------------------------

  /** The sort orders offered; "newest" and anything unrecognised keep the
      fetched order. */
  datatype SortKey = PriceAsc | PriceDesc | RatingDesc | Unsorted

  function ParseSortKey(s: string): (k: SortKey)
    ensures k == PriceAsc <==> s == "priceAsc"
    ensures k == PriceDesc <==> s == "priceDesc"
    ensures k == RatingDesc <==> s == "ratingDesc"
  {
    if s == "priceAsc" then PriceAsc
    else if s == "priceDesc" then PriceDesc
    else if s == "ratingDesc" then RatingDesc
    else Unsorted
  }

  /** Each comparator `(a, b) => key(a) - key(b)` orders by a real key,
      ascending: the price, the negated price, the negated rating. */
  function Key(k: SortKey): Product -> real {
    match k
    case PriceAsc => (p: Product) => p.price as real
    case PriceDesc => (p: Product) => -(p.price as real)
    case RatingDesc => (p: Product) => -p.rating
    case Unsorted => (p: Product) => 0.0
  }

  predicate SortedBy(s: seq<Product>, key: Product -> real) {
    forall i, j :: 0 <= i < j < |s| ==> key(s[i]) <= key(s[j])
  }

  /** Places `x` after every element whose key does not exceed its own, so
      that equal keys keep their arrival order. */
  function Insert(x: Product, s: seq<Product>, key: Product -> real): (r: seq<Product>)
    ensures multiset(r) == multiset(s) + multiset{x}
    ensures SortedBy(s, key) ==> SortedBy(r, key)
  {
    if |s| == 0 then [x]
    else if key(s[|s| - 1]) <= key(x) then s + [x]
    else
      var init := s[..|s| - 1];
      var last := s[|s| - 1];
      var r' := Insert(x, init, key);
      assert s == init + [last];
      InsertStep(x, init, last, key, r');
      r' + [last]
  }

  /** The recursive case of `Insert`: `x` was inserted into `init` giving
      `r'`, and goes before a last element whose key exceeds its own, so
      sortedness carries over. */
  lemma InsertStep(x: Product, init: seq<Product>, last: Product, key: Product -> real, r': seq<Product>)
    requires key(x) < key(last)
    requires multiset(r') == multiset(init) + multiset{x}
    requires SortedBy(init, key) ==> SortedBy(r', key)
    ensures SortedBy(init + [last], key) ==> SortedBy(r' + [last], key)
  {
    if SortedBy(init + [last], key) {
      var s := init + [last];
      forall i | 0 <= i < |init| ensures key(init[i]) <= key(last) {
        assert init[i] == s[i] && last == s[|init|];
      }
      forall i, j | 0 <= i < j < |init| ensures key(init[i]) <= key(init[j]) {
        assert init[i] == s[i] && init[j] == s[j];
      }
      PermutationBounded(init, x, key, key(last), r');
      SortedSnoc(r', last, key);
    }
  }

  /** A permutation of `s` plus `x` keeps every key at most `b` when `s`
      and `x` do. */
  lemma PermutationBounded(s: seq<Product>, x: Product, key: Product -> real, b: real, r: seq<Product>)
    requires forall i :: 0 <= i < |s| ==> key(s[i]) <= b
    requires key(x) <= b
    requires multiset(r) == multiset(s) + multiset{x}
    ensures forall i :: 0 <= i < |r| ==> key(r[i]) <= b
  {
    forall i | 0 <= i < |r| ensures key(r[i]) <= b {
      assert r[i] in multiset(r);
      if r[i] != x {
        assert r[i] in multiset(s);
        var j :| 0 <= j < |s| && s[j] == r[i];
      }
    }
  }

  /** Appending an element no smaller than every key keeps a list sorted. */
  lemma SortedSnoc(s: seq<Product>, y: Product, key: Product -> real)
    requires SortedBy(s, key)
    requires forall i :: 0 <= i < |s| ==> key(s[i]) <= key(y)
    ensures SortedBy(s + [y], key)
  {
  }

  /** A stable insertion sort by `key`: JavaScript's `Array.prototype.sort`
      is stable. */
  function SortBy(s: seq<Product>, key: Product -> real): (r: seq<Product>)
    ensures multiset(r) == multiset(s)
    ensures SortedBy(r, key)
  {
    if |s| == 0 then []
    else
      assert s == s[..|s| - 1] + [s[|s| - 1]];
      Insert(s[|s| - 1], SortBy(s[..|s| - 1], key), key)
  }

  /** `getSortedProducts`: a sorted copy for the three known keys, the
      fetched order otherwise. */
  function SortedProducts(products: seq<Product>, sortBy: string): (r: seq<Product>)
    ensures multiset(r) == multiset(products)
    ensures sortBy == "priceAsc" ==> forall i, j :: 0 <= i < j < |r| ==> r[i].price <= r[j].price
    ensures sortBy == "priceDesc" ==> forall i, j :: 0 <= i < j < |r| ==> r[i].price >= r[j].price
    ensures sortBy == "ratingDesc" ==> forall i, j :: 0 <= i < j < |r| ==> r[i].rating >= r[j].rating
    ensures ParseSortKey(sortBy) == Unsorted ==> r == products
  {
    var k := ParseSortKey(sortBy);
    if k == Unsorted then products
    else
      var r := SortBy(products, Key(k));
      assert SortedBy(r, Key(k));
      r
  }

  /** The test "has this key". */
  function HasKey(key: Product -> real, v: real): Product -> bool {
    (p: Product) => key(p) == v
  }

  /** Inserting into a sorted sequence appends `x` to its own key class and
      leaves every other class as it was. */
  lemma {:induction false} InsertStable(x: Product, s: seq<Product>, key: Product -> real, v: real)
    ensures Keep(Insert(x, s, key), HasKey(key, v)) == Keep(s, HasKey(key, v)) + Keep([x], HasKey(key, v))
  {
    var hv := HasKey(key, v);
    if |s| == 0 {
      assert Insert(x, s, key) == [x];
    } else if key(s[|s| - 1]) <= key(x) {
      KeepAppend(s, [x], hv);
    } else {
      var p, last := s[..|s| - 1], s[|s| - 1];
      assert s == p + [last];
      InsertStable(x, p, key, v);
      KeepAppend(Insert(x, p, key), [last], hv);
      KeepAppend(p, [last], hv);
      // x and last have different keys, so at most one of them is kept.
      assert Keep([x], hv) == [] || Keep([last], hv) == [];
    }
  }

  /** The sort is stable: the products sharing any one key value come out
      in the order they came in. With sortedness and the multiset equality
      this determines the result completely. */
  lemma {:induction false} SortByStable(s: seq<Product>, key: Product -> real, v: real)
    ensures Keep(SortBy(s, key), HasKey(key, v)) == Keep(s, HasKey(key, v))
  {
    if |s| > 0 {
      var p, last := s[..|s| - 1], s[|s| - 1];
      assert s == p + [last];
      SortByStable(p, key, v);
      InsertStable(last, SortBy(p, key), key, v);
      KeepAppend(p, [last], HasKey(key, v));
    }
  }

  /** Two products with the same price keep their relative order under
      either price sort; two with the same rating under the rating sort. */
  lemma EqualKeysKeepOrder(products: seq<Product>, k: SortKey, v: real)
    requires k != Unsorted
    ensures Keep(SortedProducts(products, SortKeyName(k)), HasKey(Key(k), v)) == Keep(products, HasKey(Key(k), v))
  {
    SortByStable(products, Key(k), v);
  }

  function SortKeyName(k: SortKey): (s: string)
    ensures ParseSortKey(s) == k || k == Unsorted
  {
    match k
    case PriceAsc => "priceAsc"
    case PriceDesc => "priceDesc"
    case RatingDesc => "ratingDesc"
    case Unsorted => "newest"
  }

  // ---------------------------------------------------------------------
  // Category filter
  // ---------------------------------------------------------------------

  /** "Todos" keeps the sorted list; any other selection keeps the products
      whose category equals the selection in lower case, in order. */
  function FilteredProducts(sorted: seq<Product>, category: string): (r: seq<Product>)
    ensures category == AllCategories ==> r == sorted
    ensures category != AllCategories ==>
      forall p :: p in r <==> p in sorted && p.category == ToLower(category)
  {
    if category == AllCategories then sorted else KeepCategory(sorted, ToLower(category))
  }

  /** A selector entry that is already lower case selects its own
      category. */
  lemma LowerCaseSelection(sorted: seq<Product>, category: string)
    requires category != AllCategories
    requires forall i :: 0 <= i < |category| ==> !('A' <= category[i] <= 'Z')
    ensures FilteredProducts(sorted, category) == KeepCategory(sorted, category)
  {
    ToLowerIdentity(category);
  }

  // ---------------------------------------------------------------------
  // URL query parameters
  // ---------------------------------------------------------------------

  /** A query string as its ordered name/value pairs. */
  type Params = seq<(string, string)>

  /** `URLSearchParams.get`: the first value under the name. */
  function GetParam(ps: Params, name: string): (r: Option<string>)
    ensures r.None? <==> forall i :: 0 <= i < |ps| ==> ps[i].0 != name
    ensures r.Some? ==> exists i :: 0 <= i < |ps| && ps[i] == (name, r.value)
  {
    if |ps| == 0 then None
    else if ps[0].0 == name then Some(ps[0].1)
    else GetParam(ps[1..], name)
  }

  /** The pairs under any other name, in order. */
  function Without(ps: Params, name: string): (r: Params)
    ensures forall i :: 0 <= i < |r| ==> r[i].0 != name && r[i] in ps
  {
    if |ps| == 0 then []
    else (if ps[0].0 == name then [] else [ps[0]]) + Without(ps[1..], name)
  }

  /** `URLSearchParams.set`: the first pair under the name takes the value
      and later ones are dropped; with none, the pair is appended. */
  function SetParam(ps: Params, name: string, value: string): (r: Params)
  {
    if |ps| == 0 then [(name, value)]
    else if ps[0].0 == name then [(name, value)] + Without(ps[1..], name)
    else [ps[0]] + SetParam(ps[1..], name, value)
  }

  /** After a set, the name reads back the value, it occurs once, and the
      pairs under every other name are exactly those before, in the same
      order. */
  lemma {:induction false} SetParamSpec(ps: Params, name: string, value: string)
    ensures GetParam(SetParam(ps, name, value), name) == Some(value)
    ensures Without(SetParam(ps, name, value), name) == Without(ps, name)
    ensures |SetParam(ps, name, value)| == |Without(ps, name)| + 1
  {
    if |ps| > 0 {
      if ps[0].0 == name {
        WithoutTwice(ps[1..], name);
      } else {
        SetParamSpec(ps[1..], name, value);
      }
    }
  }

  lemma {:induction false} WithoutTwice(ps: Params, name: string)
    ensures Without(Without(ps, name), name) == Without(ps, name)
  {
    WithoutAbsent(Without(ps, name), name);
  }

  /** Removing a name that does not occur changes nothing. */
  lemma {:induction false} WithoutAbsent(ps: Params, name: string)
    requires forall i :: 0 <= i < |ps| ==> ps[i].0 != name
    ensures Without(ps, name) == ps
  {
    if |ps| > 0 {
      WithoutAbsent(ps[1..], name);
    }
  }

  /** Reading another name is unaffected by a set. */
  lemma {:induction false} SetParamOtherNames(ps: Params, name: string, value: string, other: string)
    requires other != name
    ensures GetParam(SetParam(ps, name, value), other) == GetParam(ps, other)
  {
    if |ps| > 0 {
      if ps[0].0 == name {
        WithoutKeepsOthers(ps[1..], name, other);
      } else {
        SetParamOtherNames(ps[1..], name, value, other);
      }
    }
  }

  lemma {:induction false} WithoutKeepsOthers(ps: Params, name: string, other: string)
    requires other != name
    ensures GetParam(Without(ps, name), other) == GetParam(ps, other)
  {
    if |ps| > 0 {
      var rest := Without(ps[1..], name);
      WithoutKeepsOthers(ps[1..], name, other);
      if ps[0].0 == name {
        assert Without(ps, name) == rest;
      } else {
        assert Without(ps, name) == [ps[0]] + rest;
        assert ([ps[0]] + rest)[1..] == rest;
      }
    }
  }

  /** The page number the effect requests: `parseInt(get("page") || "1")`;
      None stands for NaN. An absent or empty page parameter asks for page
      1; any other value is read by `parseInt`. */
  function RequestedPage(ps: Params): (r: Option<int>)
    ensures GetParam(ps, "page") == None || GetParam(ps, "page") == Some("") ==> r == Some(1)
    ensures GetParam(ps, "page").Some? && GetParam(ps, "page").value != "" ==>
      r == ParseInt(GetParam(ps, "page").value)
  {
    PageOneParses();
    ParseInt(OrElse(GetParam(ps, "page"), "1"))
  }

  /** A hexadecimal page parameter is read in base 16, and a bare "0x" is
      NaN. */
  lemma HexPageRequested(ps: Params)
    ensures GetParam(ps, "page") == Some("0x2") ==> RequestedPage(ps) == Some(2)
    ensures GetParam(ps, "page") == Some("0x") ==> RequestedPage(ps) == None
  {
    HexEmptyRuns();
    HexNegativeTwo();
    assert "0x2"[0..] == "0x2" && "0x2"[2..] == "2" && TextStart("0x2", 0) == 0;
    assert DigitPrefix("2", 16) == "2";
  }

  /** The keyword the effect requests: `get("keyword") || ""`. */
  function RequestedKeyword(ps: Params): string {
    OrElse(GetParam(ps, "keyword"), "")
  }

  /** The list page's own state besides the URL; the current page is
      `None` when `parseInt` gave NaN. */
  datatype ListState = ListState(category: string, currentPage: Option<int>, sortBy: string)

  const InitialCategory := AllCategories
  const InitialSort := "newest"

  /** The state the page starts in: every category, the page the URL asks
      for, and the fetched order. */
  function InitialListState(ps: Params): (st: ListState)
    ensures st.currentPage == RequestedPage(ps)
    ensures forall products :: FilteredProducts(SortedProducts(products, st.sortBy), st.category) == products
  {
    ListState(InitialCategory, RequestedPage(ps), InitialSort)
  }

  /** `handleSearch`: a fresh query holding the trimmed keyword when it is
      not empty, and page "1"; the page state resets to 1. */
  function HandleSearch(st: ListState, searchTerm: string): (r: (ListState, Params))
    ensures r.0 == st.(currentPage := Some(1))
    ensures GetParam(r.1, "page") == Some("1")
    ensures Trim(searchTerm) != "" ==> r.1 == [("keyword", Trim(searchTerm)), ("page", "1")]
    ensures Trim(searchTerm) == "" ==> r.1 == [("page", "1")]
  {
    var query := if Trim(searchTerm) != "" then [("keyword", Trim(searchTerm))] else [];
    SetParamSpec(query, "page", "1");
    (st.(currentPage := Some(1)), SetParam(query, "page", "1"))
  }

  /** `handleCategoryChange`: the selection changes, the page state resets
      to 1, and the query's page becomes "1" with the rest kept. */
  function HandleCategoryChange(st: ListState, ps: Params, category: string): (r: (ListState, Params))
    ensures r.0 == st.(category := category, currentPage := Some(1))
    ensures r.1 == SetParam(ps, "page", "1")
  {
    (st.(category := category, currentPage := Some(1)), SetParam(ps, "page", "1"))
  }

  /** `handlePageChange`: the chosen page, written in decimal. */
  function HandlePageChange(st: ListState, ps: Params, value: int): (r: (ListState, Params))
    ensures r.0 == st.(currentPage := Some(value))
    ensures r.1 == SetParam(ps, "page", IntToString(value))
  {
    (st.(currentPage := Some(value)), SetParam(ps, "page", IntToString(value)))
  }

  /** `parseInt("1")` is 1. */
  lemma PageOneParses()
    ensures ParseInt("1") == Some(1)
  {
    ParseIntOfIntToString(1);
    assert IntToString(1) == "1";
  }

  /** Setting the page leaves it readable and the keyword as it was. */
  lemma SetPageKeepsKeyword(ps: Params, page: string)
    ensures GetParam(SetParam(ps, "page", page), "page") == Some(page)
    ensures RequestedKeyword(SetParam(ps, "page", page)) == RequestedKeyword(ps)
  {
    SetParamSpec(ps, "page", page);
    SetParamOtherNames(ps, "page", page, "keyword");
  }

  lemma SearchRequestsFirstPage(st: ListState, term: string)
    ensures RequestedPage(HandleSearch(st, term).1) == Some(1)
    ensures RequestedKeyword(HandleSearch(st, term).1) == Trim(term)
  {
    PageOneParses();
  }

  lemma PageChangeRequestsChosenPage(st: ListState, ps: Params, value: int)
    ensures RequestedPage(HandlePageChange(st, ps, value).1) == Some(value)
    ensures RequestedKeyword(HandlePageChange(st, ps, value).1) == RequestedKeyword(ps)
  {
    SetPageKeepsKeyword(ps, IntToString(value));
    ParseIntOfIntToString(value);
  }

  /** The effect after each handler requests the page the handler meant,
      which is also the page the state now holds, and the category and
      page changes keep the keyword. */
  lemma HandlersRequestTheirPage(st: ListState, ps: Params, term: string, category: string, value: int)
    ensures RequestedPage(HandleSearch(st, term).1) == Some(1)
    ensures RequestedKeyword(HandleSearch(st, term).1) == Trim(term)
    ensures RequestedPage(HandleCategoryChange(st, ps, category).1) == Some(1)
    ensures RequestedKeyword(HandleCategoryChange(st, ps, category).1) == RequestedKeyword(ps)
    ensures RequestedPage(HandlePageChange(st, ps, value).1) == Some(value)
    ensures RequestedKeyword(HandlePageChange(st, ps, value).1) == RequestedKeyword(ps)
    ensures HandleSearch(st, term).0.currentPage == RequestedPage(HandleSearch(st, term).1)
    ensures HandleCategoryChange(st, ps, category).0.currentPage == RequestedPage(HandleCategoryChange(st, ps, category).1)
    ensures HandlePageChange(st, ps, value).0.currentPage == RequestedPage(HandlePageChange(st, ps, value).1)
  {
    SearchRequestsFirstPage(st, term);
    SetPageKeepsKeyword(ps, "1");
    PageOneParses();
    PageChangeRequestsChosenPage(st, ps, value);
  }

  /** An absent page parameter requests page 1. */
  lemma AbsentPageIsOne(ps: Params)
    requires forall i :: 0 <= i < |ps| ==> ps[i].0 != "page"
    ensures RequestedPage(ps) == Some(1)
  {
    PageOneParses();
  }

  /** The pagination control is shown only for more than one page. */
  predicate ShowPagination(pages: int) {
    pages > 1
  }
}
