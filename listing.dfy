/** `getAllProducts`: the filter and sort built from the query string, the
    filtered (and possibly price-sorted) listing, its page, its page count and
    the cheapest and dearest price among all matching products. */
module Listing {
  import opened Wrappers
  import opened Products
  import opened Pagination

  /** The query parameters the listing reads. An absent or empty parameter is `None`. */
  datatype ListQuery = ListQuery(
    price: Option<int>,
    brand: Option<string>,
    category: Option<string>,
    sort: Option<int>,
    page: Option<int>)

  /** The store filter: each present field is one constraint. */
  datatype Filter = Filter(maxPrice: Option<int>, brand: Option<Id>, category: Option<Id>)

  /** The store sort: none, `{price: 1}` or `{price: -1}`. */
  datatype Sorting = Natural | Ascending | Descending

  /** What the store does with a filter: every present constraint holds. */
  predicate Matches(f: Filter, p: Product) {
    && (f.maxPrice.Some? ==> p.price <= f.maxPrice.value)
    && (f.brand.Some? ==> p.brand == f.brand.value)
    && (f.category.Some? ==> p.category == f.category.value)
  }

  /** A brand or category parameter narrows the listing when it is given, non-empty and not "all". */
  predicate Narrows(v: Option<string>) {
    v.Some? && v.value != "" && v.value != "all"
  }

  /** What the request asks for, stated on the query itself: a price bound when the
      price is given and nonzero, an exact brand and category when those narrow. */
  predicate Admits(q: ListQuery, p: Product) {
    && (q.price.Some? && q.price.value != 0 ==> p.price <= q.price.value)
    && (Narrows(q.brand) ==> p.brand == q.brand.value)
    && (Narrows(q.category) ==> p.category == q.category.value)
  }

  /** Lines 12-25: fill the filter and the sorting field by field. */
  method BuildQuery(q: ListQuery) returns (filter: Filter, sorting: Sorting)
    ensures filter.maxPrice.Some? <==> q.price.Some? && q.price.value != 0
    ensures filter.maxPrice.Some? ==> filter.maxPrice.value == q.price.value
    ensures filter.brand.Some? <==> Narrows(q.brand)
    ensures filter.brand.Some? ==> filter.brand.value == q.brand.value
    ensures filter.category.Some? <==> Narrows(q.category)
    ensures filter.category.Some? ==> filter.category.value == q.category.value
    ensures forall p :: Matches(filter, p) <==> Admits(q, p)
    ensures sorting == Ascending <==> q.sort == Some(1)
    ensures sorting == Descending <==> q.sort == Some(-1)
  {
    filter := Filter(None, None, None);
    sorting := Natural;
    if q.price.Some? && q.price.value != 0 {
      filter := filter.(maxPrice := Some(q.price.value));
    }
    if q.brand.Some? && q.brand.value != "" && q.brand.value != "all" {
      filter := filter.(brand := Some(q.brand.value));
    }
    if q.category.Some? && q.category.value != "" && q.category.value != "all" {
      filter := filter.(category := Some(q.category.value));
    }
    if q.sort == Some(-1) || q.sort == Some(1) {
      sorting := if q.sort == Some(1) then Ascending else Descending;
    }
  }

  /** `Product.find(filter)` in the store's natural order. */
  function Select(data: seq<Product>, f: Filter): (r: seq<Product>)
    ensures |r| <= |data|
    ensures forall p :: p in r <==> p in data && Matches(f, p)
  {
    if data == [] then []
    else (if Matches(f, data[0]) then [data[0]] else []) + Select(data[1..], f)
  }

  /** The products the request asks for, in natural order: the reference the listing is proved against. */
  ghost function Admitted(q: ListQuery, data: seq<Product>): seq<Product>
  {
    if data == [] then []
    else (if Admits(q, data[0]) then [data[0]] else []) + Admitted(q, data[1..])
  }

  /** A filter that agrees with the request on every product selects exactly what the request admits. */
  lemma {:induction false} SelectAdmitted(data: seq<Product>, f: Filter, q: ListQuery)
    requires forall p :: Matches(f, p) <==> Admits(q, p)
    ensures Select(data, f) == Admitted(q, data)
  {
    if data != [] {
      SelectAdmitted(data[1..], f, q);
    }
  }

  /** The price as the sort direction sees it: smaller keys come first. */
  function SortKey(p: Product, ascending: bool): int {
    if ascending then p.price else -p.price
  }

  /** `a` may stand before `b` in the given direction. */
  predicate InOrder(ascending: bool, a: Product, b: Product) {
    SortKey(a, ascending) <= SortKey(b, ascending)
  }

  predicate SortedBy(s: seq<Product>, ascending: bool) {
    forall i, j :: 0 <= i < j < |s| ==> InOrder(ascending, s[i], s[j])
  }

  /** Insert `x` before the first element it may precede. */
  function Insert(x: Product, s: seq<Product>, ascending: bool): (r: seq<Product>)
    ensures multiset(r) == multiset(s) + multiset{x}
  {
    if s == [] then [x]
    else if InOrder(ascending, x, s[0]) then [x] + s
    else
      assert s == [s[0]] + s[1..];
      [s[0]] + Insert(x, s[1..], ascending)
  }

  lemma {:induction false} InsertSorted(x: Product, s: seq<Product>, ascending: bool)
    requires SortedBy(s, ascending)
    ensures SortedBy(Insert(x, s, ascending), ascending)
  {
    if s == [] {
    } else if InOrder(ascending, x, s[0]) {
      assert forall k :: 0 < k < |s| ==> InOrder(ascending, s[0], s[k]);
    } else {
      var rest := Insert(x, s[1..], ascending);
      InsertSorted(x, s[1..], ascending);
      assert s == [s[0]] + s[1..];
      forall k | 0 <= k < |rest| ensures InOrder(ascending, s[0], rest[k]) {
        assert rest[k] in multiset(rest);
        if rest[k] != x {
          assert rest[k] in s[1..];
          var j :| 0 <= j < |s[1..]| && s[1..][j] == rest[k];
          assert s[j + 1] == rest[k];
        }
      }
      assert Insert(x, s, ascending) == [s[0]] + rest;
    }
  }

  /** `.sort({price: 1})` or `.sort({price: -1})`; products of equal price keep their natural order. */
  function SortByPrice(s: seq<Product>, ascending: bool): (r: seq<Product>)
    ensures multiset(r) == multiset(s)
    ensures SortedBy(r, ascending)
  {
    if s == [] then []
    else
      assert s == [s[0]] + s[1..];
      var rest := SortByPrice(s[1..], ascending);
      InsertSorted(s[0], rest, ascending);
      Insert(s[0], rest, ascending)
  }

  /** The listing in the order the sorting asks for. */
  function Arrange(s: seq<Product>, sorting: Sorting): (r: seq<Product>)
    ensures multiset(r) == multiset(s)
    ensures sorting == Ascending ==> SortedBy(r, true)
    ensures sorting == Descending ==> SortedBy(r, false)
    ensures sorting == Natural ==> r == s
  {
    match sorting
    case Natural => s
    case Ascending => SortByPrice(s, true)
    case Descending => SortByPrice(s, false)
  }

  /** `.limit(1).then(data => data[0] ? data[0].price : 0)`. */
  function FirstPriceOrZero(s: seq<Product>): int
  {
    if s == [] then 0 else s[0].price
  }

  /** In a price-sorted list every element lies between the first and the last. */
  lemma SortedEnds(s: seq<Product>, ascending: bool)
    requires SortedBy(s, ascending)
    ensures forall p :: p in s ==> InOrder(ascending, s[0], p) && InOrder(ascending, p, s[|s| - 1])
  {
    forall p | p in s ensures InOrder(ascending, s[0], p) && InOrder(ascending, p, s[|s| - 1]) {
      var j :| 0 <= j < |s| && s[j] == p;
      if 0 < j { assert InOrder(ascending, s[0], s[j]); }
      if j < |s| - 1 { assert InOrder(ascending, s[j], s[|s| - 1]); }
    }
  }

  /** The two limit-1 queries of lines 45-54 give the least and the greatest
      price of the matching products, and 0 for both when nothing matches. */
  lemma PriceBounds(s: seq<Product>)
    ensures var lo, hi := FirstPriceOrZero(SortByPrice(s, true)), FirstPriceOrZero(SortByPrice(s, false));
      && (forall p :: p in s ==> lo <= p.price <= hi)
      && (s != [] ==> (exists p :: p in s && p.price == lo) && (exists p :: p in s && p.price == hi))
      && (s == [] ==> lo == 0 && hi == 0)
  {
    var up, down := SortByPrice(s, true), SortByPrice(s, false);
    assert forall p :: p in s <==> p in multiset(s);
    assert forall p :: p in up <==> p in multiset(up);
    assert forall p :: p in down <==> p in multiset(down);
    if s != [] {
      assert |up| == |multiset(s)| == |down|;
      SortedEnds(up, true);
      SortedEnds(down, false);
      assert up[0] in up && down[0] in down;
    }
  }

  /** Had the branch of lines 38-40 run on an ascending sort, the first and last
      records would have given the same minimum and maximum price. */
  lemma SortedEndsAgree(s: seq<Product>)
    requires SortedBy(s, true) && s != []
    ensures FirstPriceOrZero(SortByPrice(s, true)) == s[0].price
    ensures FirstPriceOrZero(SortByPrice(s, false)) == s[|s| - 1].price
  {
    PriceBounds(s);
    SortedEnds(s, true);
    assert s[0] in s && s[|s| - 1] in s;
  }

  /** Had the branch of lines 41-43 run on a descending sort, the first record would
      have given the maximum and the last the minimum, as the limit-1 queries do. */
  lemma SortedEndsAgreeDescending(s: seq<Product>)
    requires SortedBy(s, false) && s != []
    ensures FirstPriceOrZero(SortByPrice(s, false)) == s[0].price
    ensures FirstPriceOrZero(SortByPrice(s, true)) == s[|s| - 1].price
  {
    PriceBounds(s);
    SortedEnds(s, false);
    assert s[0] in s && s[|s| - 1] in s;
  }

  /** A price-sorted listing stays in order within each page and across the
      boundary between one page and the next. */
  lemma SortedPagesInOrder(s: seq<Product>, ascending: bool, page: int)
    requires SortedBy(s, ascending) && page >= 1
    ensures SortedBy(PageOf(s, Some(page)), ascending)
    ensures forall a, b :: a in PageOf(s, Some(page)) && b in PageOf(s, Some(page + 1)) ==> InOrder(ascending, a, b)
  {
    PageWindow(s, page);
    PageWindow(s, page + 1);
    var start := (page - 1) * PageSize;
    var lo, mid, hi := Min(start, |s|), Min(start + PageSize, |s|), Min(start + 2 * PageSize, |s|);
    assert page * PageSize == start + PageSize;
    assert PageOf(s, Some(page)) == s[lo..mid];
    assert PageOf(s, Some(page + 1)) == s[mid..hi];
    SliceOrder(s, ascending, lo, mid, hi);
  }

  /** Two adjacent slices of a sorted list: each sorted, the first before the second. */
  lemma SliceOrder(s: seq<Product>, ascending: bool, lo: nat, mid: nat, hi: nat)
    requires SortedBy(s, ascending) && lo <= mid <= hi <= |s|
    ensures SortedBy(s[lo..mid], ascending)
    ensures forall a, b :: a in s[lo..mid] && b in s[mid..hi] ==> InOrder(ascending, a, b)
  {
    forall a, b | a in s[lo..mid] && b in s[mid..hi] ensures InOrder(ascending, a, b) {
      var i :| lo <= i < mid && s[i] == a;
      var j :| mid <= j < hi && s[j] == b;
    }
  }

  /** The response of `getAllProducts`. */
  datatype ListResult = ListResult(data: seq<Product>, totalPages: nat, minPrice: int, maxPrice: int)

  /** The admitted products are exactly the products the request admits. */
  lemma {:induction false} AdmittedMembers(q: ListQuery, data: seq<Product>)
    ensures forall p :: p in Admitted(q, data) <==> p in data && Admits(q, p)
  {
    if data != [] {
      AdmittedMembers(q, data[1..]);
      assert data == [data[0]] + data[1..];
    }
  }

  /** `getAllProducts` over the product collection `data` in natural order. */
  method ListProducts(data: seq<Product>, q: ListQuery) returns (r: ListResult)
    ensures var admitted := Admitted(q, data);
      && r.totalPages == TotalPages(|admitted|)
      && (q.sort == Some(1) ==> r.data == PageOf(SortByPrice(admitted, true), q.page))
      && (q.sort == Some(-1) ==> r.data == PageOf(SortByPrice(admitted, false), q.page))
      && (q.sort != Some(1) && q.sort != Some(-1) ==> r.data == PageOf(admitted, q.page))
      && (forall p :: p in r.data ==> p in admitted)
      && (forall p :: p in admitted ==> r.minPrice <= p.price <= r.maxPrice)
      && (admitted != [] ==>
            (exists p :: p in admitted && p.price == r.minPrice) &&
            (exists p :: p in admitted && p.price == r.maxPrice))
      && (admitted == [] ==> r.minPrice == 0 && r.maxPrice == 0)
    ensures |r.data| <= PageSize
  {
    var filter, sorting := BuildQuery(q);
    var matching := Select(data, filter);
    SelectAdmitted(data, filter, q);
    var found := Arrange(matching, sorting);
    var pageData := PageOf(found, q.page);
    var totalPages := TotalPages(|found|);
    // The sorted branch of lines 38-43 compares a query-string value with a number
    // using `===` and never runs; both prices come from the limit-1 queries.
    var minPrice := FirstPriceOrZero(SortByPrice(matching, true));
    var maxPrice := FirstPriceOrZero(SortByPrice(matching, false));
    PriceBounds(matching);
    forall p | p in pageData ensures p in matching {
      PageIsPart(found, q.page, p);
      assert p in multiset(found);
    }
    assert |found| == |matching| by {
      assert |multiset(found)| == |multiset(matching)|;
    }
    r := ListResult(pageData, totalPages, minPrice, maxPrice);
  }

  /** Every element of a page belongs to the paged data. */
  lemma PageIsPart(data: seq<Product>, page: Option<int>, p: Product)
    requires p in PageOf(data, page)
    ensures p in data
  {
    var p' := page.GetOr(1);
    var from, to := SliceIndex((p' - 1) * PageSize, |data|), SliceIndex((p' - 1) * PageSize + PageSize, |data|);
    assert from < to;
    var k :| 0 <= k < to - from && data[from..to][k] == p;
    assert data[from + k] == p;
  }
}
