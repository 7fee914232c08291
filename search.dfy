/** `searchForProduct`: keep the products whose name, category name or brand name
    contains the search text, ignoring case, then paginate as the listing does. */
module Search {
  import opened Wrappers
  import opened Products
  import opened Pagination

  /** ASCII lower-casing of one character. */
  function Lower(c: char): (r: char)
    ensures 'A' <= c <= 'Z' ==> 'a' <= r <= 'z' && r as int - c as int == 32
    ensures !('A' <= c <= 'Z') ==> r == c
  {
    if 'A' <= c <= 'Z' then (c as int + 32) as char else c
  }

  /** Two characters are equal when case is ignored. */
  predicate SameLetter(a: char, b: char) {
    Lower(a) == Lower(b)
  }

  /** `text` has `pattern` at position `i`, ignoring case. */
  predicate OccursAt(text: string, pattern: string, i: nat)
    requires i + |pattern| <= |text|
  {
    forall k :: 0 <= k < |pattern| ==> SameLetter(text[i + k], pattern[k])
  }

  /** The case-insensitive match `new RegExp(pattern, "i").test(text)`, for a
      pattern without regular-expression metacharacters. */
  predicate ContainsIgnoringCase(text: string, pattern: string) {
    exists i: nat :: i + |pattern| <= |text| && OccursAt(text, pattern, i)
  }

  /** Example: "red" is found in "Red Chair". */
  lemma RedChair()
    ensures ContainsIgnoringCase("Red Chair", "red")
  {
    assert OccursAt("Red Chair", "red", 0);
  }

  /** The empty pattern, which is what `new RegExp(undefined)` means, matches every text. */
  lemma EmptyPatternMatches(text: string)
    ensures ContainsIgnoringCase(text, "")
  {
    assert OccursAt(text, "", 0);
  }

  /** The filter callback of lines 86-89 for one product. The `||` stops at the first
      match; a reference that populated to null fails only when the callback reaches it. */
  function Hit(p: Product, brands: map<Id, RefList>, categories: map<Id, RefList>, pattern: string): (r: Result<bool>)
    ensures r.Err? <==>
      !ContainsIgnoringCase(p.name, pattern) &&
      (p.category !in categories ||
       (!ContainsIgnoringCase(categories[p.category].name, pattern) && p.brand !in brands))
    ensures r == Ok(true) <==>
      || ContainsIgnoringCase(p.name, pattern)
      || (p.category in categories && ContainsIgnoringCase(categories[p.category].name, pattern))
      || (p.category in categories && p.brand in brands && ContainsIgnoringCase(brands[p.brand].name, pattern))
  {
    if ContainsIgnoringCase(p.name, pattern) then Ok(true)
    else if p.category !in categories then Err(UnresolvedReference)
    else if ContainsIgnoringCase(categories[p.category].name, pattern) then Ok(true)
    else if p.brand !in brands then Err(UnresolvedReference)
    else Ok(ContainsIgnoringCase(brands[p.brand].name, pattern))
  }

  /** The hits of `data`, in their original order and each occurrence kept: the
      reference the search is proved against. */
  ghost function Hits(data: seq<Product>, brands: map<Id, RefList>, categories: map<Id, RefList>, pattern: string): seq<Product>
  {
    if data == [] then []
    else (if Hit(data[0], brands, categories, pattern) == Ok(true) then [data[0]] else [])
         + Hits(data[1..], brands, categories, pattern)
  }

  /** A product is among the hits iff it is in the collection and is a hit. */
  lemma {:induction false} HitsMembers(data: seq<Product>, brands: map<Id, RefList>, categories: map<Id, RefList>, pattern: string)
    ensures forall p :: p in Hits(data, brands, categories, pattern) <==>
      p in data && Hit(p, brands, categories, pattern) == Ok(true)
  {
    if data != [] {
      HitsMembers(data[1..], brands, categories, pattern);
      assert data == [data[0]] + data[1..];
    }
  }

  /** `data.filter(...)`: the hits in their original order, or the first error thrown. */
  function Keep(data: seq<Product>, brands: map<Id, RefList>, categories: map<Id, RefList>, pattern: string): (r: Result<seq<Product>>)
    ensures r.Ok? <==> forall i :: 0 <= i < |data| ==> Hit(data[i], brands, categories, pattern).Ok?
    ensures r.Ok? ==> r.value == Hits(data, brands, categories, pattern)
    ensures r.Ok? ==> |r.value| <= |data|
  {
    if data == [] then Ok([])
    else
      var rest := Keep(data[1..], brands, categories, pattern);
      assert forall i :: 0 < i < |data| ==> data[i] == data[1..][i - 1];
      match Hit(data[0], brands, categories, pattern)
      case Err(e) => Err(e)
      case Ok(hit) =>
        if rest.Err? then rest
        else Ok((if hit then [data[0]] else []) + rest.value)
  }

  /** With no search text every product is kept, in order, whatever its references. */
  lemma {:induction false} EmptySearchKeepsAll(data: seq<Product>, brands: map<Id, RefList>, categories: map<Id, RefList>)
    ensures Keep(data, brands, categories, "") == Ok(data)
  {
    if data != [] {
      EmptyPatternMatches(data[0].name);
      EmptySearchKeepsAll(data[1..], brands, categories);
      assert Hit(data[0], brands, categories, "") == Ok(true);
      assert [data[0]] + data[1..] == data;
    }
  }

  /** The response of `searchForProduct`. */
  datatype SearchResult = SearchResult(data: seq<Product>, totalPages: nat)

  /** `searchForProduct` over the product collection `data` in natural order;
      an absent search text builds the empty pattern. */
  function SearchProducts(data: seq<Product>, brands: map<Id, RefList>, categories: map<Id, RefList>,
                          search: Option<string>, page: Option<int>): (r: Result<SearchResult>)
    ensures r.Ok? <==> forall i :: 0 <= i < |data| ==> Hit(data[i], brands, categories, search.GetOr("")).Ok?
    ensures var hits := Hits(data, brands, categories, search.GetOr(""));
      r.Ok? ==> r.value.totalPages == TotalPages(|hits|) && r.value.data == PageOf(hits, page)
    ensures r.Ok? ==> |r.value.data| <= PageSize
  {
    match Keep(data, brands, categories, search.GetOr(""))
    case Err(e) => Err(e)
    case Ok(kept) => Ok(SearchResult(PageOf(kept, page), TotalPages(|kept|)))
  }
}
