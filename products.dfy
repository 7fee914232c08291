/** The product record and the helpers the add and update paths use to build it. */
module Products {
  import opened Wrappers

  /** A document identifier (a MongoDB ObjectId, compared by its string form). */
  type Id = string

  /** One entry of a product's `images`: the stored path of an uploaded file. */
  datatype Image = Image(src: string)

  /** A file as the upload middleware hands it to the controller. */
  datatype UploadedFile = UploadedFile(path: string)

  /** A product document (models/productSchema.js). Prices are whole numbers here. */
  datatype Product = Product(
    id: Id,
    name: string,
    description: string,
    price: int,
    images: seq<Image>,
    colors: seq<string>,
    discount: int,
    stock: int,
    category: Id,
    brand: Id)

  /** A Brand or a Category document: its name and its list of product ids
      (`products` for a brand, `products_id` for a category). */
  datatype RefList = RefList(name: string, ids: seq<Id>)

  /** A product with its `brand` and `category` populated; a dangling reference populates to null. */
  datatype Populated = Populated(product: Product, brand: Option<RefList>, category: Option<RefList>)

  function Lookup(m: map<Id, RefList>, key: Id): (r: Option<RefList>)
    ensures r.Some? <==> key in m
    ensures r.Some? ==> r.value == m[key]
  {
    if key in m then Some(m[key]) else None
  }

  /** No value occurs twice. */
  predicate NoDuplicates(s: seq<string>) {
    forall x :: x in s ==> multiset(s)[x] <= 1
  }

  /** `[...new Set(colors)]`: each value once, in order of first occurrence. */
  function Dedup(s: seq<string>): (r: seq<string>)
    ensures NoDuplicates(r)
    ensures forall x :: x in r <==> x in s
    ensures |r| <= |s|
  {
    if s == [] then []
    else
      var init := Dedup(s[..|s| - 1]);
      var last := s[|s| - 1];
      assert s == s[..|s| - 1] + [last];
      if last in init then init else init + [last]
  }

  /** A list that already has no duplicates passes through `Dedup` unchanged. */
  lemma {:induction false} DedupOfDistinct(s: seq<string>)
    requires NoDuplicates(s)
    ensures Dedup(s) == s
  {
    if s != [] {
      var prefix, last := s[..|s| - 1], s[|s| - 1];
      assert s == prefix + [last];
      assert multiset(s) == multiset(prefix) + multiset{last};
      forall x ensures multiset(prefix)[x] <= 1 {
        assert multiset(prefix)[x] <= multiset(s)[x];
      }
      DedupOfDistinct(prefix);
      assert multiset(s)[last] == multiset(prefix)[last] + 1;
      assert last !in prefix;
    }
  }

  /** Applying `Dedup` twice is the same as applying it once. */
  lemma DedupIdempotent(s: seq<string>)
    ensures Dedup(Dedup(s)) == Dedup(s)
  {
    DedupOfDistinct(Dedup(s));
  }

  /** `files.map(img => ({src: img.path}))`: one image per file, in upload order. */
  function ImagesOf(files: seq<UploadedFile>): (r: seq<Image>)
    ensures |r| == |files|
    ensures forall i :: 0 <= i < |files| ==> r[i].src == files[i].path
  {
    if files == [] then [] else [Image(files[0].path)] + ImagesOf(files[1..])
  }
}
