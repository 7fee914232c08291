/** The product store and the handlers that change it: `addProduct`,
    `updateProduct` and `deleteProduct`, each with the reference updates it
    sends to the brand and category collections, and `getProductById`. */
module Store {
  import opened Wrappers
  import opened Products
  import opened References

  /** The body of an add request. */
  datatype NewProduct = NewProduct(
    name: string,
    description: string,
    price: int,
    colors: seq<string>,
    discount: int,
    stock: int,
    category: Id,
    brand: Id)

  /** The body of an update request: `_id`, the brand and category, and whichever
      other fields it carries (an absent one is `None`). */
  datatype Changes = Changes(
    id: Id,
    name: Option<string>,
    description: Option<string>,
    price: Option<int>,
    colors: Option<seq<string>>,
    discount: Option<int>,
    stock: Option<int>,
    images: Option<seq<Image>>,
    category: Id,
    brand: Id)

  /** `{$set: body}` (with `images` overridden when files came with the request):
      fields the body carries take its values, the others keep theirs. */
  function Patched(p: Product, c: Changes, files: Option<seq<UploadedFile>>): (r: Product)
    ensures r.id == p.id
    ensures r.brand == c.brand && r.category == c.category
    ensures r.name == c.name.GetOr(p.name) && r.description == c.description.GetOr(p.description)
    ensures r.price == c.price.GetOr(p.price) && r.colors == c.colors.GetOr(p.colors)
    ensures r.discount == c.discount.GetOr(p.discount) && r.stock == c.stock.GetOr(p.stock)
    ensures r.images == if files.Some? then ImagesOf(files.value) else c.images.GetOr(p.images)
  {
    Product(
      p.id,
      c.name.GetOr(p.name),
      c.description.GetOr(p.description),
      c.price.GetOr(p.price),
      if files.Some? then ImagesOf(files.value) else c.images.GetOr(p.images),
      c.colors.GetOr(p.colors),
      c.discount.GetOr(p.discount),
      c.stock.GetOr(p.stock),
      c.category,
      c.brand)
  }

  /** A request that carries no other field and no files changes nothing but the two
      references, and carrying the stored references too makes it a no-op. */
  lemma PatchWithNothing(p: Product, c: Changes)
    requires c.name.None? && c.description.None? && c.price.None? && c.colors.None?
    requires c.discount.None? && c.stock.None? && c.images.None?
    ensures Patched(p, c, None) == p.(category := c.category, brand := c.brand)
    ensures c.brand == p.brand && c.category == p.category ==> Patched(p, c, None) == p
  {
  }

  /** The acknowledgment of `updateOne`: how many products the filter matched. */
  datatype UpdateAck = UpdateAck(matched: nat)

  class ProductStore {
    var products: map<Id, Product>
    var brands: map<Id, RefList>
    var categories: map<Id, RefList>

    constructor (products: map<Id, Product>, brands: map<Id, RefList>, categories: map<Id, RefList>)
      ensures this.products == products && this.brands == brands && this.categories == categories
    {
      this.products := products;
      this.brands := brands;
      this.categories := categories;
    }

    /** Every brand and category list tracks the products assigned to it. */
    ghost predicate Valid()
      reads this
    {
      Consistent(products, brands, categories)
    }

    /** `getProductById`: the product with its brand and category populated, or
        "product isn't found" when no product has the id. */
    function GetById(id: Id): (r: Result<Populated>)
      reads this
      ensures r.Err? <==> id !in products
      ensures r.Err? ==> r.error == ProductNotFound
      ensures r.Ok? ==> r.value.product == products[id]
      ensures r.Ok? ==> (r.value.brand.Some? <==> products[id].brand in brands)
      ensures r.Ok? ==> (r.value.category.Some? <==> products[id].category in categories)
      ensures r.Ok? && r.value.brand.Some? ==> r.value.brand.value == brands[products[id].brand]
      ensures r.Ok? && r.value.category.Some? ==> r.value.category.value == categories[products[id].category]
    {
      if id in products then
        var p := products[id];
        Ok(Populated(p, Lookup(brands, p.brand), Lookup(categories, p.category)))
      else Err(ProductNotFound)
    }

    /** `addProduct`: store the new product under the fresh id the database assigns,
        then push that id onto its brand's and its category's list. A request
        without a files field fails before anything is stored. */
    method Add(input: NewProduct, files: Option<seq<UploadedFile>>, id: Id) returns (r: Result<Product>)
      requires id !in products
      modifies this
      ensures files.None? ==>
        r == Err(NoFilesField) &&
        products == old(products) && brands == old(brands) && categories == old(categories)
      ensures files.Some? ==> r.Ok?
      ensures r.Ok? ==>
        var created := r.value;
        && created.id == id && created.name == input.name && created.description == input.description
        && created.price == input.price && created.discount == input.discount && created.stock == input.stock
        && created.brand == input.brand && created.category == input.category
        && created.images == ImagesOf(files.value) && created.colors == Dedup(input.colors)
        && products == old(products)[id := created]
        && brands == Push(old(brands), input.brand, id)
        && categories == Push(old(categories), input.category, id)
        && (input.brand in brands ==> id in brands[input.brand].ids)
        && (input.category in categories ==> id in categories[input.category].ids)
        && GetById(id).Ok? && GetById(id).value.product == created
      ensures old(Valid()) ==> Valid()
    {
      if files.None? {
        return Err(NoFilesField);
      }
      var created := Product(id, input.name, input.description, input.price, ImagesOf(files.value),
                             Dedup(input.colors), input.discount, input.stock, input.category, input.brand);
      if Valid() {
        AddTracks(products, brands, BrandSide, created);
        AddTracks(products, categories, CategorySide, created);
      }
      products := products[id := created];
      brands := Push(brands, created.brand, id);
      categories := Push(categories, created.category, id);
      r := Ok(created);
    }

    /** `updateProduct` as intended: refile the id when the brand changed and when
        the category changed, each under its own new owner, then apply the changes.
        A missing product fails before anything is written. */
    method Update(c: Changes, files: Option<seq<UploadedFile>>) returns (r: Result<UpdateAck>)
      modifies this
      ensures c.id !in old(products) ==>
        r == Err(ProductNotFound) &&
        products == old(products) && brands == old(brands) && categories == old(categories)
      ensures c.id in old(products) ==>
        var before := old(products)[c.id];
        var after := Patched(before, c, files);
        && products == old(products)[c.id := after]
        && brands == Reassign(old(brands), c.id, before.brand, c.brand)
        && categories == Reassign(old(categories), c.id, before.category, c.category)
        && r == Ok(UpdateAck(1))
      ensures old(Valid()) ==> Valid()
    {
      if c.id !in products {
        return Err(ProductNotFound);
      }
      var before := products[c.id];
      var after := Patched(before, c, files);
      if Valid() {
        ReassignTracks(products, brands, BrandSide, after);
        ReassignTracks(products, categories, CategorySide, after);
      }
      if c.brand != before.brand {
        brands := Pull(brands, before.brand, c.id);
        brands := Push(brands, c.brand, c.id);
      }
      if c.category != before.category {
        categories := Pull(categories, before.category, c.id);
        categories := Push(categories, c.category, c.id);
      }
      products := products[c.id := after];
      r := Ok(UpdateAck(1));
    }

    /** `updateProduct` as written: the category test (a string against an ObjectId
        with `!==`) always holds, and the push goes to the category keyed by the
        new brand id. From a consistent store, the product then sits in no
        category list at all. */
    method UpdateAsWritten(c: Changes, files: Option<seq<UploadedFile>>) returns (r: Result<UpdateAck>)
      modifies this
      ensures c.id !in old(products) ==>
        r == Err(ProductNotFound) &&
        products == old(products) && brands == old(brands) && categories == old(categories)
      ensures c.id in old(products) ==>
        var before := old(products)[c.id];
        var after := Patched(before, c, files);
        && products == old(products)[c.id := after]
        && brands == Reassign(old(brands), c.id, before.brand, c.brand)
        && categories == Refile(old(categories), c.id, before.category, c.brand)
        && r == Ok(UpdateAck(1))
      ensures old(Valid()) && c.id in old(products) && c.brand !in old(categories) ==>
        forall k :: k in categories ==> c.id !in categories[k].ids
    {
      if c.id !in products {
        return Err(ProductNotFound);
      }
      var before := products[c.id];
      var after := Patched(before, c, files);
      ghost var dropped := Valid() && c.brand !in categories;
      if dropped {
        assert Keyed(products) && Tracks(products, categories, CategorySide);
        assert after.id == c.id;
        RefileUnderBrandDropsProduct(products, categories, after, c.brand);
      }
      ghost var refiled := Refile(categories, c.id, before.category, c.brand);
      if c.brand != before.brand {
        brands := Pull(brands, before.brand, c.id);
        brands := Push(brands, c.brand, c.id);
      }
      categories := Pull(categories, before.category, c.id);
      categories := Push(categories, c.brand, c.id);
      assert categories == refiled;
      products := products[c.id := after];
      r := Ok(UpdateAck(1));
    }

    /** `deleteProduct`: pull the id from the brand and the category the request
        names, and delete the product; the count is that of the delete alone. */
    method Delete(id: Id, brand: Id, category: Id) returns (deletedCount: nat)
      modifies this
      ensures deletedCount == if id in old(products) then 1 else 0
      ensures products == old(products) - {id}
      ensures brands == Pull(old(brands), brand, id)
      ensures categories == Pull(old(categories), category, id)
      ensures id !in products && GetById(id) == Err(ProductNotFound)
      ensures brand in brands ==> id !in brands[brand].ids
      ensures category in categories ==> id !in categories[category].ids
      ensures old(Valid()) && id in old(products) &&
              brand == old(products)[id].brand && category == old(products)[id].category
              ==> Valid()
    {
      if Valid() && id in products && brand == products[id].brand && category == products[id].category {
        DeleteTracks(products, brands, BrandSide, id);
        DeleteTracks(products, categories, CategorySide, id);
      }
      brands := Pull(brands, brand, id);
      categories := Pull(categories, category, id);
      deletedCount := if id in products then 1 else 0;
      products := products - {id};
    }
  }
}
