/** The back-references a Brand (`products`) and a Category (`products_id`) keep to
    their products: `updateOne` with `$push` and `$pull` on one list, the invariant
    that each list holds exactly the ids of the products assigned to it, and how
    create, update and delete keep (or, as written, break) that invariant. */
module References {
  import opened Products

  /** `$pull` on one list: every occurrence of `x` goes, the rest keep their order. */
  function Remove(s: seq<Id>, x: Id): (r: seq<Id>)
    ensures multiset(r) == multiset(s)[x := 0]
    ensures forall y :: y in r <==> y in s && y != x
  {
    if s == [] then []
    else
      assert s == [s[0]] + s[1..];
      (if s[0] == x then [] else [s[0]]) + Remove(s[1..], x)
  }

  /** `updateOne({_id: key}, {$push: {ids: x}})`: appends `x` to the list of `key`;
      a missing `key` matches nothing and nothing changes. */
  function Push(m: map<Id, RefList>, key: Id, x: Id): (r: map<Id, RefList>)
    ensures r.Keys == m.Keys
    ensures forall k :: k in m && k != key ==> r[k] == m[k]
    ensures key in m ==> r[key].name == m[key].name && r[key].ids == m[key].ids + [x]
  {
    if key in m then m[key := m[key].(ids := m[key].ids + [x])] else m
  }

  /** `updateOne({_id: key}, {$pull: {ids: x}})`: removes `x` from the list of `key`;
      a missing `key` matches nothing and nothing changes. */
  function Pull(m: map<Id, RefList>, key: Id, x: Id): (r: map<Id, RefList>)
    ensures r.Keys == m.Keys
    ensures forall k :: k in m && k != key ==> r[k] == m[k]
    ensures key in m ==> r[key] == RefList(m[key].name, Remove(m[key].ids, x))
  {
    if key in m then m[key := m[key].(ids := Remove(m[key].ids, x))] else m
  }

  /** The two updates touch different documents, so the order in which the store
      applies them does not matter: running them one after the other is faithful. */
  lemma PullPushCommute(m: map<Id, RefList>, a: Id, b: Id, x: Id, y: Id)
    requires a != b
    ensures Push(Pull(m, a, x), b, y) == Pull(Push(m, b, y), a, x)
  {
  }

  /** Move `x` from the list of `from` to the end of the list of `to`. */
  function Refile(m: map<Id, RefList>, x: Id, from: Id, to: Id): map<Id, RefList>
  {
    Push(Pull(m, from, x), to, x)
  }

  /** The update path for one side: refile only when the assignment changed. */
  function Reassign(m: map<Id, RefList>, x: Id, from: Id, to: Id): map<Id, RefList>
  {
    if from != to then Refile(m, x, from, to) else m
  }

  /** Which reference of a product a list tracks. */
  datatype Side = BrandSide | CategorySide

  function OwnerOf(p: Product, side: Side): Id
  {
    match side
    case BrandSide => p.brand
    case CategorySide => p.category
  }

  /** Every id on a list names a product assigned to that list's owner. */
  ghost predicate ListedAreAssigned(products: map<Id, Product>, owners: map<Id, RefList>, side: Side)
  {
    forall o, x :: o in owners && x in owners[o].ids ==> x in products && OwnerOf(products[x], side) == o
  }

  /** Every product whose owner exists is on that owner's list. */
  ghost predicate AssignedAreListed(products: map<Id, Product>, owners: map<Id, RefList>, side: Side)
  {
    forall x :: x in products && OwnerOf(products[x], side) in owners ==>
      x in owners[OwnerOf(products[x], side)].ids
  }

  /** No list holds an id twice. */
  ghost predicate ListsDistinct(owners: map<Id, RefList>)
  {
    forall o :: o in owners ==> NoDuplicates(owners[o].ids)
  }

  /** Every list of `owners` holds, once each, exactly the ids of the products assigned to it. */
  ghost predicate Tracks(products: map<Id, Product>, owners: map<Id, RefList>, side: Side)
  {
    ListedAreAssigned(products, owners, side) && AssignedAreListed(products, owners, side) && ListsDistinct(owners)
  }

  /** Every product is stored under its own id. */
  ghost predicate Keyed(products: map<Id, Product>)
  {
    forall x :: x in products ==> products[x].id == x
  }

  /** The reference invariant of the catalog: brands and categories both track their products. */
  ghost predicate Consistent(products: map<Id, Product>, brands: map<Id, RefList>, categories: map<Id, RefList>)
  {
    Keyed(products) && Tracks(products, brands, BrandSide) && Tracks(products, categories, CategorySide)
  }

  /** Appending an id that is not on a list keeps the list free of duplicates. */
  lemma AppendFresh(ids: seq<Id>, x: Id)
    requires NoDuplicates(ids) && x !in ids
    ensures NoDuplicates(ids + [x])
  {
    assert multiset(ids + [x]) == multiset(ids) + multiset{x};
    forall y | y in ids + [x] ensures multiset(ids + [x])[y] <= 1 {
      if y != x { assert y in ids; }
    }
  }

  /** Create: a product with a fresh id pushed onto its owner's list keeps the lists tracking. */
  lemma AddTracks(products: map<Id, Product>, owners: map<Id, RefList>, side: Side, p: Product)
    requires Tracks(products, owners, side)
    requires p.id !in products
    ensures Tracks(products[p.id := p], Push(owners, OwnerOf(p, side), p.id), side)
  {
    var products', owners' := products[p.id := p], Push(owners, OwnerOf(p, side), p.id);
    var o := OwnerOf(p, side);
    forall k, x | k in owners' && x in owners'[k].ids
      ensures x in products' && OwnerOf(products'[x], side) == k
    {
      if k != o || x != p.id {
        assert x in owners[k].ids;
      }
    }
    assert ListedAreAssigned(products', owners', side);
    forall k | k in owners' ensures NoDuplicates(owners'[k].ids) {
      if k == o {
        assert p.id !in owners[o].ids;
        AppendFresh(owners[o].ids, p.id);
      }
    }
    assert ListsDistinct(owners');
  }

  /** Pulling `x` keeps the list free of duplicates. */
  lemma RemoveDistinct(ids: seq<Id>, x: Id)
    requires NoDuplicates(ids)
    ensures NoDuplicates(Remove(ids, x))
  {
    forall y | y in Remove(ids, x) ensures multiset(Remove(ids, x))[y] <= 1 {
      assert y in multiset(Remove(ids, x));
    }
  }

  /** Delete: pulling a product's id from its owner's list and dropping the product keeps the lists tracking. */
  lemma DeleteTracks(products: map<Id, Product>, owners: map<Id, RefList>, side: Side, x: Id)
    requires Tracks(products, owners, side)
    requires x in products
    ensures Tracks(products - {x}, Pull(owners, OwnerOf(products[x], side), x), side)
  {
    DeleteListed(products, owners, side, x);
    DeleteAssigned(products, owners, side, x);
    forall k | k in owners ensures NoDuplicates(Pull(owners, OwnerOf(products[x], side), x)[k].ids) {
      if k == OwnerOf(products[x], side) {
        RemoveDistinct(owners[k].ids, x);
      }
    }
  }

  lemma DeleteListed(products: map<Id, Product>, owners: map<Id, RefList>, side: Side, x: Id)
    requires ListedAreAssigned(products, owners, side)
    requires x in products
    ensures ListedAreAssigned(products - {x}, Pull(owners, OwnerOf(products[x], side), x), side)
  {
    var products', owners' := products - {x}, Pull(owners, OwnerOf(products[x], side), x);
    forall k, y | k in owners' && y in owners'[k].ids
      ensures y in products' && OwnerOf(products'[y], side) == k
    {
      assert y in owners[k].ids;
    }
  }

  lemma DeleteAssigned(products: map<Id, Product>, owners: map<Id, RefList>, side: Side, x: Id)
    requires AssignedAreListed(products, owners, side)
    requires x in products
    ensures AssignedAreListed(products - {x}, Pull(owners, OwnerOf(products[x], side), x), side)
  {
    var products', owners' := products - {x}, Pull(owners, OwnerOf(products[x], side), x);
    forall y | y in products' && OwnerOf(products'[y], side) in owners'
      ensures y in owners'[OwnerOf(products'[y], side)].ids
    {
      var k := OwnerOf(products[y], side);
      assert y in owners[k].ids;
    }
  }

  /** A product replaced by one with the same owner leaves the lists tracking as they are. */
  lemma SameOwnerTracks(products: map<Id, Product>, owners: map<Id, RefList>, side: Side, q: Product)
    requires Tracks(products, owners, side)
    requires q.id in products && OwnerOf(q, side) == OwnerOf(products[q.id], side)
    ensures Tracks(products[q.id := q], owners, side)
  {
  }

  /** Update (as intended): refiling the id when, and only when, the owner changes keeps the lists tracking. */
  lemma ReassignTracks(products: map<Id, Product>, owners: map<Id, RefList>, side: Side, q: Product)
    requires Tracks(products, owners, side)
    requires q.id in products
    ensures Tracks(products[q.id := q],
                   Reassign(owners, q.id, OwnerOf(products[q.id], side), OwnerOf(q, side)), side)
  {
    var from, to := OwnerOf(products[q.id], side), OwnerOf(q, side);
    if from != to {
      DeleteTracks(products, owners, side, q.id);
      AddTracks(products - {q.id}, Pull(owners, from, q.id), side, q);
      assert (products - {q.id})[q.id := q] == products[q.id := q];
    } else {
      SameOwnerTracks(products, owners, side, q);
    }
  }

  /** Update (as written, lines 170-181): the category step always runs and pushes
      under the brand id. As brand ids never key a category, the product then sits
      in no category list at all, so any category it names no longer tracks it. */
  lemma RefileUnderBrandDropsProduct(products: map<Id, Product>, categories: map<Id, RefList>, q: Product, brand: Id)
    requires Tracks(products, categories, CategorySide)
    requires q.id in products
    requires brand !in categories
    ensures var after := Refile(categories, q.id, products[q.id].category, brand);
      && (forall c :: c in after ==> q.id !in after[c].ids)
      && (q.category in categories ==> !Tracks(products[q.id := q], after, CategorySide))
  {
    var from := products[q.id].category;
    var after := Refile(categories, q.id, from, brand);
    assert after == Pull(categories, from, q.id);
    forall c | c in after ensures q.id !in after[c].ids {
      if c != from {
        assert after[c] == categories[c];
      }
    }
    if q.category in categories {
      var products' := products[q.id := q];
      assert q.id in products' && OwnerOf(products'[q.id], CategorySide) in after;
      assert q.id !in after[OwnerOf(products'[q.id], CategorySide)].ids;
    }
  }

  /** A concrete case of the defect: renaming a product of category "c1" and brand
      "b1" empties the list of "c1", while the intended update leaves it alone. */
  lemma RenameDropsProductFromCategory()
    ensures var chair := Product("p1", "Chair", "", 50, [], [], 0, 1, "c1", "b1");
      var categories := map["c1" := RefList("Chairs", ["p1"])];
      && Tracks(map["p1" := chair], categories, CategorySide)
      && Refile(categories, "p1", "c1", "b1") == map["c1" := RefList("Chairs", [])]
      && !Tracks(map["p1" := chair.(name := "Armchair")], Refile(categories, "p1", "c1", "b1"), CategorySide)
      && Reassign(categories, "p1", "c1", "c1") == categories
  {
    var chair := Product("p1", "Chair", "", 50, [], [], 0, 1, "c1", "b1");
    var categories := map["c1" := RefList("Chairs", ["p1"])];
    assert Remove(["p1"], "p1") == [] by {
      assert Remove(["p1"], "p1") == [] + Remove([], "p1");
    }
    assert multiset(categories["c1"].ids) == multiset{"p1"};
    var renamed := map["p1" := chair.(name := "Armchair")];
    var after := Refile(categories, "p1", "c1", "b1");
    assert after == map["c1" := RefList("Chairs", [])];
    assert "p1" in renamed && OwnerOf(renamed["p1"], CategorySide) in after;
    assert !AssignedAreListed(renamed, after, CategorySide);
  }
}
