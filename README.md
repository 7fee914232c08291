# Product catalog: listing, search and brand/category back-references

A Dafny model of the product controller of an e-commerce backend
(`controllers/productController.js`). It covers two parts.

- **Catalog queries** are pure functions over the product collection, given in
  the store's natural order:
  - `getAllProducts` builds a filter and a sort from the query string, pages the
    result by twelve, and reports the cheapest and dearest matching price.
  - `searchForProduct` keeps the products whose name, category name or brand name
    contains the search text, ignoring case, and pages them the same way.
  - `getProductById` looks a product up, with its brand and category populated.
- **Reference maintenance** lives in the class `Store.ProductStore`. It holds
  three maps: products by id, brands by id and categories by id. A brand and a
  category are each a `RefList`: a name plus a list of product ids. Brand
  `products` and category `products_id` both map to `ids`.
  - `addProduct` pushes the new id onto both lists.
  - `updateProduct` moves the id when the assignment changes.
  - `deleteProduct` pulls the id from both lists.

  The invariant `References.Consistent` says that every list holds, once each,
  exactly the ids of the products assigned to its owner. Each method states its
  new state exactly, and whether it keeps that invariant.

Modules:
- `Wrappers`: Option, Result and the errors.
- `Products`: the product record, colour de-duplication and image records.
- `Pagination`: page size, page count and the `slice` window.
- `Listing`: the filter and sort, the price sort, and `ListProducts`.
- `Search`: the search match and `SearchProducts`.
- `References`: `$push`/`$pull` and the invariant lemmas.
- `Store`: the store class.

Decisions where the code departs from what it evidently intends, or where its behaviour is easy to misread (the model follows the code):
- **Category test on update.** The update compares the request's category with the
  stored one using `!==`, a string against an ObjectId. That test always holds.
  - `Store.ProductStore.UpdateAsWritten` models this together with the push
    under the brand id (see Findings).
  - `Store.ProductStore.Update` is the corrected handler. It compares
    identifiers and pushes under the new category.
- **Min/max on a sorted listing.** The sorted min/max branch (lines 38-43)
  compares a query-string value with a number using `===`, so it never runs.
  Both prices always come from the two limit-1 queries. `Listing.SortedEndsAgree`
  shows that on a price-sorted list, the first and last records would give the
  same prices.
- **Images on update.** Images are replaced whenever `req.files` is defined,
  even when it is empty. In the model this is `Some([])`. Without files, an
  `images` field in the request body is written like any other field.
- **Colour order.** `[...new Set(colors)]` keeps each colour's first occurrence,
  in order, so `Products.Dedup` does the same.
- **Page number.** The page window is cut with JavaScript `slice` semantics. Page
  0 is empty, and a negative page counts back from the end
  (`Pagination.NonPositivePage`).

## Model

| member | source | states |
|---|---|---|
| Products.Dedup | controllers/productController.js:112 | the stored colours have no duplicates and form the same set as the request's colours |
| Products.DedupOfDistinct | controllers/productController.js:112 | colours without duplicates are stored unchanged, in the same order |
| Products.DedupIdempotent | controllers/productController.js:112 | de-duplicating twice is the same as once |
| Products.ImagesOf | controllers/productController.js:109-111 | one image per uploaded file; the i-th image's `src` is the i-th file's path |
| Pagination.TotalPages | controllers/productController.js:32 | the page count is the ceiling of n/12: pages of twelve hold all n, one page fewer does not, and it is 0 exactly when n is 0 |
| Pagination.PageOf | controllers/productController.js:31-36 | a page never holds more than twelve records, whatever page is asked for |
| Pagination.PageWindow | controllers/productController.js:31-36 | for page >= 1 the page is the window starting at (page-1)*12, cut at the end of the data, and it is empty exactly when page > totalPages |
| Pagination.NonPositivePage | controllers/productController.js:31-36 | page 0 is empty, and a negative page is a block of twelve counted back from the end of the data |
| Pagination.PagesCoverData | controllers/productController.js:31-36 | pages 1 to totalPages, read in turn, give back every record once, in order |
| Listing.BuildQuery | controllers/productController.js:12-25 | a price bound exists iff the price is given and nonzero; a brand or category equality exists iff that value is given, non-empty and not "all"; the store filter matches a product iff the request admits it; sorting is ascending iff sort is 1 and descending iff sort is -1 |
| Listing.Select | controllers/productController.js:26 | the store keeps exactly the products that meet every constraint of the filter |
| Listing.SelectAdmitted | controllers/productController.js:12-26 | the products the built filter selects are exactly the admitted products, in natural order |
| Listing.AdmittedMembers | controllers/productController.js:12-22 | a product is admitted iff it is in the collection and meets the price, brand and category constraints the request asks for |
| Listing.SortByPrice | controllers/productController.js:23-27 | the price sort is a permutation of its input, ordered by price in the requested direction |
| Listing.Arrange | controllers/productController.js:23-27 | with no valid sort the natural order is kept; otherwise the result is a price-ordered permutation |
| Listing.PriceBounds | controllers/productController.js:45-54 | minPrice <= price <= maxPrice for every matching product; both bounds are attained; both are 0 when nothing matches |
| Listing.SortedEndsAgree | controllers/productController.js:38-40 | on an ascending list, its first and last prices equal the minimum and maximum the limit-1 queries return |
| Listing.SortedEndsAgreeDescending | controllers/productController.js:41-43 | on a descending list, its first price equals the maximum and its last the minimum the limit-1 queries return |
| Listing.SortedPagesInOrder | controllers/productController.js:26-36 | a sorted listing is ordered within each page and across the boundary into the next page |
| Listing.ListProducts | controllers/productController.js:11-64 | the response's page comes from the admitted products, price-sorted when sort is 1 or -1; it holds at most twelve admitted products; totalPages is the page count of all admitted products; minPrice and maxPrice bound and are attained by the admitted prices, and are 0 when none is admitted |
| Search.RedChair | controllers/productController.js:80-89 | "red" is found in "Red Chair" |
| Search.EmptyPatternMatches | controllers/productController.js:80 | the pattern built from an absent search text matches every text |
| Search.Hit | controllers/productController.js:85-90 | a product is a hit iff its name, its category's name or its brand's name contains the text, ignoring case; the callback fails exactly when it reaches a dangling reference before a match |
| Search.HitsMembers | controllers/productController.js:85-90 | a product is among the hits iff it is in the collection and its name, category name or brand name matches |
| Search.Keep | controllers/productController.js:85-91 | the search succeeds iff no product's callback fails; it then returns the hits in their original order, each occurrence kept, at most as many as there are products |
| Search.EmptySearchKeepsAll | controllers/productController.js:79-91 | with no search text every product is kept, in order |
| Search.SearchProducts | controllers/productController.js:79-105 | it fails iff some product's callback fails; otherwise the response is the requested page of the in-order hits, at most twelve, with totalPages the page count of all hits |
| References.Remove | controllers/productController.js:172-175 | `$pull` removes every occurrence of the id and keeps every other id with its multiplicity; an id is in the result iff it is in the list and is not the pulled id |
| References.Push | controllers/productController.js:128-137 | `$push` appends the id to the list of an existing owner and changes no other list; a missing owner changes nothing |
| References.Pull | controllers/productController.js:198-209 | `$pull` on an existing owner leaves its list with every occurrence of the id removed; no other list changes, and a missing owner changes nothing |
| References.PullPushCommute | controllers/productController.js:158-167 | a pull and a push aimed at two different documents give the same result in either order |
| References.AddTracks | controllers/productController.js:124-137 | adding a product under a fresh id and pushing the id onto its owner's list keeps every list tracking its products |
| References.DeleteTracks | controllers/productController.js:197-214 | pulling a product's id from its owner's list and deleting the product keeps every list tracking its products |
| References.ReassignTracks | controllers/productController.js:155-185 | moving the id from the old owner's list to the new owner's list only when the owner changes keeps every list tracking its products |
| References.RefileUnderBrandDropsProduct | controllers/productController.js:169-185 | the update as written leaves the product id in no category list, so the store stops tracking the product's category |
| References.RenameDropsProductFromCategory | controllers/productController.js:169-185 | renaming a product of category c1 and brand b1 empties c1's list as written; the intended update leaves it unchanged |
| Store.Patched | controllers/productController.js:187-191 | fields the update body carries take its values and the others keep theirs; uploaded files, when present, set the images over any images the body carries; the id never changes |
| Store.PatchWithNothing | controllers/productController.js:188-191 | a body with no other fields and the stored references leaves the product unchanged |
| Store.ProductStore.GetById | controllers/productController.js:66-77 | fails with "not found" exactly when no product has the id; otherwise returns that product with its brand and category resolved, or null where the reference dangles |
| Store.ProductStore.Add | controllers/productController.js:108-144 | a request without a files field fails and nothing changes; otherwise the new product gets the request's fields, the de-duplicated colours and one image per file; afterwards the id is on its brand's and its category's list, no other list changes, the product can be fetched by id, and consistency is kept |
| Store.ProductStore.Update | controllers/productController.js:146-195 | a missing product fails and nothing changes; otherwise a changed brand or category moves the id from the old list to the new one, an unchanged one leaves its lists untouched, the changes are applied, one product is reported matched, and consistency is kept |
| Store.ProductStore.UpdateAsWritten | controllers/productController.js:146-195 | as Update for brands, but the category step always pulls from the old category and pushes under the brand id; from a consistent store, the product then sits in no category list |
| Store.ProductStore.Delete | controllers/productController.js:197-215 | the product is gone and can no longer be fetched; the id is absent from the named brand's and category's lists, and no other list changes; the count is 1 iff the product existed; consistency is kept when the request names the product's own brand and category |

## Left out

- MongoDB and Mongoose I/O, `populate` mechanics and promise chains are not modelled. The store is three in-memory maps. The collection's natural order is an input sequence to the query functions.
- The reference updates are fire-and-forget in the source and may interleave. The model runs them in sequence. `References.PullPushCommute` shows that order does not matter when the two targets differ. Store failures (a rejected query or update) are not modelled.
- Search uses case-insensitive substring matching with ASCII case folding. It leaves out regular-expression metacharacters, Unicode case folding, and the stateful `g` flag. That flag can make a later `test` start at the previous match's end.
- Prices are whole numbers, and `Math.ceil` is integer ceiling division. Floating point is not modelled.
- Query parameters arrive already parsed (`Option<int>`, `Option<string>`). JavaScript coercion of non-numeric text (NaN prices or pages) is not modelled.
- The database generates ObjectIds. In the model the new id is a parameter of `Add` that is required to be fresh.
- An update or delete body without `brand` or `category` is not modelled, so those two fields are mandatory in `Changes` and in the parameters of `Delete`. Without them the source filters, compares or pushes with `undefined`, whose meaning depends on Mongoose's filter casting.
- The product schema declares `brand` and `category` without a `ref`, so whether `populate` resolves them depends on configuration that is not part of this model. The model follows the intended join: the referenced record, or null when it is missing.
- Store.ProductStore.Update: reports only the matched count, not the acknowledgment's modified count. Mongoose gives each cast image and colour subdocument a fresh `_id`, so whether the store counts a write as a modification is not determined by the fields alone. The same holds for `Store.ProductStore.UpdateAsWritten`.
- Identifiers are opaque strings. Mongoose rejects a brand, category or product id that is not a well-formed ObjectId with a cast error; that rejection is not modelled.
- Mongoose casting the colour strings into `{color}` subdocuments is not modelled; colours stay strings.
- Listing.SortByPrice: keeps the natural order among products of equal price. The store leaves that order unspecified.
- The Brand and Category schemas are not part of this model; only their name and their list of product ids are used.
- Express wiring, logging, the 404 and error middleware (`index.js`) and token verification (`middlewares/authMw.js`) are framework plumbing and a foreign library call.

## Findings

| source | as written | input that shows it | evidently intended | confidence | as-written member | corrected member |
|---|---|---|---|---|---|---|
| controllers/productController.js:170-181 | The category step runs on every update, because `!==` compares a string with an ObjectId. It pulls the id from the old category, then pushes it into the category keyed by the brand id, which does not exist. | Any update of product p1 (category c1, brand b1), for example a rename: c1's `products_id` loses p1 and no category gains it. | Pull and push only when the category changes, pushing into the new category. | high; not executed | References.RefileUnderBrandDropsProduct | References.ReassignTracks |
