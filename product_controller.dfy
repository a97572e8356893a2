/**
 * `ProductController`: the request parameters it cleans before calling the
 * product service (sort direction and sort field), the visibility check on
 * the public product page and hiding a product.
 */
module ProductController {
  import opened Wrappers
  import opened Text
  import opened Entities
  import opened Store
  import ProductService

  // ----- listings ---------------------------------------------------------------

  datatype Direction = ASC | DESC

  /** `sortDir.equalsIgnoreCase("asc") ? ASC : DESC`. */
  function SortDirection(sortDir: string): (r: Direction)
    ensures r == ASC <==> Lower(sortDir) == "asc"
  {
    EqualsIgnoreCaseIsLowerEquality(sortDir, "asc");
    assert Lower("asc") == "asc";
    if EqualsIgnoreCase(sortDir, "asc") then ASC else DESC
  }

  /** Each listing's default direction: the public one descending, the administrator's ascending. */
  lemma DefaultDirections()
    ensures SortDirection("desc") == DESC && SortDirection("asc") == ASC && SortDirection("ASC") == ASC
  {
    assert Lower("desc") != "asc" by {
      assert Lower("desc")[0] == 'd';
    }
    assert Lower("ASC") == "asc";
  }

  predicate Allowed(sortBy: string, allowed: seq<string>) {
    exists i :: 0 <= i < |allowed| && EqualsIgnoreCase(sortBy, allowed[i])
  }

  /**
   * The sort field: the caller's own spelling when it names an allowed
   * field up to case, otherwise the listing's fallback.
   */
  function SortField(sortBy: string, allowed: seq<string>, fallback: string): (r: string)
    ensures r == sortBy || r == fallback
    ensures r == sortBy <== Allowed(sortBy, allowed)
    ensures Allowed(r, allowed) || r == fallback
  {
    if Allowed(sortBy, allowed) then sortBy else fallback
  }

  const PublicFields: seq<string> := ["productId", "name", "price", "stock"]
  const AdminFields: seq<string> := ["name", "price", "stock", "createdAt"]

  /** The public listing: productId, name, price or stock, otherwise createdAt. */
  function PublicSortField(sortBy: string): string {
    SortField(sortBy, PublicFields, "createdAt")
  }

  /** The administrator's listing: name, price, stock or createdAt, otherwise productId. */
  function AdminSortField(sortBy: string): string {
    SortField(sortBy, AdminFields, "productId")
  }

  /** Whatever is asked for, both listings sort by a field of the product, named up to case. */
  lemma SortFieldsAreColumns(sortBy: string)
    ensures Allowed(PublicSortField(sortBy), PublicFields + ["createdAt"])
    ensures Allowed(AdminSortField(sortBy), AdminFields + ["productId"])
  {
    var p := PublicSortField(sortBy);
    if Allowed(p, PublicFields) {
      var i :| 0 <= i < |PublicFields| && EqualsIgnoreCase(p, PublicFields[i]);
      assert (PublicFields + ["createdAt"])[i] == PublicFields[i];
    } else {
      EqualsIgnoreCaseReflexive("createdAt");
      assert (PublicFields + ["createdAt"])[4] == "createdAt";
    }
    var a := AdminSortField(sortBy);
    if Allowed(a, AdminFields) {
      var i :| 0 <= i < |AdminFields| && EqualsIgnoreCase(a, AdminFields[i]);
      assert (AdminFields + ["productId"])[i] == AdminFields[i];
    } else {
      EqualsIgnoreCaseReflexive("productId");
      assert (AdminFields + ["productId"])[4] == "productId";
    }
  }

  /** A field in another case is kept as written, and an unknown one is replaced. */
  lemma SortFieldExamples()
    ensures PublicSortField("PRICE") == "PRICE"
    ensures PublicSortField("createdAt") == "createdAt"
    ensures PublicSortField("password") == "createdAt"
    ensures AdminSortField("productId") == "productId"
  {
    assert EqualsIgnoreCase("PRICE", PublicFields[2]);
    assert !EqualsIgnoreCase("password", "productId") by { assert LowerChar("password"[1]) != LowerChar("productId"[1]); }
    assert !EqualsIgnoreCase("password", "name") by { assert |"password"| != |"name"|; }
    assert !EqualsIgnoreCase("password", "price") by { assert |"password"| != |"price"|; }
    assert !EqualsIgnoreCase("password", "stock") by { assert |"password"| != |"stock"|; }
    assert !Allowed("password", PublicFields);
    assert !EqualsIgnoreCase("createdAt", "productId") by { assert |"createdAt"| == |"productId"|; assert LowerChar("createdAt"[0]) != LowerChar("productId"[0]); }
    assert !EqualsIgnoreCase("createdAt", "name") by { assert |"createdAt"| != |"name"|; }
    assert !EqualsIgnoreCase("createdAt", "price") by { assert |"createdAt"| != |"price"|; }
    assert !EqualsIgnoreCase("createdAt", "stock") by { assert |"createdAt"| != |"stock"|; }
    assert !Allowed("createdAt", PublicFields);
  }

  // ----- getProductById -------------------------------------------------------------

  /** The public product page: a hidden product is reported as not found, like a missing one. */
  function GetProductById(products: map<int, Product>, id: int): (r: Result<Product>)
    ensures r.Ok? <==> id in products && products[id].visible
    ensures r.Ok? ==> r.value == products[id]
    ensures r.Err? ==> r.error == NotFound("Product")
  {
    if id in products && products[id].visible then Ok(products[id]) else Err(NotFound("Product"))
  }

  // ----- hideProduct ---------------------------------------------------------------------

  /** The table after `hideProduct`: the product invisible, nothing else touched. */
  function Hidden(products: map<int, Product>, id: int): map<int, Product>
    requires id in products
  {
    if products[id].visible then ProductService.Toggled(products, id) else products
  }

  /** `hideProduct`: an already hidden product is answered as it is; a visible one is toggled. */
  method HideProduct(db: Database, id: int) returns (r: Result<Product>)
    modifies db
    ensures id !in old(db.products) ==> r == Err(NotFound("Product")) && db.State() == old(db.State())
    ensures id in old(db.products) ==>
              db.State() == old(db.State()).(products := Hidden(old(db.products), id)) && r == Ok(db.products[id])
    ensures old(db.Valid()) ==> db.Valid()
  {
    if id !in db.products {
      return Err(NotFound("Product"));
    }
    var p := db.products[id];
    if !p.visible {
      return Ok(p);
    }
    r := ProductService.ToggleProductVisibility(db, id);
  }

  /**
   * Hiding leaves the product invisible, every other product and every other
   * field as it was, never makes a product visible, and a second hide
   * changes nothing.
   */
  lemma HideSpec(products: map<int, Product>, id: int)
    requires id in products
    ensures var h := Hidden(products, id);
            h.Keys == products.Keys && !h[id].visible &&
            h[id] == products[id].(visible := false) &&
            (forall q :: q in products && q != id ==> h[q] == products[q]) &&
            Hidden(h, id) == h
  {
  }

  /** After hiding, the public page reports the product as not found. */
  lemma HiddenIsNotFound(products: map<int, Product>, id: int)
    requires id in products
    ensures GetProductById(Hidden(products, id), id) == Err(NotFound("Product"))
  {
  }
}
