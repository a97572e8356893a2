/**
 * `ProductService`: the checked stock moves built on the repository's
 * conditional updates, the normalisation of catalogue filters, product
 * creation and update with their image lists, and the visibility toggle.
 */
module ProductService {
  import opened Wrappers
  import opened Text
  import opened Entities
  import opened Store
  import ProductRepository

  /** The validated body of a create or update request (`ProductRequestDTO`). */
  datatype ProductRequest = ProductRequest(
    name: string,
    description: Option<string>,
    price: Money,
    stock: Option<int>,
    categoryId: Option<int>,
    barcode: Option<string>,
    details: WatchDetails,
    imageUrls: Option<seq<Option<string>>>,
    primaryImageUrl: Option<string>)

  /** What bean validation guarantees about the stock field: not negative when given. */
  predicate StockValid(dto: ProductRequest) {
    dto.stock.None? || dto.stock.value >= 0
  }

  // ----- stock ------------------------------------------------------------------

  /**
   * `decreaseStock`: the conditional update, and when it changed no row a
   * lookup that tells a missing product from a short stock.
   */
  method DecreaseStock(db: Database, pid: int, q: int) returns (r: Result<()>)
    modifies db
    ensures pid !in old(db.products) ==> r == Err(NotFound("Product"))
    ensures pid in old(db.products) && old(db.products)[pid].stock < q ==> r == Err(OperationFailed("insufficient stock"))
    ensures r.Ok? <==> pid in old(db.products) && old(db.products)[pid].stock >= q
    ensures r.Ok? ==> db.State() == old(db.State()).(products := ProductRepository.StockDecreased(old(db.products), pid, q))
    ensures r.Err? ==> db.State() == old(db.State())
  {
    var rows := ProductRepository.DecreaseStock(db, pid, q);
    if rows == 0 {
      if pid !in db.products {
        return Err(NotFound("Product"));
      }
      return Err(OperationFailed("insufficient stock"));
    }
    return Ok(());
  }

  /** `increaseStock`: fails only when the product row does not exist. */
  method IncreaseStock(db: Database, pid: int, q: int) returns (r: Result<()>)
    modifies db
    ensures r.Ok? <==> pid in old(db.products)
    ensures r.Err? ==> r.error == OperationFailed("product missing") && db.State() == old(db.State())
    ensures r.Ok? ==> db.State() == old(db.State()).(products := ProductRepository.StockIncreased(old(db.products), pid, q))
  {
    var rows := ProductRepository.IncreaseStock(db, pid, q);
    if rows == 0 {
      return Err(OperationFailed("product missing"));
    }
    return Ok(());
  }

  // ----- catalogue filters ----------------------------------------------------------

  /** 9999999999.99, the upper price bound used when none (or a negative one) is given. */
  const MaxPriceDefault: Money := 999999999999

  /** Whether a listing shows hidden products too (the admin listing) or only visible ones. */
  datatype Audience = Everyone | VisibleOnly

  datatype ProductFilter = ProductFilter(
    searchName: string, categoryId: Option<int>, minPrice: Money, maxPrice: Money, audience: Audience)

  /**
   * The argument normalisation shared by `findProductsByFilter`,
   * `findVisibleProductsByFilter` and `findAllProductsByFilterForAdmin`:
   * a missing or negative bound is replaced by its default, the name is
   * trimmed and lower-cased, and a named category must exist.
   */
  function NormaliseFilter(name: Option<string>, categoryId: Option<int>, minPrice: Option<Money>,
                           maxPrice: Option<Money>, audience: Audience, categories: set<int>): (r: Result<ProductFilter>)
    ensures r.Err? <==> categoryId.Some? && categoryId.value !in categories
    ensures r.Err? ==> r.error == NotFound("Category")
    ensures r.Ok? ==> r.value.minPrice >= 0 && r.value.maxPrice >= 0
    ensures r.Ok? ==> r.value.minPrice == (if minPrice.Some? && minPrice.value >= 0 then minPrice.value else 0)
    ensures r.Ok? ==> r.value.maxPrice == (if maxPrice.Some? && maxPrice.value >= 0 then maxPrice.value else MaxPriceDefault)
    ensures r.Ok? ==> r.value.categoryId == categoryId && r.value.audience == audience
    ensures r.Ok? ==> r.value.searchName == (if name.None? then "" else Lower(Trim(name.value)))
  {
    var min := if minPrice.None? || minPrice.value < 0 then 0 else minPrice.value;
    var max := if maxPrice.None? || maxPrice.value < 0 then MaxPriceDefault else maxPrice.value;
    var searchName := if name.None? then "" else Lower(Trim(name.value));
    if categoryId.Some? && categoryId.value !in categories then Err(NotFound("Category"))
    else Ok(ProductFilter(searchName, categoryId, min, max, audience))
  }

  /** Lower-casing keeps every character above U+0020 above it, so it commutes with trimming. */
  lemma {:induction false} TrimLower(s: string)
    ensures Trim(Lower(s)) == Lower(Trim(s))
  {
    TrimStartLower(s);
    TrimEndLower(TrimStart(s));
  }

  lemma {:induction false} TrimStartLower(s: string)
    ensures TrimStart(Lower(s)) == Lower(TrimStart(s))
  {
    if s != [] {
      var l := Lower(s);
      assert l[0] == LowerChar(s[0]);
      if s[0] <= ' ' {
        assert l[1..] == Lower(s[1..]);
        TrimStartLower(s[1..]);
        calc {
          TrimStart(l);
          TrimStart(l[1..]);
          Lower(TrimStart(s[1..]));
        }
      } else {
        assert TrimStart(l) == l;
      }
    }
  }

  lemma {:induction false} TrimEndLower(s: string)
    ensures TrimEnd(Lower(s)) == Lower(TrimEnd(s))
  {
    if s != [] {
      var l := Lower(s);
      assert l[|s| - 1] == LowerChar(s[|s| - 1]);
      if s[|s| - 1] <= ' ' {
        assert l[..|s| - 1] == Lower(s[..|s| - 1]);
        TrimEndLower(s[..|s| - 1]);
        calc {
          TrimEnd(l);
          TrimEnd(l[..|s| - 1]);
          Lower(TrimEnd(s[..|s| - 1]));
        }
      } else {
        assert TrimEnd(l) == l;
      }
    }
  }

  /** Feeding a normalised filter back through the normalisation changes nothing. */
  lemma NormaliseFilterIdempotent(name: Option<string>, categoryId: Option<int>, minPrice: Option<Money>,
                                  maxPrice: Option<Money>, audience: Audience, categories: set<int>)
    requires NormaliseFilter(name, categoryId, minPrice, maxPrice, audience, categories).Ok?
    ensures var f := NormaliseFilter(name, categoryId, minPrice, maxPrice, audience, categories).value;
            NormaliseFilter(Some(f.searchName), f.categoryId, Some(f.minPrice), Some(f.maxPrice), audience, categories).value == f
  {
    if name.Some? {
      SearchNameStable(name.value);
    }
  }

  /** A trimmed, lower-cased name is its own normal form. */
  lemma SearchNameStable(n: string)
    ensures Lower(Trim(Lower(Trim(n)))) == Lower(Trim(n))
  {
    var t := Trim(n);
    TrimLower(t);
    TrimIdempotent(n);
    assert Lower(Lower(t)) == Lower(t);
  }

  // ----- image lists ------------------------------------------------------------------

  /** The URLs `updateProductImages` keeps: null and blank entries dropped, the rest trimmed, in order. */
  function KeptUrls(urls: seq<Option<string>>): seq<string> {
    if urls == [] then []
    else
      var last := urls[|urls| - 1];
      KeptUrls(urls[..|urls| - 1]) + (if last.Some? && Trim(last.value) != [] then [Trim(last.value)] else [])
  }

  function KeptUrlsOf(urls: Option<seq<Option<string>>>): seq<string> {
    if urls.None? then [] else KeptUrls(urls.value)
  }

  /** The image rows built from kept URLs: display order 0, 1, 2, ... and primary where the URL equals the requested one. */
  function ImagesFrom(kept: seq<string>, primary: Option<string>): seq<ProductImage> {
    seq(|kept|, i requires 0 <= i < |kept| => ProductImage(kept[i], Some(kept[i]) == primary, i))
  }

  /** Every kept URL is trimmed and not blank, and every such entry of the request is kept. */
  lemma {:induction false} KeptUrlsExact(urls: seq<Option<string>>)
    ensures forall i :: 0 <= i < |KeptUrls(urls)| ==>
              KeptUrls(urls)[i] != [] && Trim(KeptUrls(urls)[i]) == KeptUrls(urls)[i]
    ensures forall j :: 0 <= j < |urls| && urls[j].Some? && Trim(urls[j].value) != [] ==>
              Trim(urls[j].value) in KeptUrls(urls)
  {
    if urls != [] {
      var init := urls[..|urls| - 1];
      KeptUrlsExact(init);
      var last := urls[|urls| - 1];
      if last.Some? {
        TrimIdempotent(last.value);
      }
      forall j | 0 <= j < |urls| - 1
        ensures urls[j] == init[j]
      {
      }
    }
  }

  /** The images `updateProductImages` stores are in the order Hibernate loads them back. */
  lemma ImagesFromOrdered(kept: seq<string>, primary: Option<string>)
    ensures ImagesOrdered(ImagesFrom(kept, primary))
  {
  }

  /**
   * After an image update the product's primary image is the requested one
   * when it is among the kept URLs, else the first kept URL, else none.
   */
  lemma PrimaryAfterImageUpdate(p: Product, kept: seq<string>, primary: Option<string>)
    requires p.images == ImagesFrom(kept, primary)
    ensures PrimaryImageUrl(p) ==
              if primary.Some? && primary.value in kept then primary
              else if kept == [] then None
              else Some(kept[0])
  {
    if primary.Some? && primary.value in kept {
      var k :| 0 <= k < |kept| && kept[k] == primary.value;
      assert p.images[k].primary;
    } else if kept != [] {
      forall i | 0 <= i < |p.images|
        ensures !p.images[i].primary
      {
        assert kept[i] in kept;
      }
    }
  }

  lemma ImagesFromSnoc(kept: seq<string>, url: string, primary: Option<string>)
    ensures ImagesFrom(kept + [url], primary) ==
            ImagesFrom(kept, primary) + [ProductImage(url, Some(url) == primary, |kept|)]
  {
  }

  lemma KeptUrlsSnoc(list: seq<Option<string>>, i: nat)
    requires i < |list|
    ensures KeptUrls(list[..i + 1]) ==
            KeptUrls(list[..i]) + (if list[i].Some? && Trim(list[i].value) != [] then [Trim(list[i].value)] else [])
  {
    assert list[..i + 1][..i] == list[..i];
  }

  /** The loop of `updateProductImages` that turns the requested URLs into image rows. */
  method BuildImages(urls: Option<seq<Option<string>>>, primary: Option<string>) returns (images: seq<ProductImage>)
    ensures images == ImagesFrom(KeptUrlsOf(urls), primary)
  {
    images := [];
    if urls.None? || urls.value == [] {
      return;
    }
    var list := urls.value;
    var displayOrder := 0;
    var i := 0;
    while i < |list|
      invariant 0 <= i <= |list|
      invariant images == ImagesFrom(KeptUrls(list[..i]), primary)
      invariant displayOrder == |images|
    {
      KeptUrlsSnoc(list, i);
      var url := list[i];
      if url.Some? && Trim(url.value) != [] {
        var trimmed := Trim(url.value);
        ImagesFromSnoc(KeptUrls(list[..i]), trimmed, primary);
        images := images + [ProductImage(trimmed, Some(trimmed) == primary, displayOrder)];
        displayOrder := displayOrder + 1;
      }
      i := i + 1;
    }
    assert list[..i] == list;
  }

  /** The old image URLs that the update hands to `deleteFile`: those the request's raw list does not contain. */
  function StaleImageUrls(oldUrls: seq<string>, requested: Option<seq<Option<string>>>): (r: seq<string>)
    ensures forall u :: u in r <==> u in oldUrls && (requested.None? || Some(u) !in requested.value)
  {
    if oldUrls == [] then []
    else
      var rest := StaleImageUrls(oldUrls[1..], requested);
      if requested.None? || Some(oldUrls[0]) !in requested.value then [oldUrls[0]] + rest else rest
  }

  function ImageUrls(images: seq<ProductImage>): seq<string> {
    seq(|images|, i requires 0 <= i < |images| => images[i].imageUrl)
  }

  // ----- create, update, toggle -------------------------------------------------------

  predicate PositiveCategory(dto: ProductRequest) {
    dto.categoryId.Some? && dto.categoryId.value > 0
  }

  /** `mapDtoToProductEntity`: the request's columns copied over `p`; a null stock becomes 0. */
  function MapRequest(dto: ProductRequest, p: Product): Product {
    p.(name := dto.name, description := dto.description, price := dto.price,
       stock := if dto.stock.Some? then dto.stock.value else 0,
       barcode := dto.barcode, details := dto.details)
  }

  /** The product a successful update leaves: mapped columns, the requested category and the rebuilt images. */
  function UpdatedProduct(dto: ProductRequest, p: Product): Product
    requires PositiveCategory(dto)
  {
    MapRequest(dto, p).(categoryId := dto.categoryId,
                        images := ImagesFrom(KeptUrlsOf(dto.imageUrls), dto.primaryImageUrl))
  }

  /** The row `createProductWithImages` inserts: the mapped request, its category and images, no reviews yet. */
  function NewProduct(dto: ProductRequest, initiallyVisible: bool): Product {
    MapRequest(dto, Product("", None, 0, 0, None, dto.details, dto.categoryId, initiallyVisible,
                            ImagesFrom(KeptUrlsOf(dto.imageUrls), dto.primaryImageUrl), ZeroRating, 0))
  }

  /**
   * `createProductWithImages`.  A new product starts with no visible review;
   * its visibility flag has no default in the entity as given, so it is an input.
   */
  method CreateProductWithImages(db: Database, dto: ProductRequest, initiallyVisible: bool) returns (r: Result<int>)
    requires StockValid(dto)
    modifies db
    ensures !PositiveCategory(dto) ==> r == Err(BadRequest("category id"))
    ensures PositiveCategory(dto) && dto.categoryId.value !in old(db.categories) ==> r == Err(NotFound("Category"))
    ensures r.Ok? <==> PositiveCategory(dto) && dto.categoryId.value in old(db.categories)
    ensures r.Err? ==> db.State() == old(db.State())
    ensures r.Ok? ==> r.value !in old(db.products)
    ensures r.Ok? ==>
              db.State() == old(db.State()).(products := old(db.products)[r.value := NewProduct(dto, initiallyVisible)])
    ensures old(db.Valid()) ==> db.Valid()
  {
    if !PositiveCategory(dto) {
      return Err(BadRequest("category id"));
    }
    if dto.categoryId.value !in db.categories {
      return Err(NotFound("Category"));
    }
    var images := BuildImages(dto.imageUrls, dto.primaryImageUrl);
    var blank := Product("", None, 0, 0, None, dto.details, dto.categoryId, initiallyVisible, images, ZeroRating, 0);
    var id := NewId(db.products.Keys);
    ghost var before := db.State();
    db.products := db.products[id := MapRequest(dto, blank)];
    if Consistent(before) {
      NewProductKeepsConsistency(before, id, NewProduct(dto, initiallyVisible));
    }
    return Ok(id);
  }

  /** Adding a product under a fresh id, with no stock below zero and no visible review, keeps every rule. */
  lemma NewProductKeepsConsistency(t: Tables, id: int, p: Product)
    requires Consistent(t) && id !in t.products
    requires p.stock >= 0 && p.reviewCount == 0 && p.averageRating == ZeroRating
    ensures Consistent(t.(products := t.products[id := p]))
  {
    var t' := t.(products := t.products[id := p]);
    assert VisibleReviews(t.reviews, id) == {} by {
      forall r | r in t.reviews
        ensures t.reviews[r].productId != id
      {
      }
    }
    forall q | q in t'.products
      ensures RatingAgrees(t'.products[q], t'.reviews, q)
    {
      if q != id {
        assert RatingAgrees(t.products[q], t.reviews, q);
      }
    }
  }

  /** `updateProductWithImages`; on success the result lists the old URLs passed to `deleteFile`. */
  method UpdateProductWithImages(db: Database, pid: int, dto: ProductRequest) returns (r: Result<seq<string>>)
    requires StockValid(dto)
    modifies db
    ensures pid !in old(db.products) ==> r == Err(NotFound("Product"))
    ensures pid in old(db.products) && !PositiveCategory(dto) ==> r == Err(BadRequest("category id"))
    ensures (pid in old(db.products) && PositiveCategory(dto) && old(db.products)[pid].categoryId != dto.categoryId &&
             dto.categoryId.value !in old(db.categories)) ==> r == Err(NotFound("Category"))
    ensures r.Ok? <==> (pid in old(db.products) && PositiveCategory(dto) &&
                        (old(db.products)[pid].categoryId == dto.categoryId || dto.categoryId.value in old(db.categories)))
    ensures r.Err? ==> db.State() == old(db.State())
    ensures r.Ok? ==> r.value == StaleImageUrls(ImageUrls(old(db.products)[pid].images), dto.imageUrls)
    ensures r.Ok? ==> db.State() == old(db.State()).(products := old(db.products)[pid := UpdatedProduct(dto, old(db.products)[pid])])
    ensures old(db.Valid()) ==> db.Valid()
  {
    if pid !in db.products {
      return Err(NotFound("Product"));
    }
    var product := db.products[pid];
    var oldUrls := ImageUrls(product.images);
    product := MapRequest(dto, product);
    if !PositiveCategory(dto) {
      return Err(BadRequest("category id"));
    }
    if product.categoryId != dto.categoryId {
      if dto.categoryId.value !in db.categories {
        return Err(NotFound("Category"));
      }
      product := product.(categoryId := dto.categoryId);
    }
    var images := BuildImages(dto.imageUrls, dto.primaryImageUrl);
    ghost var before := db.State();
    db.products := db.products[pid := product.(images := images)];
    if Consistent(before) {
      SameRatingKeepsConsistency(before, pid, product.(images := images));
    }
    return Ok(StaleImageUrls(oldUrls, dto.imageUrls));
  }

  /** Replacing a product by one with the same rating columns and a stock not below zero keeps every rule. */
  lemma SameRatingKeepsConsistency(t: Tables, pid: int, p: Product)
    requires Consistent(t) && pid in t.products
    requires p.stock >= 0 && p.reviewCount == t.products[pid].reviewCount && p.averageRating == t.products[pid].averageRating
    ensures Consistent(t.(products := t.products[pid := p]))
  {
    var t' := t.(products := t.products[pid := p]);
    forall q | q in t'.products
      ensures RatingAgrees(t'.products[q], t'.reviews, q)
    {
      assert RatingAgrees(t.products[q], t.reviews, q);
    }
  }

  /** The product table after the visibility of `pid` is flipped. */
  function Toggled(products: map<int, Product>, pid: int): map<int, Product>
    requires pid in products
  {
    products[pid := products[pid].(visible := !products[pid].visible)]
  }

  /** Toggling twice gives back the table it started from. */
  lemma ToggleTwice(products: map<int, Product>, pid: int)
    requires pid in products
    ensures Toggled(Toggled(products, pid), pid) == products
  {
    assert Toggled(Toggled(products, pid), pid)[pid] == products[pid];
  }

  /** `toggleProductVisibility`. */
  method ToggleProductVisibility(db: Database, pid: int) returns (r: Result<Product>)
    modifies db
    ensures pid !in old(db.products) ==> r == Err(NotFound("Product")) && db.State() == old(db.State())
    ensures pid in old(db.products) ==>
              db.State() == old(db.State()).(products := Toggled(old(db.products), pid)) &&
              r == Ok(db.products[pid]) && r.value.visible == !old(db.products)[pid].visible
    ensures old(db.Valid()) ==> db.Valid()
  {
    if pid !in db.products {
      return Err(NotFound("Product"));
    }
    ghost var before := db.State();
    var p := db.products[pid];
    db.products := db.products[pid := p.(visible := !p.visible)];
    if Consistent(before) {
      SameRatingKeepsConsistency(before, pid, p.(visible := !p.visible));
    }
    return Ok(db.products[pid]);
  }
}
