/**
 * `OrderService`: placing an order (from chosen lines or from the whole
 * cart), cancelling it, the administrator's status changes, and the outcome
 * of a VNPay payment.  Every public operation is one transaction: when it
 * fails, every table is as it was before the call.
 */
module OrderService {
  import opened Wrappers
  import opened Text
  import opened Entities
  import opened Store
  import ProductRepository
  import ProductService
  import PaymentService
  import VnPayService

  // ----- status rules -----------------------------------------------------------------

  /** The administrator's transition table; the two final statuses lead nowhere. */
  function CanTransition(from: OrderStatus, to: OrderStatus): (r: bool)
    ensures r ==> Rank(from) < Rank(to) && to != PENDING
    ensures Final(from) ==> !r
  {
    match from
    case PENDING => to == PAID || to == PROCESSING || to == CANCELED
    case PAID => to == PROCESSING || to == SHIPPED || to == CANCELED
    case PROCESSING => to == SHIPPED || to == CANCELED
    case SHIPPED => to == COMPLETED
    case COMPLETED => false
    case CANCELED => false
  }

  predicate Final(s: OrderStatus) {
    s == COMPLETED || s == CANCELED
  }

  /** The statuses from which a buyer may cancel. */
  predicate Cancellable(s: OrderStatus) {
    s == PENDING || s == PAID || s == PROCESSING
  }

  function Rank(s: OrderStatus): nat {
    match s
    case PENDING => 0
    case PAID => 1
    case PROCESSING => 2
    case SHIPPED => 3
    case COMPLETED => 4
    case CANCELED => 5
  }

  /** Every allowed change moves forward, so no order ever returns to an earlier status. */
  lemma TransitionsMoveForward(a: OrderStatus, b: OrderStatus)
    requires CanTransition(a, b)
    ensures Rank(a) < Rank(b)
    ensures b != PENDING
  {
  }

  /** A final status admits no change. */
  lemma FinalStatusesAreTerminal(a: OrderStatus, b: OrderStatus)
    requires Final(a)
    ensures !CanTransition(a, b)
  {
  }

  /** The buyer's cancellable statuses are exactly those from which the table allows `CANCELED`. */
  lemma CancelRulesAgree(s: OrderStatus)
    ensures CanTransition(s, CANCELED) <==> Cancellable(s)
  {
  }

  // ----- reserving stock ----------------------------------------------------------------

  /** A requested line: a `SelectedItemDTO` or a cart line. */
  datatype LineRequest = LineRequest(productId: int, quantity: int)

  /** The product table after the stock moves, the order lines, and their running total. */
  datatype Reservation = Reservation(products: map<int, Product>, lines: seq<OrderItem>, total: Money)

  /** Whether a line is processed; with `skipNonPositive` a quantity of zero or less is passed over. */
  predicate Counted(x: LineRequest, skipNonPositive: bool) {
    !skipNonPositive || x.quantity > 0
  }

  /**
   * One turn of the order loop.  The stock is checked against the product as
   * first loaded in the transaction (`snapshot`), then the conditional UPDATE
   * runs against the live table; the line is charged the loaded price.
   */
  function ReserveStep(snapshot: map<int, Product>, acc: Result<Reservation>, x: LineRequest, skip: bool): Result<Reservation> {
    if acc.Err? || !Counted(x, skip) then acc
    else if x.productId !in snapshot then Err(NotFound("Product"))
    else if snapshot[x.productId].stock < x.quantity then Err(OperationFailed("insufficient stock"))
    else if x.productId !in acc.value.products then Err(NotFound("Product"))
    else if acc.value.products[x.productId].stock < x.quantity then Err(OperationFailed("insufficient stock"))
    else
      var price := snapshot[x.productId].price;
      Ok(Reservation(ProductRepository.StockDecreased(acc.value.products, x.productId, x.quantity),
                     acc.value.lines + [OrderItem(x.productId, x.quantity, price)],
                     acc.value.total + price * x.quantity))
  }

  /** The whole loop: the first failure sticks. */
  function Reserve(snapshot: map<int, Product>, xs: seq<LineRequest>, skip: bool): Result<Reservation> {
    if xs == [] then Ok(Reservation(snapshot, [], 0))
    else ReserveStep(snapshot, Reserve(snapshot, xs[..|xs| - 1], skip), xs[|xs| - 1], skip)
  }

  /** How much of product `pid` the processed lines ask for. */
  function Demand(xs: seq<LineRequest>, pid: int, skip: bool): int {
    if xs == [] then 0
    else
      var x := xs[|xs| - 1];
      Demand(xs[..|xs| - 1], pid, skip) + (if x.productId == pid && Counted(x, skip) then x.quantity else 0)
  }

  function LineDemand(lines: seq<OrderItem>, pid: int): int {
    if lines == [] then 0
    else
      var l := lines[|lines| - 1];
      LineDemand(lines[..|lines| - 1], pid) + (if l.productId == pid then l.quantity else 0)
  }

  function PriceOf(products: map<int, Product>, pid: int): Money {
    if pid in products then products[pid].price else 0
  }

  /** The order lines the processed requests become, at the loaded prices. */
  function LinesFor(snapshot: map<int, Product>, xs: seq<LineRequest>, skip: bool): seq<OrderItem> {
    if xs == [] then []
    else
      var x := xs[|xs| - 1];
      LinesFor(snapshot, xs[..|xs| - 1], skip) +
        (if Counted(x, skip) then [OrderItem(x.productId, x.quantity, PriceOf(snapshot, x.productId))] else [])
  }

  predicate CountedPositive(xs: seq<LineRequest>, skip: bool) {
    forall i :: 0 <= i < |xs| && Counted(xs[i], skip) ==> xs[i].quantity > 0
  }

  /** Every processed line names a product whose stock covers the whole demand for it. */
  predicate Available(snapshot: map<int, Product>, xs: seq<LineRequest>, skip: bool) {
    forall i :: 0 <= i < |xs| && Counted(xs[i], skip) ==>
      xs[i].productId in snapshot && Demand(xs, xs[i].productId, skip) <= snapshot[xs[i].productId].stock
  }

  /** Only stock moved, and it stayed non-negative. */
  predicate StockOnlyChange(before: map<int, Product>, after: map<int, Product>) {
    before.Keys == after.Keys &&
    (forall p :: p in before ==> after[p] == before[p].(stock := after[p].stock)) &&
    StocksNonNegative(after)
  }

  predicate LinesValid(lines: seq<OrderItem>, products: map<int, Product>) {
    forall i :: 0 <= i < |lines| ==> lines[i].productId in products && lines[i].quantity > 0
  }

  lemma {:induction false} DemandNonNegative(xs: seq<LineRequest>, pid: int, skip: bool)
    requires CountedPositive(xs, skip)
    ensures Demand(xs, pid, skip) >= 0
  {
    if xs != [] {
      DemandNonNegative(xs[..|xs| - 1], pid, skip);
    }
  }

  lemma AvailableSnoc(snapshot: map<int, Product>, ys: seq<LineRequest>, x: LineRequest, skip: bool)
    requires CountedPositive(ys + [x], skip)
    ensures Available(snapshot, ys + [x], skip) <==>
            Available(snapshot, ys, skip) &&
            (Counted(x, skip) ==> x.productId in snapshot && Demand(ys + [x], x.productId, skip) <= snapshot[x.productId].stock)
  {
    var xs := ys + [x];
    assert xs[..|xs| - 1] == ys;
    forall i | 0 <= i < |ys|
      ensures xs[i] == ys[i]
    {
    }
    if Available(snapshot, xs, skip) {
      forall i | 0 <= i < |ys| && Counted(ys[i], skip)
        ensures ys[i].productId in snapshot && Demand(ys, ys[i].productId, skip) <= snapshot[ys[i].productId].stock
      {
        assert xs[i] == ys[i];
      }
      assert xs[|ys|] == x;
    }
  }

  /**
   * A successful loop moved only stock: each product's stock fell by the
   * demand for it, and no stock went below zero.
   */
  lemma {:induction false} ReserveOkState(snapshot: map<int, Product>, xs: seq<LineRequest>, skip: bool)
    ensures Reserve(snapshot, xs, skip).Ok? ==>
              var r := Reserve(snapshot, xs, skip).value;
              r.products.Keys == snapshot.Keys &&
              (forall p :: p in snapshot ==> r.products[p] == snapshot[p].(stock := snapshot[p].stock - Demand(xs, p, skip))) &&
              (StocksNonNegative(snapshot) ==> StocksNonNegative(r.products))
  {
    if xs != [] {
      var ys, x := xs[..|xs| - 1], xs[|xs| - 1];
      ReserveOkState(snapshot, ys, skip);
      var prev := Reserve(snapshot, ys, skip);
      if prev.Ok? && Counted(x, skip) && Reserve(snapshot, xs, skip).Ok? {
        var r, r' := prev.value, Reserve(snapshot, xs, skip).value;
        assert r'.products == ProductRepository.StockDecreased(r.products, x.productId, x.quantity);
        forall p | p in snapshot
          ensures r'.products[p] == snapshot[p].(stock := snapshot[p].stock - Demand(xs, p, skip))
        {
          assert Demand(xs, p, skip) == Demand(ys, p, skip) + (if x.productId == p then x.quantity else 0);
        }
      }
    }
  }

  /** A successful loop produced one line per processed request at the loaded price, and the total is their sum. */
  lemma {:induction false} ReserveOkLines(snapshot: map<int, Product>, xs: seq<LineRequest>, skip: bool)
    requires CountedPositive(xs, skip)
    ensures Reserve(snapshot, xs, skip).Ok? ==>
              var r := Reserve(snapshot, xs, skip).value;
              r.lines == LinesFor(snapshot, xs, skip) && r.total == LinesTotal(r.lines) && LinesValid(r.lines, snapshot)
  {
    if xs != [] {
      var ys, x := xs[..|xs| - 1], xs[|xs| - 1];
      CountedPositivePrefix(xs);
      ReserveOkLines(snapshot, ys, skip);
      var prev := Reserve(snapshot, ys, skip);
      if prev.Ok? && Reserve(snapshot, xs, skip).Ok? {
        if Counted(x, skip) {
          var r, r' := prev.value, Reserve(snapshot, xs, skip).value;
          var line := OrderItem(x.productId, x.quantity, snapshot[x.productId].price);
          assert r'.lines == r.lines + [line] && r'.total == r.total + line.price * line.quantity;
          assert LinesFor(snapshot, xs, skip) == LinesFor(snapshot, ys, skip) + [line];
          LinesTotalSnoc(r.lines, line);
          assert x.quantity > 0 by {
            assert xs[|xs| - 1] == x;
          }
          LinesValidSnoc(r.lines, line, snapshot);
        } else {
          assert LinesFor(snapshot, xs, skip) == LinesFor(snapshot, ys, skip);
        }
      }
    }
  }

  lemma LinesTotalSnoc(lines: seq<OrderItem>, line: OrderItem)
    ensures LinesTotal(lines + [line]) == LinesTotal(lines) + line.price * line.quantity
  {
    assert (lines + [line])[..|lines|] == lines;
  }

  lemma LinesValidSnoc(lines: seq<OrderItem>, line: OrderItem, products: map<int, Product>)
    requires LinesValid(lines, products) && line.productId in products && line.quantity > 0
    ensures LinesValid(lines + [line], products)
  {
    var l := lines + [line];
    forall i | 0 <= i < |l|
      ensures l[i].productId in products && l[i].quantity > 0
    {
      if i < |lines| {
        assert l[i] == lines[i];
      }
    }
  }

  lemma CountedPositivePrefix(xs: seq<LineRequest>)
    requires xs != []
    ensures forall skip :: CountedPositive(xs, skip) ==> CountedPositive(xs[..|xs| - 1], skip)
  {
    forall skip | CountedPositive(xs, skip)
      ensures CountedPositive(xs[..|xs| - 1], skip)
    {
      var ys := xs[..|xs| - 1];
      forall i | 0 <= i < |ys| && Counted(ys[i], skip)
        ensures ys[i].quantity > 0
      {
        assert ys[i] == xs[i];
      }
    }
  }

  /** With positive quantities the loop succeeds exactly when every processed line's demand is covered. */
  lemma {:induction false} ReserveOkIff(snapshot: map<int, Product>, xs: seq<LineRequest>, skip: bool)
    requires CountedPositive(xs, skip)
    ensures Reserve(snapshot, xs, skip).Ok? <==> Available(snapshot, xs, skip)
  {
    if xs != [] {
      var ys, x := xs[..|xs| - 1], xs[|xs| - 1];
      assert xs == ys + [x];
      CountedPositivePrefix(xs);
      ReserveOkIff(snapshot, ys, skip);
      ReserveOkState(snapshot, ys, skip);
      AvailableSnoc(snapshot, ys, x, skip);
      DemandNonNegative(ys, x.productId, skip);
      if Counted(x, skip) {
        assert x == xs[|xs| - 1];
        assert Demand(xs, x.productId, skip) == Demand(ys, x.productId, skip) + x.quantity;
      }
    }
  }

  /** The three facts about a successful loop together. */
  lemma ReserveSpec(snapshot: map<int, Product>, xs: seq<LineRequest>, skip: bool)
    requires CountedPositive(xs, skip)
    ensures Reserve(snapshot, xs, skip).Ok? <==> Available(snapshot, xs, skip)
    ensures Reserve(snapshot, xs, skip).Ok? ==>
              var r := Reserve(snapshot, xs, skip).value;
              r.products.Keys == snapshot.Keys &&
              (forall p :: p in snapshot ==> r.products[p] == snapshot[p].(stock := snapshot[p].stock - Demand(xs, p, skip))) &&
              r.lines == LinesFor(snapshot, xs, skip) &&
              r.total == LinesTotal(r.lines) &&
              LinesValid(r.lines, snapshot) &&
              (StocksNonNegative(snapshot) ==> StocksNonNegative(r.products))
  {
    ReserveOkIff(snapshot, xs, skip);
    ReserveOkState(snapshot, xs, skip);
    ReserveOkLines(snapshot, xs, skip);
  }

  /** Once a step has failed, the rest of the loop returns that failure unchanged. */
  lemma {:induction false} ReserveErrSticks(snapshot: map<int, Product>, xs: seq<LineRequest>, skip: bool, k: nat)
    requires k <= |xs| && Reserve(snapshot, xs[..k], skip).Err?
    ensures Reserve(snapshot, xs, skip) == Reserve(snapshot, xs[..k], skip)
    decreases |xs|
  {
    if k == |xs| {
      assert xs[..k] == xs;
    } else {
      var ys := xs[..|xs| - 1];
      assert ys[..k] == xs[..k];
      ReserveErrSticks(snapshot, ys, skip, k);
    }
  }

  // ----- giving stock back ---------------------------------------------------------------

  /** `increaseStock` for every line in turn; a line whose product row is gone fails the whole loop. */
  function Restock(products: map<int, Product>, lines: seq<OrderItem>): Result<map<int, Product>> {
    if lines == [] then Ok(products)
    else
      var l := lines[|lines| - 1];
      match Restock(products, lines[..|lines| - 1])
      case Err(e) => Err(e)
      case Ok(ps) =>
        if l.productId in ps then Ok(ProductRepository.StockIncreased(ps, l.productId, l.quantity))
        else Err(OperationFailed("restock"))
  }

  /** Restocking succeeds exactly when every line's product exists, and adds each product's ordered quantity back. */
  lemma {:induction false} RestockSpec(products: map<int, Product>, lines: seq<OrderItem>)
    ensures Restock(products, lines).Ok? <==> forall i :: 0 <= i < |lines| ==> lines[i].productId in products
    ensures Restock(products, lines).Err? ==> Restock(products, lines).error == OperationFailed("restock")
    ensures Restock(products, lines).Ok? ==>
              var ps := Restock(products, lines).value;
              ps.Keys == products.Keys &&
              forall p :: p in products ==> ps[p] == products[p].(stock := products[p].stock + LineDemand(lines, p))
  {
    if lines != [] {
      var prefix := lines[..|lines| - 1];
      RestockSpec(products, prefix);
      forall i | 0 <= i < |prefix|
        ensures prefix[i] == lines[i]
      {
      }
    }
  }

  lemma {:induction false} LineDemandNonNegative(lines: seq<OrderItem>, pid: int)
    requires forall i :: 0 <= i < |lines| ==> lines[i].quantity > 0
    ensures LineDemand(lines, pid) >= 0
  {
    if lines != [] {
      LineDemandNonNegative(lines[..|lines| - 1], pid);
    }
  }

  lemma {:induction false} LinesForDemand(snapshot: map<int, Product>, xs: seq<LineRequest>, skip: bool, pid: int)
    ensures LineDemand(LinesFor(snapshot, xs, skip), pid) == Demand(xs, pid, skip)
  {
    if xs != [] {
      var ys, x := xs[..|xs| - 1], xs[|xs| - 1];
      LinesForDemand(snapshot, ys, skip, pid);
      var l := LinesFor(snapshot, xs, skip);
      if Counted(x, skip) {
        assert l == LinesFor(snapshot, ys, skip) + [OrderItem(x.productId, x.quantity, PriceOf(snapshot, x.productId))];
        assert l[..|l| - 1] == LinesFor(snapshot, ys, skip);
      } else {
        assert l == LinesFor(snapshot, ys, skip);
      }
    }
  }

  /** Restocking keeps stock non-negative when every line is positive, and changes nothing but stock. */
  lemma RestockKeepsStock(products: map<int, Product>, lines: seq<OrderItem>)
    requires StocksNonNegative(products) && LinesValid(lines, products)
    ensures Restock(products, lines).Ok?
    ensures StockOnlyChange(products, Restock(products, lines).value)
  {
    RestockSpec(products, lines);
    var ps := Restock(products, lines).value;
    forall p | p in ps
      ensures ps[p].stock >= 0
    {
      LineDemandNonNegative(lines, p);
    }
  }

  /** Giving back the lines of a reservation restores the product table exactly. */
  lemma RestockUndoesReserve(snapshot: map<int, Product>, xs: seq<LineRequest>, skip: bool)
    requires CountedPositive(xs, skip) && Reserve(snapshot, xs, skip).Ok?
    ensures Restock(Reserve(snapshot, xs, skip).value.products, Reserve(snapshot, xs, skip).value.lines) == Ok(snapshot)
  {
    ReserveSpec(snapshot, xs, skip);
    var r := Reserve(snapshot, xs, skip).value;
    RestockSpec(r.products, r.lines);
    var ps := Restock(r.products, r.lines).value;
    forall p | p in snapshot
      ensures ps[p] == snapshot[p]
    {
      LinesForDemand(snapshot, xs, skip, p);
    }
    assert ps == snapshot;
  }

  // ----- the tables after an operation ---------------------------------------------------------

  /** Placing an order changes only stock and adds the order; every rule still holds. */
  lemma PlacingKeepsConsistency(t: Tables, id: int, o: Order, ps: map<int, Product>)
    requires Consistent(t) && id !in t.orders
    requires StockOnlyChange(t.products, ps) && LinesValid(o.items, t.products)
    ensures Consistent(t.(products := ps, orders := t.orders[id := o]))
  {
    var t' := t.(products := ps, orders := t.orders[id := o]);
    assert RatingsConsistent(t'.products, t'.reviews) by {
      forall p | p in ps
        ensures RatingAgrees(ps[p], t.reviews, p)
      {
        assert RatingAgrees(t.products[p], t.reviews, p);
      }
    }
  }

  /** A stock move and an order that keeps its lines keep every rule. */
  lemma RestockingKeepsConsistency(t: Tables, id: int, o: Order, ps: map<int, Product>)
    requires Consistent(t) && id in t.orders && o.items == t.orders[id].items
    requires StockOnlyChange(t.products, ps)
    ensures Consistent(t.(products := ps, orders := t.orders[id := o]))
  {
    var t' := t.(products := ps, orders := t.orders[id := o]);
    assert RatingsConsistent(t'.products, t'.reviews) by {
      forall p | p in ps
        ensures RatingAgrees(ps[p], t.reviews, p)
      {
        assert RatingAgrees(t.products[p], t.reviews, p);
      }
    }
  }

  // ----- the two loops, shared by the operations ----------------------------------------------

  /**
   * The order loop: for each processed line, check the loaded stock, run the
   * conditional decrement through `ProductService.decreaseStock`, and add the
   * line.  On failure only the product table may differ; the caller rolls back.
   */
  method ReserveLines(db: Database, xs: seq<LineRequest>, skip: bool) returns (r: Result<Reservation>)
    modifies db
    ensures r == Reserve(old(db.products), xs, skip)
    ensures r.Ok? ==> db.State() == old(db.State()).(products := r.value.products)
    ensures db.State() == old(db.State()).(products := db.products)
  {
    var snapshot := db.products;
    var lines: seq<OrderItem> := [];
    var total: Money := 0;
    var i := 0;
    while i < |xs|
      invariant 0 <= i <= |xs|
      invariant Reserve(snapshot, xs[..i], skip) == Ok(Reservation(db.products, lines, total))
      invariant db.State() == old(db.State()).(products := db.products)
    {
      assert xs[..i + 1][..i] == xs[..i];
      var x := xs[i];
      if Counted(x, skip) {
        if x.productId !in snapshot {
          ReserveErrSticks(snapshot, xs, skip, i + 1);
          return Err(NotFound("Product"));
        }
        var product := snapshot[x.productId];
        if product.stock < x.quantity {
          ReserveErrSticks(snapshot, xs, skip, i + 1);
          return Err(OperationFailed("insufficient stock"));
        }
        var decreased := ProductService.DecreaseStock(db, x.productId, x.quantity);
        if decreased.Err? {
          ReserveErrSticks(snapshot, xs, skip, i + 1);
          return Err(decreased.error);
        }
        lines := lines + [OrderItem(x.productId, x.quantity, product.price)];
        total := total + product.price * x.quantity;
      }
      i := i + 1;
    }
    assert xs[..i] == xs;
    return Ok(Reservation(db.products, lines, total));
  }

  /** The restock loop of the cancellations; a failed `increaseStock` becomes one `OperationFailed`. */
  method RestoreStock(db: Database, lines: seq<OrderItem>) returns (r: Result<()>)
    modifies db
    ensures r.Ok? <==> Restock(old(db.products), lines).Ok?
    ensures r.Ok? ==> db.State() == old(db.State()).(products := Restock(old(db.products), lines).value)
    ensures r.Err? ==> r.error == OperationFailed("restock")
    ensures db.State() == old(db.State()).(products := db.products)
  {
    var i := 0;
    while i < |lines|
      invariant 0 <= i <= |lines|
      invariant Restock(old(db.products), lines[..i]) == Ok(db.products)
      invariant db.State() == old(db.State()).(products := db.products)
    {
      assert lines[..i + 1][..i] == lines[..i];
      var increased := ProductService.IncreaseStock(db, lines[i].productId, lines[i].quantity);
      if increased.Err? {
        RestockSpec(old(db.products), lines[..i + 1]);
        RestockSpec(old(db.products), lines);
        assert lines[..i + 1][i] == lines[i];
        return Err(OperationFailed("restock"));
      }
      i := i + 1;
    }
    assert lines[..i] == lines;
    return Ok(());
  }

  // ----- createOrderFromSelectedItems ---------------------------------------------------------

  /** The payment gateway, when the VNPay service is configured: its settings, clock readings and primitives. */
  datatype Gateway = Gateway(
    cfg: VnPayService.VnPayConfig, createDate: string, expireDate: string,
    enc: VnPayService.Encoder, mac: VnPayService.Mac)

  datatype OrderRequest = OrderRequest(paymentMethod: PaymentMethod, shipping: Shipping, items: seq<LineRequest>)

  /** The order id and, for a VNPay order, the URL to send the buyer to. */
  datatype Placement = Placement(orderId: int, paymentInfo: Option<string>)

  ghost function PaymentLink(id: int, total: Money, ip: Option<string>, g: Gateway): Result<string> {
    VnPayService.PaymentUrl(VnPayService.PaymentParams(id, total, ip, g.cfg, g.createDate, g.expireDate),
                            g.cfg.hashSecret, g.enc, g.mac)
  }

  /** The payment URL fails only on an empty secret, whatever the order. */
  lemma PaymentLinkFails(id: int, total: Money, ip: Option<string>, g: Gateway)
    ensures PaymentLink(id, total, ip, g).Err? <==> g.cfg.hashSecret == []
  {
  }

  /** The VNPay link for a new order: it fails exactly when the secret is empty. */
  method BuildPaymentLink(id: int, total: Money, ip: Option<string>, g: Gateway) returns (r: Result<string>)
    ensures r == PaymentLink(id, total, ip, g)
    ensures r.Err? <==> g.cfg.hashSecret == []
  {
    r := VnPayService.CreatePaymentUrl(id, total, ip, g.cfg, g.createDate, g.expireDate, g.enc, g.mac);
    PaymentLinkFails(id, total, ip, g);
  }

  function PendingReference(id: int): string {
    "PENDING_VNPAY_" + IntToString(id)
  }

  predicate UsesGateway(req: OrderRequest, gateway: Option<Gateway>) {
    req.paymentMethod == VN_PAY && gateway.Some?
  }

  /** The refusal that comes after the stock is reserved: the gateway's secret is empty. */
  function SelectedPaymentFailure(req: OrderRequest, gateway: Option<Gateway>): Option<Failure> {
    if UsesGateway(req, gateway) && gateway.value.cfg.hashSecret == [] then Some(OperationFailed("hash")) else None
  }

  /** Why `createOrderFromSelectedItems` fails, if it does. */
  function SelectedFailure(t: Tables, req: OrderRequest, gateway: Option<Gateway>): Option<Failure> {
    if req.items == [] then Some(BadRequest("no items"))
    else match Reserve(t.products, req.items, true)
      case Err(e) => Some(e)
      case Ok(res) =>
        if res.lines == [] then Some(BadRequest("no valid items"))
        else SelectedPaymentFailure(req, gateway)
  }

  /** The order stored from a reservation of the selected lines. */
  function PlacedSelectedOrder(id: int, userId: int, req: OrderRequest, gateway: Option<Gateway>, res: Reservation): Order {
    Order(userId, res.total, PENDING, req.paymentMethod,
          if UsesGateway(req, gateway) then Some(PendingReference(id)) else None,
          None, req.shipping, res.lines)
  }

  /** The order stored by a successful call under id `id`. */
  function SelectedOrder(t: Tables, id: int, userId: int, req: OrderRequest, gateway: Option<Gateway>): Order
    requires Reserve(t.products, req.items, true).Ok?
  {
    PlacedSelectedOrder(id, userId, req, gateway, Reserve(t.products, req.items, true).value)
  }

  function SelectedState(t: Tables, id: int, userId: int, req: OrderRequest, gateway: Option<Gateway>): Tables
    requires Reserve(t.products, req.items, true).Ok?
  {
    t.(products := Reserve(t.products, req.items, true).value.products,
       orders := t.orders[id := SelectedOrder(t, id, userId, req, gateway)])
  }

  /**
   * `createOrderFromSelectedItems`.  The cart is left alone; a VNPay order
   * made while the gateway is not configured is stored without a reference
   * and without a URL.
   */
  method CreateOrderFromSelectedItems(db: Database, userId: int, req: OrderRequest, ip: Option<string>, gateway: Option<Gateway>)
    returns (r: Result<Placement>)
    modifies db
    ensures r.Err? <==> SelectedFailure(old(db.State()), req, gateway).Some?
    ensures r.Err? ==> r.error == SelectedFailure(old(db.State()), req, gateway).value && db.State() == old(db.State())
    ensures r.Ok? ==> r.value.orderId > 0 && r.value.orderId !in old(db.orders)
    ensures r.Ok? ==> db.State() == SelectedState(old(db.State()), r.value.orderId, userId, req, gateway)
    ensures r.Ok? ==>
              (r.value.paymentInfo ==
               if UsesGateway(req, gateway)
               then Some(PaymentLink(r.value.orderId, Reserve(old(db.products), req.items, true).value.total, ip, gateway.value).value)
               else None)
    ensures old(db.Valid()) ==> db.Valid()
  {
    var t0 := db.State();
    if req.items == [] {
      return Err(BadRequest("no items"));
    }
    var id := NewId(db.orders.Keys);
    var placeholder := Order(userId, 0, PENDING, req.paymentMethod, None, None, req.shipping, []);
    db.orders := db.orders[id := placeholder];
    var res := ReserveLines(db, req.items, true);
    if res.Err? {
      db.Restore(t0);
      return Err(res.error);
    }
    if res.value.lines == [] {
      db.Restore(t0);
      return Err(BadRequest("no valid items"));
    }
    assert Reserve(t0.products, req.items, true) == res;
    var link := SelectedPayment(id, res.value.total, req, ip, gateway);
    if link.Err? {
      db.Restore(t0);
      return Err(link.error);
    }
    StoreSelectedOrder(db, t0, id, userId, req, gateway, res.value, placeholder);
    if Consistent(t0) {
      ReserveSpec(t0.products, req.items, true);
      PlacingKeepsConsistency(t0, id, SelectedOrder(t0, id, userId, req, gateway), res.value.products);
    }
    return Ok(Placement(id, link.value));
  }

  /**
   * The payment step of `createOrderFromSelectedItems`: with the gateway
   * configured a VNPay order gets its signed URL, which fails on an empty
   * secret; without it, or for a cash order, there is no URL.
   */
  method SelectedPayment(id: int, total: Money, req: OrderRequest, ip: Option<string>, gateway: Option<Gateway>)
    returns (r: Result<Option<string>>)
    ensures r.Err? <==> SelectedPaymentFailure(req, gateway).Some?
    ensures r.Err? ==> r.error == SelectedPaymentFailure(req, gateway).value
    ensures r.Ok? ==> r.value == if UsesGateway(req, gateway) then Some(PaymentLink(id, total, ip, gateway.value).value) else None
  {
    if !(req.paymentMethod == VN_PAY && gateway.Some?) {
      return Ok(None);
    }
    var url := BuildPaymentLink(id, total, ip, gateway.value);
    if url.Err? {
      return Err(OperationFailed("hash"));
    }
    return Ok(Some(url.value));
  }

  /** The last step of `createOrderFromSelectedItems`: the order replaces its placeholder. */
  method StoreSelectedOrder(db: Database, t0: Tables, id: int, userId: int, req: OrderRequest,
                            gateway: Option<Gateway>, res: Reservation, placeholder: Order)
    requires db.State() == t0.(products := res.products, orders := t0.orders[id := placeholder])
    modifies db
    ensures db.State() == t0.(products := res.products, orders := t0.orders[id := PlacedSelectedOrder(id, userId, req, gateway, res)])
  {
    var reference := if req.paymentMethod == VN_PAY && gateway.Some? then Some(PendingReference(id)) else None;
    var stored := Order(userId, res.total, PENDING, req.paymentMethod, reference, None, req.shipping, res.lines);
    db.orders := db.orders[id := stored];
    assert db.orders == t0.orders[id := PlacedSelectedOrder(id, userId, req, gateway, res)];
  }

  // ----- createOrderFromCart -----------------------------------------------------------------

  function CartRequests(items: seq<CartItem>): (xs: seq<LineRequest>)
    ensures |xs| == |items|
  {
    seq(|items|, i requires 0 <= i < |items| => LineRequest(items[i].productId, items[i].quantity))
  }

  /** The refusals that come after the stock is reserved: a VNPay order needs a configured gateway with a secret. */
  function PaymentFailure(pm: PaymentMethod, gateway: Option<Gateway>): Option<Failure> {
    if pm == VN_PAY && gateway.None? then Some(OperationFailed("VNPay Service is not configured"))
    else if pm == VN_PAY && gateway.value.cfg.hashSecret == [] then Some(OperationFailed("hash"))
    else None
  }

  /** Why `createOrderFromCart` fails, if it does. */
  function CartFailure(t: Tables, userId: int, pm: PaymentMethod, gateway: Option<Gateway>): Option<Failure> {
    if userId !in t.carts then Some(NotFound("Cart"))
    else if t.carts[userId].items == [] then Some(BadRequest("empty cart"))
    else match Reserve(t.products, CartRequests(t.carts[userId].items), false)
      case Err(e) => Some(e)
      case Ok(_) => PaymentFailure(pm, gateway)
  }

  /** The order stored from a reservation of the cart's lines. */
  function PlacedCartOrder(id: int, userId: int, pm: PaymentMethod, res: Reservation): Order {
    Order(userId, res.total, PENDING, pm, if pm == VN_PAY then Some(PendingReference(id)) else None,
          None, Shipping(None, None, None, None), res.lines)
  }

  /** The tables after the order is stored, the stock moved and the whole cart deleted. */
  function PlacedCartState(t: Tables, id: int, userId: int, pm: PaymentMethod, res: Reservation): Tables {
    t.(products := res.products, orders := t.orders[id := PlacedCartOrder(id, userId, pm, res)], carts := t.carts - {userId})
  }

  function CartOrder(t: Tables, id: int, userId: int, pm: PaymentMethod): Order
    requires userId in t.carts && Reserve(t.products, CartRequests(t.carts[userId].items), false).Ok?
  {
    PlacedCartOrder(id, userId, pm, Reserve(t.products, CartRequests(t.carts[userId].items), false).value)
  }

  /** The order is stored, the stock moved, and the whole cart is deleted. */
  function CartState(t: Tables, id: int, userId: int, pm: PaymentMethod): Tables
    requires userId in t.carts && Reserve(t.products, CartRequests(t.carts[userId].items), false).Ok?
  {
    PlacedCartState(t, id, userId, pm, Reserve(t.products, CartRequests(t.carts[userId].items), false).value)
  }

  /** Placing the order from a consistent cart keeps every integrity rule. */
  lemma CartPlacingKeepsConsistency(t: Tables, id: int, userId: int, pm: PaymentMethod)
    requires Consistent(t) && id !in t.orders && userId in t.carts
    requires Reserve(t.products, CartRequests(t.carts[userId].items), false).Ok?
    ensures Consistent(CartState(t, id, userId, pm))
  {
    var items := t.carts[userId].items;
    var xs := CartRequests(items);
    assert CountedPositive(xs, false) by {
      assert CartLinesValid(items);
    }
    var res := Reserve(t.products, xs, false).value;
    ReserveSpec(t.products, xs, false);
    PlacingKeepsConsistency(t, id, CartOrder(t, id, userId, pm), res.products);
    var s := CartState(t, id, userId, pm);
    assert CartsConsistent(s.carts) by {
      assert CartsConsistent(t.carts);
    }
  }

  /**
   * `createOrderFromCart`.  Every cart line is processed (there is no
   * skipping of non-positive quantities here); the payment URL it builds is not
   * part of what it returns.
   */
  method CreateOrderFromCart(db: Database, userId: int, pm: PaymentMethod, ip: Option<string>, gateway: Option<Gateway>)
    returns (r: Result<int>)
    modifies db
    ensures r.Err? <==> CartFailure(old(db.State()), userId, pm, gateway).Some?
    ensures r.Err? ==> r.error == CartFailure(old(db.State()), userId, pm, gateway).value && db.State() == old(db.State())
    ensures r.Ok? ==> r.value > 0 && r.value !in old(db.orders)
    ensures r.Ok? ==> db.State() == CartState(old(db.State()), r.value, userId, pm)
    ensures old(db.Valid()) ==> db.Valid()
  {
    var t0 := db.State();
    if userId !in db.carts {
      return Err(NotFound("Cart"));
    }
    var cart := db.carts[userId];
    if cart.items == [] {
      return Err(BadRequest("empty cart"));
    }
    var id := NewId(db.orders.Keys);
    var placeholder := Order(userId, 0, PENDING, pm, None, None, Shipping(None, None, None, None), []);
    db.orders := db.orders[id := placeholder];
    var res := ReserveLines(db, CartRequests(cart.items), false);
    if res.Err? {
      db.Restore(t0);
      return Err(res.error);
    }
    assert Reserve(t0.products, CartRequests(t0.carts[userId].items), false) == res;
    var reference := CartPayment(id, res.value.total, pm, ip, gateway);
    if reference.Err? {
      db.Restore(t0);
      return Err(reference.error);
    }
    StoreCartOrder(db, t0, id, userId, pm, res.value, placeholder);
    if Consistent(t0) {
      CartPlacingKeepsConsistency(t0, id, userId, pm);
    }
    return Ok(id);
  }

  /** The last step of `createOrderFromCart`: the order replaces its placeholder and the cart is deleted. */
  method StoreCartOrder(db: Database, t0: Tables, id: int, userId: int, pm: PaymentMethod, res: Reservation, placeholder: Order)
    requires db.State() == t0.(products := res.products, orders := t0.orders[id := placeholder])
    modifies db
    ensures db.State() == PlacedCartState(t0, id, userId, pm, res)
  {
    var reference := if pm == VN_PAY then Some(PendingReference(id)) else None;
    var stored := Order(userId, res.total, PENDING, pm, reference, None, Shipping(None, None, None, None), res.lines);
    db.orders := db.orders[id := stored];
    db.carts := db.carts - {userId};
    assert db.orders == t0.orders[id := PlacedCartOrder(id, userId, pm, res)];
  }

  /**
   * The payment step of `createOrderFromCart`: a VNPay order needs the
   * gateway and a URL it can sign (the URL itself is dropped), and is then
   * stored with a pending reference; a cash order needs neither.
   */
  method CartPayment(id: int, total: Money, pm: PaymentMethod, ip: Option<string>, gateway: Option<Gateway>)
    returns (r: Result<Option<string>>)
    ensures r.Err? <==> PaymentFailure(pm, gateway).Some?
    ensures r.Err? ==> r.error == PaymentFailure(pm, gateway).value
    ensures r.Ok? ==> r.value == if pm == VN_PAY then Some(PendingReference(id)) else None
  {
    if pm != VN_PAY {
      return Ok(None);
    }
    if gateway.None? {
      return Err(OperationFailed("VNPay Service is not configured"));
    }
    var url := BuildPaymentLink(id, total, ip, gateway.value);
    if url.Err? {
      return Err(OperationFailed("hash"));
    }
    return Ok(Some(PendingReference(id)));
  }

  // ----- cancelOrder ---------------------------------------------------------------------------


  function CancelOutcome(t: Tables, orderId: int, reason: Option<string>): Outcome<bool> {
    if orderId !in t.orders then Outcome(t, Err(NotFound("Order")))
    else
      var o := t.orders[orderId];
      if !Cancellable(o.status) then Outcome(t, Err(BadRequest("status")))
      else match Restock(t.products, o.items)
        case Err(e) => Outcome(t, Err(e))
        case Ok(ps) =>
          if o.status == PAID && !PaymentService.RefundPayment(o.vnpayTransactionId, orderId)
          then Outcome(t, Err(OperationFailed("refund")))
          else Outcome(t.(products := ps, orders := t.orders[orderId := o.(status := CANCELED, cancellationReason := reason)]), Ok(true))
  }

  /** `cancelOrder`: the order becomes `CANCELED` with the reason, its stock comes back, and a paid order is refunded. */
  method CancelOrder(db: Database, orderId: int, reason: Option<string>) returns (r: Result<bool>)
    modifies db
    ensures db.State() == CancelOutcome(old(db.State()), orderId, reason).state
    ensures r == CancelOutcome(old(db.State()), orderId, reason).result
  {
    var t0 := db.State();
    if orderId !in db.orders {
      return Err(NotFound("Order"));
    }
    var o := db.orders[orderId];
    if !(o.status == PENDING || o.status == PAID || o.status == PROCESSING) {
      return Err(BadRequest("status"));
    }
    db.orders := db.orders[orderId := o.(status := CANCELED, cancellationReason := reason)];
    var restored := RestoreStock(db, o.items);
    if restored.Err? {
      db.Restore(t0);
      RestockSpec(t0.products, o.items);
      return Err(OperationFailed("restock"));
    }
    if o.status == PAID {
      var refunded := PaymentService.RefundPayment(o.vnpayTransactionId, orderId);
      if !refunded {
        db.Restore(t0);
        return Err(OperationFailed("refund"));
      }
    }
    return Ok(true);
  }

  /** A cancellation keeps every integrity rule. */
  lemma CancelKeepsConsistency(t: Tables, orderId: int, reason: Option<string>)
    requires Consistent(t)
    ensures Consistent(CancelOutcome(t, orderId, reason).state)
  {
    if orderId in t.orders && Cancellable(t.orders[orderId].status) {
      var o := t.orders[orderId];
      assert LinesValid(o.items, t.products);
      RestockKeepsStock(t.products, o.items);
      RestockingKeepsConsistency(t, orderId, o.(status := CANCELED, cancellationReason := reason), Restock(t.products, o.items).value);
    }
  }

  /** In a consistent database a cancellable order is always cancelled: restocking and the refund cannot fail. */
  lemma CancelSucceedsWhenAllowed(t: Tables, orderId: int, reason: Option<string>)
    requires Consistent(t) && orderId > 0 && orderId in t.orders && Cancellable(t.orders[orderId].status)
    ensures CancelOutcome(t, orderId, reason).result == Ok(true)
  {
    var o := t.orders[orderId];
    assert LinesValid(o.items, t.products);
    RestockKeepsStock(t.products, o.items);
    PaymentService.RefundSucceedsForStoredOrders(o.vnpayTransactionId, orderId);
  }

  /** Cancelling the order just placed from chosen lines gives every unit of stock back. */
  lemma CancelAfterPlacingRestoresStock(t: Tables, id: int, userId: int, req: OrderRequest, gateway: Option<Gateway>, reason: Option<string>)
    requires id > 0 && SelectedFailure(t, req, gateway).None?
    ensures CancelOutcome(SelectedState(t, id, userId, req, gateway), id, reason).result == Ok(true)
    ensures CancelOutcome(SelectedState(t, id, userId, req, gateway), id, reason).state.products == t.products
  {
    CountedPositiveWhenSkipping(req.items);
    RestockUndoesReserve(t.products, req.items, true);
    PaymentService.RefundSucceedsForStoredOrders(SelectedOrder(t, id, userId, req, gateway).vnpayTransactionId, id);
  }

  lemma CountedPositiveWhenSkipping(xs: seq<LineRequest>)
    ensures CountedPositive(xs, true)
  {
  }

  /** The requests with a positive quantity, in order. */
  function PositiveLines(xs: seq<LineRequest>): (r: seq<LineRequest>)
    ensures forall j :: 0 <= j < |r| ==> r[j].quantity > 0 && r[j] in xs
    ensures forall i :: 0 <= i < |xs| && xs[i].quantity > 0 ==> xs[i] in r
  {
    if xs == [] then []
    else
      var front := PositiveLines(xs[..|xs| - 1]);
      var last := xs[|xs| - 1];
      assert xs == xs[..|xs| - 1] + [last];
      if last.quantity > 0 then front + [last] else front
  }

  /**
   * Skipping lines of zero or less, as the selected-items loop does, is
   * running the plain loop over the positive lines only: the same stock
   * moves, order lines and total, and the same first failure.
   */
  lemma {:induction false} SkippingIsFiltering(snapshot: map<int, Product>, xs: seq<LineRequest>)
    ensures Reserve(snapshot, xs, true) == Reserve(snapshot, PositiveLines(xs), false)
  {
    if xs != [] {
      var ys := xs[..|xs| - 1];
      var x := xs[|xs| - 1];
      SkippingIsFiltering(snapshot, ys);
      if x.quantity > 0 {
        var zs := PositiveLines(xs);
        assert zs == PositiveLines(ys) + [x];
        assert zs[..|zs| - 1] == PositiveLines(ys);
      }
    }
  }

  // ----- updateOrderStatus ------------------------------------------------------------------------

  function UpdateStatusOutcome(t: Tables, orderId: int, newStatus: OrderStatus): Outcome<Order> {
    if orderId !in t.orders then Outcome(t, Err(NotFound("Order")))
    else
      var o := t.orders[orderId];
      if o.status == newStatus then Outcome(t, Ok(o))
      else if !CanTransition(o.status, newStatus) then Outcome(t, Err(BadRequest("transition")))
      else if newStatus != CANCELED then
        Outcome(t.(orders := t.orders[orderId := o.(status := newStatus)]), Ok(o.(status := newStatus)))
      else match Restock(t.products, o.items)
        case Err(e) => Outcome(t, Err(e))
        case Ok(ps) =>
          if o.status == PAID && !PaymentService.RefundPayment(o.vnpayTransactionId, orderId)
          then Outcome(t, Err(OperationFailed("refund")))
          else Outcome(t.(products := ps, orders := t.orders[orderId := o.(status := CANCELED)]), Ok(o.(status := CANCELED)))
  }

  /**
   * `updateOrderStatus`: the same status is a no-op; otherwise the move must
   * be in the table, and a move to `CANCELED` gives the stock back and refunds
   * a paid order (no cancellation reason is recorded).
   */
  method UpdateOrderStatus(db: Database, orderId: int, newStatus: OrderStatus) returns (r: Result<Order>)
    modifies db
    ensures db.State() == UpdateStatusOutcome(old(db.State()), orderId, newStatus).state
    ensures r == UpdateStatusOutcome(old(db.State()), orderId, newStatus).result
  {
    var t0 := db.State();
    if orderId !in db.orders {
      return Err(NotFound("Order"));
    }
    var o := db.orders[orderId];
    if o.status == newStatus {
      return Ok(o);
    }
    var valid := false;
    match o.status {
      case PENDING => valid := newStatus == PAID || newStatus == PROCESSING || newStatus == CANCELED;
      case PAID => valid := newStatus == PROCESSING || newStatus == SHIPPED || newStatus == CANCELED;
      case PROCESSING => valid := newStatus == SHIPPED || newStatus == CANCELED;
      case SHIPPED => valid := newStatus == COMPLETED;
      case COMPLETED => valid := false;
      case CANCELED => valid := false;
    }
    if !valid {
      return Err(BadRequest("transition"));
    }
    if newStatus == CANCELED {
      var restored := RestoreStock(db, o.items);
      if restored.Err? {
        db.Restore(t0);
        RestockSpec(t0.products, o.items);
        return Err(OperationFailed("restock"));
      }
      if o.status == PAID {
        var refunded := PaymentService.RefundPayment(o.vnpayTransactionId, orderId);
        if !refunded {
          db.Restore(t0);
          return Err(OperationFailed("refund"));
        }
      }
    }
    db.orders := db.orders[orderId := o.(status := newStatus)];
    return Ok(o.(status := newStatus));
  }

  /** A status change keeps every rule, and it only ever moves an order forward. */
  lemma UpdateStatusKeepsConsistency(t: Tables, orderId: int, newStatus: OrderStatus)
    requires Consistent(t)
    ensures Consistent(UpdateStatusOutcome(t, orderId, newStatus).state)
    ensures UpdateStatusOutcome(t, orderId, newStatus).result.Ok? && orderId in t.orders && t.orders[orderId].status != newStatus ==>
              Rank(t.orders[orderId].status) < Rank(newStatus)
  {
    if orderId in t.orders {
      var o := t.orders[orderId];
      if o.status != newStatus && CanTransition(o.status, newStatus) {
        TransitionsMoveForward(o.status, newStatus);
        if newStatus == CANCELED {
          assert LinesValid(o.items, t.products);
          RestockKeepsStock(t.products, o.items);
          RestockingKeepsConsistency(t, orderId, o.(status := CANCELED), Restock(t.products, o.items).value);
        } else {
          RestockingKeepsConsistency(t, orderId, o.(status := newStatus), t.products);
        }
      }
    }
  }

  /**
   * In a consistent database a status change succeeds exactly when the order
   * exists and keeps its status or the table allows the move; a refused change
   * leaves every table as it was, and an accepted one stores the new status.
   */
  lemma UpdateStatusSucceedsIff(t: Tables, orderId: int, newStatus: OrderStatus)
    requires Consistent(t) && orderId > 0
    ensures var u := UpdateStatusOutcome(t, orderId, newStatus);
            (u.result.Ok? <==> orderId in t.orders &&
                               (t.orders[orderId].status == newStatus || CanTransition(t.orders[orderId].status, newStatus))) &&
            (u.result.Err? ==> u.state == t) &&
            (u.result.Ok? ==> u.result.value.status == newStatus && u.state.orders[orderId] == u.result.value)
  {
    if orderId in t.orders {
      var o := t.orders[orderId];
      if o.status != newStatus && CanTransition(o.status, newStatus) && newStatus == CANCELED {
        assert LinesValid(o.items, t.products);
        RestockKeepsStock(t.products, o.items);
        PaymentService.RefundSucceedsForStoredOrders(o.vnpayTransactionId, orderId);
      }
    }
  }

  /** A cancellation is refused, with nothing changed, for a missing order and for one past processing. */
  lemma CancelRefusedUnlessAllowed(t: Tables, orderId: int, reason: Option<string>)
    requires orderId !in t.orders || !Cancellable(t.orders[orderId].status)
    ensures CancelOutcome(t, orderId, reason).state == t
    ensures CancelOutcome(t, orderId, reason).result ==
            if orderId !in t.orders then Err(NotFound("Order")) else Err(BadRequest("status"))
  {
  }

  // ----- handleVnpayReturn --------------------------------------------------------------------------

  function Lookup(m: map<string, string>, k: string): Option<string> {
    if k in m then Some(m[k]) else None
  }

  function OrderedIds(lines: seq<OrderItem>): set<int> {
    set i | 0 <= i < |lines| :: lines[i].productId
  }

  /** The cart lines whose product is not among `ids`, in their order. */
  function Without(items: seq<CartItem>, ids: set<int>): (r: seq<CartItem>)
    ensures forall c :: c in r <==> c in items && c.productId !in ids
  {
    if items == [] then []
    else
      var last := items[|items| - 1];
      Without(items[..|items| - 1], ids) + (if last.productId in ids then [] else [last])
  }

  /** After a successful payment the ordered products leave the buyer's cart; the cart itself stays, even when empty. */
  function CartsAfterPayment(carts: map<int, Cart>, userId: int, lines: seq<OrderItem>): map<int, Cart> {
    if userId in carts then carts[userId := carts[userId].(items := Without(carts[userId].items, OrderedIds(lines)))]
    else carts
  }

  /** What the return handler does to a pending order, given the verified parameters. */
  function ApplyReturn(t: Tables, orderId: int, rest: map<string, string>): Outcome<Order>
    requires orderId in t.orders
  {
    var o := t.orders[orderId];
    if Lookup(rest, "vnp_ResponseCode") == Some("00") then
      var paid := o.(status := PAID, vnpayTransactionId := Lookup(rest, "vnp_TransactionNo"));
      Outcome(t.(orders := t.orders[orderId := paid], carts := CartsAfterPayment(t.carts, o.userId, o.items)), Ok(paid))
    else match Restock(t.products, o.items)
      case Err(e) => Outcome(t, Err(e))
      case Ok(ps) => Outcome(t.(products := ps, orders := t.orders[orderId := o.(status := CANCELED)]), Ok(o.(status := CANCELED)))
  }

  ghost function ReturnOutcome(t: Tables, params: map<string, string>, gateway: Option<Gateway>): Outcome<Order> {
    if gateway.None? then Outcome(t, Err(OperationFailed("VNPay Service is not configured")))
    else
      var g := gateway.value;
      match VnPayService.SignatureVerdict(params, g.cfg.hashSecret, g.enc, g.mac)
      case Err(e) => Outcome(t, Err(e))
      case Ok(valid) =>
        if !valid then Outcome(t, Err(BadRequest("signature")))
        else
          var rest := params - {VnPayService.SecureHashKey};
          match ParseInt(Lookup(rest, "vnp_TxnRef"))
          case None => Outcome(t, Err(BadRequest("order id")))
          case Some(orderId) =>
            if orderId !in t.orders then Outcome(t, Err(NotFound("Order")))
            else if t.orders[orderId].status != PENDING then Outcome(t, Ok(t.orders[orderId]))
            else ApplyReturn(t, orderId, rest)
  }

  /**
   * `handleVnpayReturn`: after the signature check, a pending order becomes
   * `PAID` with the gateway's transaction number (response code "00") or
   * `CANCELED` with its stock given back; an order no longer pending is
   * returned untouched.
   */
  method HandleVnpayReturn(db: Database, params: map<string, string>, gateway: Option<Gateway>) returns (r: Result<Order>)
    modifies db
    ensures db.State() == ReturnOutcome(old(db.State()), params, gateway).state
    ensures r == ReturnOutcome(old(db.State()), params, gateway).result
  {
    var t0 := db.State();
    if gateway.None? {
      return Err(OperationFailed("VNPay Service is not configured"));
    }
    var g := gateway.value;
    var verdict, rest := VnPayService.ValidateReturnSignature(params, g.cfg.hashSecret, g.enc, g.mac);
    if verdict.Err? {
      return Err(verdict.error);
    }
    if !verdict.value {
      return Err(BadRequest("signature"));
    }
    var parsed := ParseInt(Lookup(rest, "vnp_TxnRef"));
    if parsed.None? {
      return Err(BadRequest("order id"));
    }
    var orderId := parsed.value;
    if orderId !in db.orders {
      return Err(NotFound("Order"));
    }
    if db.orders[orderId].status != PENDING {
      return Ok(db.orders[orderId]);
    }
    assert ReturnOutcome(t0, params, gateway) == ApplyReturn(t0, orderId, rest);
    r := SettlePendingOrder(db, orderId, rest);
  }

  /** The second half of the return handler: pay or cancel the pending order. */
  method SettlePendingOrder(db: Database, orderId: int, rest: map<string, string>) returns (r: Result<Order>)
    requires orderId in db.orders
    modifies db
    ensures db.State() == ApplyReturn(old(db.State()), orderId, rest).state
    ensures r == ApplyReturn(old(db.State()), orderId, rest).result
  {
    var t0 := db.State();
    var o := db.orders[orderId];
    if Lookup(rest, "vnp_ResponseCode") == Some("00") {
      var paid := o.(status := PAID, vnpayTransactionId := Lookup(rest, "vnp_TransactionNo"));
      db.orders := db.orders[orderId := paid];
      if o.userId in db.carts {
        var cart := db.carts[o.userId];
        var remaining := Without(cart.items, OrderedIds(o.items));
        if remaining != cart.items {
          db.carts := db.carts[o.userId := cart.(items := remaining)];
        } else {
          assert db.carts == db.carts[o.userId := cart.(items := remaining)];
        }
      }
      return Ok(paid);
    }
    db.orders := db.orders[orderId := o.(status := CANCELED)];
    var restored := RestoreStock(db, o.items);
    if restored.Err? {
      db.Restore(t0);
      RestockSpec(t0.products, o.items);
      return Err(OperationFailed("restock"));
    }
    return Ok(o.(status := CANCELED));
  }

  /** A successful return never leaves the order pending. */
  lemma ReturnLeavesNoPendingOrder(t: Tables, params: map<string, string>, gateway: Option<Gateway>)
    ensures ReturnOutcome(t, params, gateway).result.Ok? ==> ReturnOutcome(t, params, gateway).result.value.status != PENDING
  {
  }

  /** Delivering the same return twice changes nothing the second time and answers with the same order. */
  lemma ReturnIdempotent(t: Tables, params: map<string, string>, gateway: Option<Gateway>)
    requires ReturnOutcome(t, params, gateway).result.Ok?
    ensures ReturnOutcome(ReturnOutcome(t, params, gateway).state, params, gateway) == ReturnOutcome(t, params, gateway)
  {
    var first := ReturnOutcome(t, params, gateway);
    var g := gateway.value;
    var rest := params - {VnPayService.SecureHashKey};
    var orderId := ParseInt(Lookup(rest, "vnp_TxnRef")).value;
    if t.orders[orderId].status == PENDING {
      assert first.state.orders[orderId] == first.result.value;
    }
  }

  lemma WithoutKeepsLinesValid(items: seq<CartItem>, ids: set<int>)
    requires CartLinesValid(items)
    ensures CartLinesValid(Without(items, ids))
    decreases |items|
  {
    if items != [] {
      var prefix := items[..|items| - 1];
      assert CartLinesValid(prefix) by {
        forall i, j | 0 <= i < j < |prefix|
          ensures prefix[i].productId != prefix[j].productId
        {
          assert prefix[i] == items[i] && prefix[j] == items[j];
        }
      }
      WithoutKeepsLinesValid(prefix, ids);
      var w := Without(prefix, ids);
      var last := items[|items| - 1];
      if last.productId !in ids {
        forall i | 0 <= i < |w|
          ensures w[i].productId != last.productId
        {
          assert w[i] in prefix;
          var k :| 0 <= k < |prefix| && prefix[k] == w[i];
          assert items[k] == w[i];
        }
      }
    }
  }

  /** Processing a return keeps every integrity rule. */
  lemma ReturnKeepsConsistency(t: Tables, params: map<string, string>, gateway: Option<Gateway>)
    requires Consistent(t)
    ensures Consistent(ReturnOutcome(t, params, gateway).state)
  {
    if gateway.Some? {
      var g := gateway.value;
      var rest := params - {VnPayService.SecureHashKey};
      if VnPayService.SignatureVerdict(params, g.cfg.hashSecret, g.enc, g.mac) == Ok(true) && ParseInt(Lookup(rest, "vnp_TxnRef")).Some? {
        var orderId := ParseInt(Lookup(rest, "vnp_TxnRef")).value;
        if orderId in t.orders && t.orders[orderId].status == PENDING {
          assert ReturnOutcome(t, params, gateway) == ApplyReturn(t, orderId, rest);
          ApplyReturnKeepsConsistency(t, orderId, rest);
        }
      }
    }
  }

  /** Settling a pending order either way keeps every integrity rule. */
  lemma ApplyReturnKeepsConsistency(t: Tables, orderId: int, rest: map<string, string>)
    requires Consistent(t) && orderId in t.orders
    ensures Consistent(ApplyReturn(t, orderId, rest).state)
  {
    var o := t.orders[orderId];
    if Lookup(rest, "vnp_ResponseCode") == Some("00") {
      PaidReturnKeepsConsistency(t, orderId, o.(status := PAID, vnpayTransactionId := Lookup(rest, "vnp_TransactionNo")));
    } else {
      FailedReturnKeepsConsistency(t, orderId);
    }
  }

  /** A paid order keeps its lines, and the bought lines leave its buyer's cart. */
  lemma PaidReturnKeepsConsistency(t: Tables, orderId: int, paid: Order)
    requires Consistent(t) && orderId in t.orders && paid.items == t.orders[orderId].items
    requires paid.userId == t.orders[orderId].userId
    ensures Consistent(t.(orders := t.orders[orderId := paid], carts := CartsAfterPayment(t.carts, paid.userId, paid.items)))
  {
    if paid.userId in t.carts {
      WithoutKeepsLinesValid(t.carts[paid.userId].items, OrderedIds(paid.items));
    }
    RestockingKeepsConsistency(t, orderId, paid, t.products);
  }

  /** A refused payment cancels the order and puts its stock back. */
  lemma FailedReturnKeepsConsistency(t: Tables, orderId: int)
    requires Consistent(t) && orderId in t.orders
    ensures var o := t.orders[orderId];
            Restock(t.products, o.items).Ok? &&
            Consistent(t.(products := Restock(t.products, o.items).value, orders := t.orders[orderId := o.(status := CANCELED)]))
  {
    var o := t.orders[orderId];
    assert LinesValid(o.items, t.products);
    RestockKeepsStock(t.products, o.items);
    RestockingKeepsConsistency(t, orderId, o.(status := CANCELED), Restock(t.products, o.items).value);
  }
}
