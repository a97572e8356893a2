/**
 * `InvoiceService`: one invoice per order, created on first request, and the
 * invoice document built from the order.  The invoice number's random part
 * is the textual UUID the caller supplies.
 */
module InvoiceService {
  import opened Wrappers
  import opened Text
  import opened Entities
  import opened Store

  // ----- ensureInvoiceExists ---------------------------------------------------------

  predicate HasInvoice(invoices: map<int, Invoice>, orderId: int) {
    exists i :: i in invoices && invoices[i].orderId == orderId
  }

  /** `findByOrderOrderId`: the order's invoice, unique because the order column is one-to-one. */
  function InvoiceOf(invoices: map<int, Invoice>, orderId: int): (r: Option<int>)
    requires InvoicesUnique(invoices)
    ensures r.None? <==> !HasInvoice(invoices, orderId)
    ensures r.Some? ==> r.value in invoices && invoices[r.value].orderId == orderId
  {
    if HasInvoice(invoices, orderId) then
      var i :| i in invoices && invoices[i].orderId == orderId;
      Some(i)
    else None
  }

  /** `"INV-" + uuid.substring(0, 8).toUpperCase()`. */
  function InvoiceNumber(uuid: string): (r: string)
    requires |uuid| >= 8
    ensures |r| == 12 && r[..4] == "INV-"
    ensures forall i :: 4 <= i < 12 ==> r[i] == UpperChar(uuid[i - 4])
  {
    "INV-" + Upper(uuid[..8])
  }

  /** The invoice a first request creates: the order's total and a fresh number. */
  function NewInvoice(o: Order, orderId: int, uuid: string): Invoice
    requires |uuid| >= 8
  {
    Invoice(orderId, InvoiceNumber(uuid), o.totalAmount)
  }

  function EnsureFailure(t: Tables, orderId: int): Option<Failure>
    requires InvoicesUnique(t.invoices)
  {
    if InvoiceOf(t.invoices, orderId).None? && orderId !in t.orders then Some(NotFound("Order")) else None
  }

  /**
   * `ensureInvoiceExists`: the order's invoice if there is one, untouched;
   * otherwise a new one for an existing order.
   */
  method EnsureInvoiceExists(db: Database, orderId: int, uuid: string) returns (r: Result<int>)
    requires InvoicesUnique(db.invoices) && |uuid| >= 8
    modifies db
    ensures r.Err? <==> EnsureFailure(old(db.State()), orderId).Some?
    ensures r.Err? ==> r.error == NotFound("Order") && db.State() == old(db.State())
    ensures r.Ok? && HasInvoice(old(db.invoices), orderId) ==>
              r.value == InvoiceOf(old(db.invoices), orderId).value && db.State() == old(db.State())
    ensures r.Ok? && !HasInvoice(old(db.invoices), orderId) ==>
              r.value > 0 && r.value !in old(db.invoices) &&
              db.State() == old(db.State()).(invoices := old(db.invoices)[r.value := NewInvoice(old(db.orders)[orderId], orderId, uuid)])
  {
    if HasInvoice(db.invoices, orderId) {
      var i :| i in db.invoices && db.invoices[i].orderId == orderId;
      return Ok(i);
    }
    if orderId !in db.orders {
      return Err(NotFound("Order"));
    }
    var id := NewId(db.invoices.Keys);
    db.invoices := db.invoices[id := NewInvoice(db.orders[orderId], orderId, uuid)];
    return Ok(id);
  }

  /** The state after `ensureInvoiceExists` succeeds, with `id` the key a new invoice would get. */
  function EnsuredState(t: Tables, orderId: int, id: int, uuid: string): Tables
    requires InvoicesUnique(t.invoices) && |uuid| >= 8 && EnsureFailure(t, orderId).None?
  {
    if HasInvoice(t.invoices, orderId) then t
    else t.(invoices := t.invoices[id := NewInvoice(t.orders[orderId], orderId, uuid)])
  }

  /**
   * After a successful call the order has exactly one invoice, carrying the
   * order's total if it is new, every integrity rule still holds, and a
   * second call (with any UUID) changes nothing and returns that invoice.
   */
  lemma EnsureSpec(t: Tables, orderId: int, id: int, uuid: string, uuid2: string, id2: int)
    requires Consistent(t) && id !in t.invoices && |uuid| >= 8 && |uuid2| >= 8
    requires EnsureFailure(t, orderId).None?
    ensures var s := EnsuredState(t, orderId, id, uuid);
            Consistent(s) &&
            HasInvoice(s.invoices, orderId) &&
            (forall i, j ::
               i in s.invoices && j in s.invoices && s.invoices[i].orderId == orderId && s.invoices[j].orderId == orderId
               ==> i == j) &&
            (!HasInvoice(t.invoices, orderId) ==> s.invoices[id].totalAmount == t.orders[orderId].totalAmount) &&
            EnsureFailure(s, orderId).None? &&
            EnsuredState(s, orderId, id2, uuid2) == s
  {
    var s := EnsuredState(t, orderId, id, uuid);
    if !HasInvoice(t.invoices, orderId) {
      var nu := NewInvoice(t.orders[orderId], orderId, uuid);
      assert s.invoices[id] == nu;
      assert InvoicesUnique(s.invoices) by {
        forall a, b | a in s.invoices && b in s.invoices && a != b
          ensures s.invoices[a].orderId != s.invoices[b].orderId
        {
          if a == id {
            assert b in t.invoices;
          } else if b == id {
            assert a in t.invoices;
          }
        }
      }
      assert HasInvoice(s.invoices, orderId);
    }
  }

  /** An order with no invoice that does not exist is refused and gets no invoice. */
  lemma EnsureUnknownOrder(t: Tables, orderId: int)
    requires InvoicesUnique(t.invoices)
    ensures EnsureFailure(t, orderId).Some? <==> !HasInvoice(t.invoices, orderId) && orderId !in t.orders
  {
  }

  // ----- mapInvoiceToDetailDTO ------------------------------------------------------------

  /** One printed line: the product's name and barcode, or "N/A" for a product that is gone. */
  datatype InvoiceLine = InvoiceLine(productName: string, productSku: Option<string>, quantity: int, price: Money)

  /** The printed document. */
  datatype InvoiceDetail = InvoiceDetail(
    invoiceNumber: string,
    orderId: int,
    userId: int,
    customerEmail: string,
    shipping: Shipping,
    lines: seq<InvoiceLine>,
    subTotal: Money,
    shippingFee: Money,
    discountAmount: Money,
    totalAmount: Money,
    paymentMethod: PaymentMethod)

  function LineOf(products: map<int, Product>, item: OrderItem): InvoiceLine {
    if item.productId in products then
      InvoiceLine(products[item.productId].name, products[item.productId].barcode, item.quantity, item.price)
    else InvoiceLine("N/A", Some("N/A"), item.quantity, item.price)
  }

  /** The printed lines, one per order line, in order. */
  function Lines(products: map<int, Product>, items: seq<OrderItem>): (r: seq<InvoiceLine>)
    ensures |r| == |items|
    ensures forall i :: 0 <= i < |items| ==> r[i] == LineOf(products, items[i])
  {
    seq(|items|, i requires 0 <= i < |items| => LineOf(products, items[i]))
  }

  /** The sum of price times quantity over printed lines. */
  function LinesSum(lines: seq<InvoiceLine>): Money {
    if lines == [] then 0 else LinesSum(lines[..|lines| - 1]) + lines[|lines| - 1].price * lines[|lines| - 1].quantity
  }

  /** The subtotal loop. */
  method SubTotal(lines: seq<InvoiceLine>) returns (sum: Money)
    ensures sum == LinesSum(lines)
  {
    sum := 0;
    var i := 0;
    while i < |lines|
      invariant 0 <= i <= |lines|
      invariant sum == LinesSum(lines[..i])
    {
      assert lines[..i + 1][..i] == lines[..i];
      sum := sum + lines[i].price * lines[i].quantity;
      i := i + 1;
    }
    assert lines[..i] == lines;
  }

  /** The printed subtotal is the order lines' own total, whichever products are gone. */
  lemma {:induction false} SubTotalIsLinesTotal(products: map<int, Product>, items: seq<OrderItem>)
    ensures LinesSum(Lines(products, items)) == LinesTotal(items)
  {
    if items != [] {
      var n := |items| - 1;
      assert Lines(products, items)[..n] == Lines(products, items[..n]);
      SubTotalIsLinesTotal(products, items[..n]);
    }
  }

  /** The customer's e-mail, or "N/A" for a user that is gone. */
  function CustomerEmail(users: map<int, User>, userId: int): string {
    if userId in users then users[userId].email else "N/A"
  }

  /** The document for an invoice; an invoice whose order is gone is not found. */
  function Detail(t: Tables, invoiceId: int): (r: Result<InvoiceDetail>)
    requires invoiceId in t.invoices
    ensures r.Err? <==> t.invoices[invoiceId].orderId !in t.orders
    ensures r.Ok? ==>
              var inv := t.invoices[invoiceId];
              var o := t.orders[inv.orderId];
              r.value.invoiceNumber == inv.invoiceNumber && r.value.orderId == inv.orderId &&
              r.value.userId == o.userId && |r.value.lines| == |o.items| &&
              r.value.subTotal == LinesTotal(o.items) &&
              r.value.shippingFee == 0 && r.value.discountAmount == 0 &&
              r.value.totalAmount == o.totalAmount && r.value.paymentMethod == o.paymentMethod
  {
    var inv := t.invoices[invoiceId];
    if inv.orderId !in t.orders then Err(NotFound("Order"))
    else
      var o := t.orders[inv.orderId];
      var lines := Lines(t.products, o.items);
      SubTotalIsLinesTotal(t.products, o.items);
      Ok(InvoiceDetail(inv.invoiceNumber, inv.orderId, o.userId, CustomerEmail(t.users, o.userId), o.shipping,
                       lines, LinesSum(lines), 0, 0, o.totalAmount, o.paymentMethod))
  }

  /** `mapInvoiceToDetailDTO`, with the subtotal summed by the loop. */
  method MapInvoiceToDetail(db: Database, invoiceId: int) returns (r: Result<InvoiceDetail>)
    requires invoiceId in db.invoices
    ensures r == Detail(db.State(), invoiceId)
  {
    var inv := db.invoices[invoiceId];
    if inv.orderId !in db.orders {
      return Err(NotFound("Order"));
    }
    var o := db.orders[inv.orderId];
    var lines := Lines(db.products, o.items);
    var sub := SubTotal(lines);
    var email := if o.userId in db.users then db.users[o.userId].email else "N/A";
    return Ok(InvoiceDetail(inv.invoiceNumber, inv.orderId, o.userId, email, o.shipping,
                            lines, sub, 0, 0, o.totalAmount, o.paymentMethod));
  }

  /** `getInvoiceDetails`: the invoice, created if need be, then its document. */
  method GetInvoiceDetails(db: Database, orderId: int, uuid: string) returns (r: Result<InvoiceDetail>)
    requires InvoicesUnique(db.invoices) && |uuid| >= 8
    modifies db
    ensures r.Err? <==> EnsureFailure(old(db.State()), orderId).Some? ||
                        (HasInvoice(old(db.invoices), orderId) && orderId !in old(db.orders))
    ensures r.Err? ==> db.State() == old(db.State())
    ensures r.Ok? ==> exists id ::
                        (!HasInvoice(old(db.invoices), orderId) ==> id !in old(db.invoices)) &&
                        db.State() == EnsuredState(old(db.State()), orderId, id, uuid)
    ensures r.Ok? ==> exists i :: i in db.invoices && db.invoices[i].orderId == orderId && r == Detail(db.State(), i)
    ensures r.Ok? ==> r.value.orderId == orderId && orderId in db.orders && r.value.subTotal == LinesTotal(db.orders[orderId].items) &&
                      r.value.totalAmount == db.orders[orderId].totalAmount
  {
    var t0 := db.State();
    var ensured := EnsureInvoiceExists(db, orderId, uuid);
    if ensured.Err? {
      return Err(ensured.error);
    }
    r := MapInvoiceToDetail(db, ensured.value);
    if r.Err? {
      db.Restore(t0);
    } else {
      assert db.State() == EnsuredState(t0, orderId, ensured.value, uuid);
      assert db.invoices[ensured.value].orderId == orderId;
    }
  }

  /** The printed e-mail is the customer's whenever the customer still exists. */
  lemma DetailDefaults(t: Tables, invoiceId: int)
    requires invoiceId in t.invoices && t.invoices[invoiceId].orderId in t.orders
    ensures var o := t.orders[t.invoices[invoiceId].orderId];
            var d := Detail(t, invoiceId).value;
            (o.userId in t.users ==> d.customerEmail == t.users[o.userId].email) &&
            (o.userId !in t.users ==> d.customerEmail == "N/A") &&
            forall i :: 0 <= i < |o.items| && o.items[i].productId !in t.products ==>
              d.lines[i].productName == "N/A" && d.lines[i].productSku == Some("N/A")
  {
  }
}
