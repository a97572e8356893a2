/**
 * The two conditional UPDATE statements of `ProductRepository` that move
 * stock.  Each returns the number of rows it changed, 0 or 1.
 */
module ProductRepository {
  import opened Entities
  import opened Store

  /** The table after `stock = stock - q WHERE productId = pid AND stock >= q`. */
  function StockDecreased(products: map<int, Product>, pid: int, q: int): map<int, Product> {
    if pid in products && products[pid].stock >= q
    then products[pid := products[pid].(stock := products[pid].stock - q)]
    else products
  }

  /** The table after `stock = stock + q WHERE productId = pid`. */
  function StockIncreased(products: map<int, Product>, pid: int, q: int): map<int, Product> {
    if pid in products
    then products[pid := products[pid].(stock := products[pid].stock + q)]
    else products
  }

  method DecreaseStock(db: Database, pid: int, q: int) returns (rows: int)
    modifies db
    ensures rows == (if pid in old(db.products) && old(db.products)[pid].stock >= q then 1 else 0)
    ensures db.State() == old(db.State()).(products := StockDecreased(old(db.products), pid, q))
  {
    if pid in db.products && db.products[pid].stock >= q {
      db.products := db.products[pid := db.products[pid].(stock := db.products[pid].stock - q)];
      rows := 1;
    } else {
      rows := 0;
    }
  }

  method IncreaseStock(db: Database, pid: int, q: int) returns (rows: int)
    modifies db
    ensures rows == (if pid in old(db.products) then 1 else 0)
    ensures db.State() == old(db.State()).(products := StockIncreased(old(db.products), pid, q))
  {
    if pid in db.products {
      db.products := db.products[pid := db.products[pid].(stock := db.products[pid].stock + q)];
      rows := 1;
    } else {
      rows := 0;
    }
  }

  /** Only the stock column of the one named row can change. */
  lemma StockUpdatesTouchOneRow(products: map<int, Product>, pid: int, q: int)
    ensures StockDecreased(products, pid, q).Keys == products.Keys
    ensures StockIncreased(products, pid, q).Keys == products.Keys
    ensures forall p :: p in products && p != pid ==>
              StockDecreased(products, pid, q)[p] == products[p] && StockIncreased(products, pid, q)[p] == products[p]
    ensures pid in products ==>
              StockDecreased(products, pid, q)[pid] == products[pid].(stock := StockDecreased(products, pid, q)[pid].stock) &&
              StockIncreased(products, pid, q)[pid] == products[pid].(stock := products[pid].stock + q)
  {
  }

  /** A decrease that succeeded is undone by the matching increase. */
  lemma IncreaseUndoesDecrease(products: map<int, Product>, pid: int, q: int)
    requires pid in products && products[pid].stock >= q
    ensures StockIncreased(StockDecreased(products, pid, q), pid, q) == products
  {
    assert StockIncreased(StockDecreased(products, pid, q), pid, q)[pid] == products[pid];
  }

  /** With a non-negative quantity neither update can make a stock negative. */
  lemma StockStaysNonNegative(products: map<int, Product>, pid: int, q: int)
    requires StocksNonNegative(products) && q >= 0
    ensures StocksNonNegative(StockDecreased(products, pid, q))
    ensures StocksNonNegative(StockIncreased(products, pid, q))
  {
  }
}
