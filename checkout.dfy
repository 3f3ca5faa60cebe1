/** Completing a sale on the sales screen (`completeSale` in
    src/components/Ventas.tsx): the sale row, the stock write-back from the
    catalog snapshot the screen loaded, and the cash-drawer income entry.
    The three tables are the fields of a `Store`; the clock is a parameter. */
module Checkout {
  import opened Options
  import opened Seqs
  import opened Text
  import opened Entities
  import Cart
  import Reports

  // ---------------------------------------------------------------------
  // Constants of the sale record

  /** The user every sale is recorded under. */
  const SellerId: string := "00000000-0000-0000-0000-000000000003"
  const SellerName: string := "Damian"

  /** The category of the income entry a sale writes to the cash drawer. */
  const SaleCategory: string := "venta"

  /** `V-${Date.now()}`: the sale number from the clock's milliseconds. */
  function SaleNumber(millis: nat): (r: string)
    ensures |r| >= 3 && r[..2] == "V-"
    ensures forall k :: 2 <= k < |r| ==> IsDigit(r[k])
    ensures DigitsValue(r[2..]) == millis
    ensures r[2..] == NatToString(millis)
  {
    NatToStringValue(millis);
    var r := "V-" + NatToString(millis);
    assert r[2..] == NatToString(millis);
    r
  }

  // ---------------------------------------------------------------------
  // The records a sale writes

  /** The row inserted into the sales table: the cart as its lines, the
      cart's total as subtotal and total, no discount. `createdAt` is the
      table's default timestamp, taken to be the same instant. */
  function SaleFor(cart: seq<SaleItem>, shift: Shift, paymentMethod: string,
                   millis: nat, isoNow: string): (s: Sale)
    ensures s.items == Lines(cart) && s.shiftId == shift.id && s.paymentMethod == paymentMethod
    ensures s.discount == 0 && s.total == s.subtotal - s.discount
    ensures s.userId == SellerId && s.userName == SellerName
    ensures s.saleNumber == SaleNumber(millis) && s.date == isoNow && s.createdAt == isoNow
  {
    var total := Cart.Total(cart);
    Sale(SaleNumber(millis), isoNow, isoNow, SellerId, SellerName, shift.id,
         Lines(cart), total, 0, total, paymentMethod)
  }

  /** The income entry that records a sale in its shift's cash drawer. */
  function IncomeFor(s: Sale): (e: CashEntry)
    ensures e.shiftId == s.shiftId && e.kind == Income && e.category == SaleCategory
    ensures e.amount == s.total && e.paymentMethod == s.paymentMethod
    ensures e.description == "Venta " + s.saleNumber
  {
    CashEntry(s.shiftId, Income, SaleCategory, s.total, s.paymentMethod, "Venta " + s.saleNumber)
  }

  /** The income entries of a list of sales, one per sale, in order. */
  function IncomesFor(sales: seq<Sale>): (r: seq<CashEntry>)
    ensures |r| == |sales|
  {
    if sales == [] then [] else IncomesFor(sales[..|sales| - 1]) + [IncomeFor(sales[|sales| - 1])]
  }

  function IsSaleEntry(e: CashEntry): bool {
    e.category == SaleCategory
  }

  /** The cash drawer's "venta" entries are exactly one income per sale, in
      the order of the sales. */
  predicate Reconciled(sales: seq<Sale>, cash: seq<CashEntry>) {
    Filter(cash, IsSaleEntry) == IncomesFor(sales)
  }

  /** Sum of the amounts of a list of cash entries. */
  function CashSum(cash: seq<CashEntry>): int {
    if cash == [] then 0 else CashSum(cash[..|cash| - 1]) + cash[|cash| - 1].amount
  }

  // ---------------------------------------------------------------------
  // The stock write-back

  /** `k` is the first row with identifier `id`. */
  predicate IsFirstWithId(rows: seq<Product>, id: string, k: int) {
    0 <= k < |rows| && rows[k].id == id &&
    forall j :: 0 <= j < k ==> rows[j].id != id
  }

  /** `products.find(p => p.id === id)` on the loaded catalog. */
  function FindProduct(rows: seq<Product>, id: string): (r: Option<Product>)
    ensures r.None? <==> forall k :: 0 <= k < |rows| ==> rows[k].id != id
    ensures r.Some? ==> exists k :: IsFirstWithId(rows, id, k) && rows[k] == r.value
  {
    if rows == [] then None
    else if rows[0].id == id then
      assert IsFirstWithId(rows, id, 0);
      Some(rows[0])
    else
      var r := FindProduct(rows[1..], id);
      assert r.Some? ==> exists k :: IsFirstWithId(rows, id, k) && rows[k] == r.value by {
        if r.Some? {
          var k :| IsFirstWithId(rows[1..], id, k) && rows[1..][k] == r.value;
          assert IsFirstWithId(rows, id, k + 1);
        }
      }
      r
  }

  /** `update({stock: v}).eq('id', id)`: every row with that identifier
      gets stock `v`. */
  function SetStock(rows: seq<Product>, id: string, v: int): seq<Product> {
    seq(|rows|, k requires 0 <= k < |rows| => if rows[k].id == id then rows[k].(stock := v) else rows[k])
  }

  /** One pass of the write-back loop: a line whose product is in the
      snapshot writes the snapshot's stock minus the line's quantity. */
  function ApplyLine(rows: seq<Product>, snapshot: seq<Product>, item: SaleItem): seq<Product> {
    match FindProduct(snapshot, item.productId)
    case Some(p) => SetStock(rows, item.productId, p.stock - item.quantity)
    case None => rows
  }

  /** The products table after the write-back loop has run over `cart`. */
  function StockAfter(rows: seq<Product>, snapshot: seq<Product>, cart: seq<SaleItem>): (r: seq<Product>)
    ensures |r| == |rows|
  {
    if cart == [] then rows
    else ApplyLine(StockAfter(rows, snapshot, cart[..|cart| - 1]), snapshot, cart[|cart| - 1])
  }

  /** The last line of the cart for product `id`. */
  function LastLineFor(cart: seq<SaleItem>, id: string): (r: Option<SaleItem>)
    ensures r.None? <==> forall k :: 0 <= k < |cart| ==> cart[k].productId != id
    ensures r.Some? ==> exists k :: IsLastLineFor(cart, id, k) && cart[k] == r.value
  {
    if cart == [] then None
    else if cart[|cart| - 1].productId == id then
      assert IsLastLineFor(cart, id, |cart| - 1);
      Some(cart[|cart| - 1])
    else
      var prefix := cart[..|cart| - 1];
      var r := LastLineFor(prefix, id);
      assert forall k :: 0 <= k < |prefix| ==> prefix[k] == cart[k];
      assert r.Some? ==> exists k :: IsLastLineFor(cart, id, k) && cart[k] == r.value by {
        if r.Some? {
          var k :| IsLastLineFor(prefix, id, k) && prefix[k] == r.value;
          assert IsLastLineFor(cart, id, k);
        }
      }
      r
  }

  /** `k` is the last line of the cart that is for product `id`. */
  predicate IsLastLineFor(cart: seq<SaleItem>, id: string, k: int) {
    0 <= k < |cart| && cart[k].productId == id &&
    forall j :: k < j < |cart| ==> cart[j].productId != id
  }

  /** What the write-back makes of one row: a row whose product has a line
      in the cart and is in the snapshot gets the snapshot's stock minus the
      quantity of the product's last line; every other row is unchanged. */
  function ExpectedRow(row: Product, snapshot: seq<Product>, cart: seq<SaleItem>): (r: Product)
    ensures r == row.(stock := r.stock)
  {
    match LastLineFor(cart, row.id)
    case None => row
    case Some(l) =>
      match FindProduct(snapshot, row.id)
      case None => row
      case Some(p) => row.(stock := p.stock - l.quantity)
  }

  /** The write-back loop, row by row: the new stock depends only on the
      snapshot and the cart, never on the stock the row holds when it is
      overwritten. */
  lemma {:induction false} StockAfterSpec(rows: seq<Product>, snapshot: seq<Product>, cart: seq<SaleItem>)
    ensures forall k :: 0 <= k < |rows| ==> StockAfter(rows, snapshot, cart)[k] == ExpectedRow(rows[k], snapshot, cart)
  {
    if cart != [] {
      var prefix := cart[..|cart| - 1];
      var l := cart[|cart| - 1];
      StockAfterSpec(rows, snapshot, prefix);
      forall k | 0 <= k < |rows|
        ensures StockAfter(rows, snapshot, cart)[k] == ExpectedRow(rows[k], snapshot, cart)
      {
        var before := StockAfter(rows, snapshot, prefix);
        assert before[k] == ExpectedRow(rows[k], snapshot, prefix);
        assert before[k].id == rows[k].id;
        if rows[k].id != l.productId {
          assert LastLineFor(cart, rows[k].id) == LastLineFor(prefix, rows[k].id);
        } else {
          assert LastLineFor(cart, rows[k].id) == Some(l);
        }
      }
    }
  }

  /** For a cart with one line per product (as the cart operations keep
      it): the product of a line that is in the snapshot ends with the
      snapshot's stock minus the line's quantity, and a product without a
      line, or missing from the snapshot, keeps its row. */
  lemma StockAfterUniqueCart(rows: seq<Product>, snapshot: seq<Product>, cart: seq<SaleItem>)
    requires Cart.UniqueProducts(cart)
    ensures forall k, j, p ::
              (0 <= k < |rows| && 0 <= j < |cart| && rows[k].id == cart[j].productId &&
               FindProduct(snapshot, rows[k].id) == Some(p)) ==>
              StockAfter(rows, snapshot, cart)[k] == rows[k].(stock := p.stock - cart[j].quantity)
    ensures forall k :: 0 <= k < |rows| && FindProduct(snapshot, rows[k].id).None? ==>
                        StockAfter(rows, snapshot, cart)[k] == rows[k]
    ensures forall k :: 0 <= k < |rows| && (forall j :: 0 <= j < |cart| ==> cart[j].productId != rows[k].id) ==>
                        StockAfter(rows, snapshot, cart)[k] == rows[k]
  {
    StockAfterSpec(rows, snapshot, cart);
    forall k, j | 0 <= k < |rows| && 0 <= j < |cart| && rows[k].id == cart[j].productId
      ensures LastLineFor(cart, rows[k].id) == Some(cart[j])
    {
      var i :| IsLastLineFor(cart, rows[k].id, i) && cart[i] == LastLineFor(cart, rows[k].id).value;
      assert i == j;
    }
  }

  /** The snapshot is stale: the product was loaded with 1 unit, another
      till has since raised the row to 5, and a cart of 3 units writes
      1 - 3 = -2 over it. */
  lemma StaleSnapshotOverwrites()
    ensures var loaded := Product("p1", "A1", "Yerba", "", "Almacén", 250, 200, 1, 2, true);
            var current := loaded.(stock := 5);
            var cart := [SaleItem("p1", "Yerba", 3, 250, 750)];
            StockAfter([current], [loaded], cart) == [current.(stock := -2)]
  {
    var loaded := Product("p1", "A1", "Yerba", "", "Almacén", 250, 200, 1, 2, true);
    var current := loaded.(stock := 5);
    var cart := [SaleItem("p1", "Yerba", 3, 250, 750)];
    StockAfterSpec([current], [loaded], cart);
    assert LastLineFor(cart, "p1") == Some(cart[0]);
    assert FindProduct([loaded], "p1") == Some(loaded);
  }

  // ---------------------------------------------------------------------
  // What a completed sale does to the reports

  /** The sale's total is the cart's total, and the sum of units times
      price when every line is consistent; its unit count is the cart's. */
  lemma SaleForTotals(cart: seq<SaleItem>, shift: Shift, paymentMethod: string, millis: nat, isoNow: string)
    ensures var s := SaleFor(cart, shift, paymentMethod, millis, isoNow);
            && s.total == Cart.Total(cart)
            && (Cart.LinesConsistent(cart) ==> s.total == Cart.Value(cart))
            && Reports.ItemCount(s) == Reports.ItemsQuantity(cart)
  {
    if Cart.LinesConsistent(cart) {
      Cart.TotalIsValue(cart);
    }
  }

  /** Recording a sale raises the reported revenue by the cart's total and
      the reported units by the cart's units. */
  lemma SaleRaisesReports(sales: seq<Sale>, cart: seq<SaleItem>, shift: Shift, paymentMethod: string,
                          millis: nat, isoNow: string)
    ensures var s := SaleFor(cart, shift, paymentMethod, millis, isoNow);
            && Reports.TotalSales(sales + [s]) == Reports.TotalSales(sales) + Cart.Total(cart)
            && Reports.TotalItems(sales + [s]) == Reports.TotalItems(sales) + Reports.ItemsQuantity(cart)
  {
    var s := SaleFor(cart, shift, paymentMethod, millis, isoNow);
    assert (sales + [s])[..|sales + [s]| - 1] == sales;
  }

  /** Recording a sale together with its income entry keeps the drawer
      reconciled with the sales table. */
  lemma {:induction false} ReconciledStep(sales: seq<Sale>, cash: seq<CashEntry>, s: Sale)
    requires Reconciled(sales, cash)
    ensures Reconciled(sales + [s], cash + [IncomeFor(s)])
  {
    FilterAppend(cash, [IncomeFor(s)], IsSaleEntry);
    assert Filter([IncomeFor(s)], IsSaleEntry) == [IncomeFor(s)];
    assert (sales + [s])[..|sales + [s]| - 1] == sales;
  }

  /** In a reconciled drawer the "venta" income equals the revenue the
      reports screen shows for the same sales. */
  lemma {:induction false} ReconciledRevenue(sales: seq<Sale>, cash: seq<CashEntry>)
    requires Reconciled(sales, cash)
    ensures CashSum(Filter(cash, IsSaleEntry)) == Reports.TotalSales(sales)
  {
    IncomesRevenue(sales);
  }

  lemma {:induction false} IncomesRevenue(sales: seq<Sale>)
    ensures CashSum(IncomesFor(sales)) == Reports.TotalSales(sales)
  {
    if sales != [] {
      IncomesRevenue(sales[..|sales| - 1]);
      var r := IncomesFor(sales);
      assert r[..|r| - 1] == IncomesFor(sales[..|sales| - 1]);
    }
  }

  // ---------------------------------------------------------------------
  // The tables

  /** The alert `completeSale` ends with. */
  datatype Outcome = EmptyCartOrNoShift | SaleCompleted

  /** The products, sales and cash-transactions tables. */
  class Store {
    var products: seq<Product>
    var sales: seq<Sale>
    var cash: seq<CashEntry>

    /** The drawer's sale entries match the sales table. */
    predicate Valid()
      reads this
    {
      Reconciled(sales, cash)
    }

    /** A store with the given products and no sales yet. */
    constructor (products: seq<Product>)
      ensures this.products == products && sales == [] && cash == []
      ensures Valid()
    {
      this.products := products;
      sales := [];
      cash := [];
    }

    /** `completeSale()`: with an empty cart or no open shift nothing is
        written. Otherwise, in this order: the sale row is inserted; for
        each cart line whose product is in the loaded `catalog`, that
        product's stock is set to the catalog's (possibly stale) stock
        minus the line's quantity; the income entry is inserted; the cart
        is emptied and the catalog reloaded. Nothing is checked or undone:
        stock may become negative. */
    method CompleteSale(cart: seq<SaleItem>, shift: Option<Shift>, catalog: seq<Product>,
                        paymentMethod: string, millis: nat, isoNow: string)
      returns (outcome: Outcome, cartAfter: seq<SaleItem>, catalogAfter: seq<Product>)
      modifies this
      ensures cart == [] || shift.None? ==>
                outcome == EmptyCartOrNoShift && cartAfter == cart && catalogAfter == catalog &&
                products == old(products) && sales == old(sales) && cash == old(cash)
      ensures cart != [] && shift.Some? ==>
                var s := SaleFor(cart, shift.value, paymentMethod, millis, isoNow);
                && outcome == SaleCompleted
                && sales == old(sales) + [s]
                && products == StockAfter(old(products), catalog, cart)
                && cash == old(cash) + [IncomeFor(s)]
                && cartAfter == []
                && catalogAfter == Cart.Catalog(products)
      ensures old(Valid()) ==> Valid()
    {
      if cart == [] || shift.None? {
        return EmptyCartOrNoShift, cart, catalog;
      }
      var s := SaleFor(cart, shift.value, paymentMethod, millis, isoNow);
      sales := sales + [s];

      var i := 0;
      while i < |cart|
        invariant 0 <= i <= |cart|
        invariant products == StockAfter(old(products), catalog, cart[..i])
        invariant sales == old(sales) + [s] && cash == old(cash)
      {
        var item := cart[i];
        var prod := FindProduct(catalog, item.productId);
        if prod.Some? {
          products := SetStock(products, item.productId, prod.value.stock - item.quantity);
        }
        assert cart[..i + 1][..i] == cart[..i];
        i := i + 1;
      }
      assert cart[..i] == cart;

      cash := cash + [IncomeFor(s)];
      if old(Valid()) {
        ReconciledStep(old(sales), old(cash), s);
      }
      outcome, cartAfter, catalogAfter := SaleCompleted, [], Cart.Catalog(products);
    }
  }
}
