/** The sales screen's cart (src/components/Ventas.tsx): adding a product,
    changing a line's quantity, the running total, the catalog offered for
    sale and the name search over it. Each operation builds a new sequence
    of lines, as the screen builds a new array. */
module Cart {
  import opened Options
  import opened Seqs
  import opened Text
  import opened Entities

  // ---------------------------------------------------------------------
  // Catalog and search

  /** The products the screen loads: active and with stock left. */
  predicate IsSellable(p: Product) {
    p.active && p.stock > 0
  }

  /** The catalog query over the rows of the products table. */
  function Catalog(rows: seq<Product>): (r: seq<Product>)
    ensures forall k :: 0 <= k < |r| ==> r[k].active && r[k].stock > 0
  {
    Filter(rows, IsSellable)
  }

  /** The catalog is exactly the sellable rows, each as often as it occurs,
      in table order. */
  lemma CatalogExact(rows: seq<Product>)
    ensures forall p :: p in Catalog(rows) <==> p in rows && p.active && p.stock > 0
    ensures forall p :: multiset(Catalog(rows))[p] ==
                        if p.active && p.stock > 0 then multiset(rows)[p] else 0
    ensures IsSubsequence(Catalog(rows), rows)
  {
    FilterExact(rows, IsSellable);
    FilterIsSubsequence(rows, IsSellable);
  }

  /** The search box of the sales screen compares product names only. */
  function NameMatches(search: string): Product -> bool {
    (p: Product) => Includes(Lower(p.name), Lower(search))
  }

  /** The products shown for a search term. */
  function SearchByName(catalog: seq<Product>, search: string): (r: seq<Product>)
    ensures forall k :: 0 <= k < |r| ==> Includes(Lower(r[k].name), Lower(search))
  {
    Filter(catalog, NameMatches(search))
  }

  /** The search keeps exactly the products whose lower-cased name contains
      the lower-cased term, each as often as it occurs, in order; an empty
      term keeps them all. */
  lemma SearchByNameExact(catalog: seq<Product>, search: string)
    ensures forall p :: p in SearchByName(catalog, search) <==>
      p in catalog && Includes(Lower(p.name), Lower(search))
    ensures forall p :: multiset(SearchByName(catalog, search))[p] ==
                        if Includes(Lower(p.name), Lower(search)) then multiset(catalog)[p] else 0
    ensures IsSubsequence(SearchByName(catalog, search), catalog)
    ensures search == "" ==> SearchByName(catalog, search) == catalog
  {
    FilterExact(catalog, NameMatches(search));
    FilterIsSubsequence(catalog, NameMatches(search));
    if search == "" {
      forall k | 0 <= k < |catalog| ensures NameMatches(search)(catalog[k]) {
        IncludesEmpty(Lower(catalog[k].name));
      }
      FilterKeepsAll(catalog, NameMatches(search));
    }
  }

  // ---------------------------------------------------------------------
  // Cart lines

  /** `k` is the first line of the cart that is for product `id`. */
  predicate IsFirstLineFor(cart: seq<SaleItem>, id: string, k: int) {
    0 <= k < |cart| && cart[k].productId == id &&
    forall j :: 0 <= j < k ==> cart[j].productId != id
  }

  /** `cart.find(i => i.product_id === id)`. */
  function FindLine(cart: seq<SaleItem>, id: string): (r: Option<SaleItem>)
    ensures r.None? <==> forall k :: 0 <= k < |cart| ==> cart[k].productId != id
    ensures r.Some? ==> exists k :: IsFirstLineFor(cart, id, k) && cart[k] == r.value
  {
    if cart == [] then None
    else if cart[0].productId == id then
      assert IsFirstLineFor(cart, id, 0);
      Some(cart[0])
    else
      var r := FindLine(cart[1..], id);
      assert r.Some? ==> exists k :: IsFirstLineFor(cart, id, k) && cart[k] == r.value by {
        if r.Some? {
          var k :| IsFirstLineFor(cart[1..], id, k) && cart[1..][k] == r.value;
          assert IsFirstLineFor(cart, id, k + 1);
        }
      }
      r
  }

  /** The line created for a product not yet in the cart: one unit at the
      catalog price of that moment. */
  function NewLine(p: Product): SaleItem {
    SaleItem(p.id, p.name, 1, p.price, p.price)
  }

  /** A line with one more unit, its subtotal recomputed from its own
      (copied) unit price. */
  function Bump(l: SaleItem): SaleItem {
    l.(quantity := l.quantity + 1, subtotal := (l.quantity + 1) * l.price)
  }

  /** A line set to `qty` units, its subtotal recomputed from its own price. */
  function WithQuantity(l: SaleItem, qty: int): SaleItem {
    l.(quantity := qty, subtotal := qty * l.price)
  }

  /** `cart.map(i => i.product_id === id ? f(i) : i)`. */
  function MapLinesFor(cart: seq<SaleItem>, id: string, f: SaleItem -> SaleItem): (r: seq<SaleItem>)
    ensures |r| == |cart|
    ensures forall k :: 0 <= k < |cart| && cart[k].productId != id ==> r[k] == cart[k]
    ensures forall k :: 0 <= k < |cart| && cart[k].productId == id ==> r[k] == f(cart[k])
  {
    seq(|cart|, k requires 0 <= k < |cart| => if cart[k].productId == id then f(cart[k]) else cart[k])
  }

  /** The lines not for product `id`. */
  function OtherProduct(id: string): SaleItem -> bool {
    (l: SaleItem) => l.productId != id
  }

  /** The lines for product `id`. */
  function SameProduct(id: string): SaleItem -> bool {
    (l: SaleItem) => l.productId == id
  }

  /** `addToCart(product)`: a product already in the cart gets one more
      unit unless its (first) line has already reached the product's stock,
      in which case the cart is left as it is; otherwise a new line is
      appended. */
  function AddToCart(cart: seq<SaleItem>, p: Product): seq<SaleItem> {
    match FindLine(cart, p.id)
    case Some(existing) =>
      if existing.quantity >= p.stock then cart
      else MapLinesFor(cart, p.id, Bump)
    case None => cart + [NewLine(p)]
  }

  /** `updateQuantity(id, qty)`: a quantity of zero or less removes the
      product's lines; any other quantity is written as it is, with no
      comparison against stock. */
  function UpdateQuantity(cart: seq<SaleItem>, id: string, qty: int): seq<SaleItem> {
    if qty <= 0 then Filter(cart, OtherProduct(id))
    else MapLinesFor(cart, id, l => WithQuantity(l, qty))
  }

  /** `cart.reduce((sum, i) => sum + i.subtotal, 0)`, written as a sum from
      the front; `TotalLast` shows that it takes `reduce`'s steps from the
      back, so both give the same number. */
  function Total(cart: seq<SaleItem>): int {
    if cart == [] then 0 else cart[0].subtotal + Total(cart[1..])
  }

  /** The value of the cart priced line by line: units times unit price. */
  function Value(cart: seq<SaleItem>): int {
    if cart == [] then 0 else cart[0].quantity * cart[0].price + Value(cart[1..])
  }

  // ---------------------------------------------------------------------
  // Invariants of a cart built by these operations

  /** Every line's subtotal is its quantity times its unit price. */
  predicate LinesConsistent(cart: seq<SaleItem>) {
    forall k :: 0 <= k < |cart| ==> cart[k].subtotal == cart[k].quantity * cart[k].price
  }

  /** No product has two lines. */
  predicate UniqueProducts(cart: seq<SaleItem>) {
    forall i, j :: 0 <= i < j < |cart| ==> cart[i].productId != cart[j].productId
  }


  // ---------------------------------------------------------------------
  // Facts about the operations

  /** The three outcomes of adding a product. */
  lemma AddToCartCases(cart: seq<SaleItem>, p: Product)
    ensures (forall k :: 0 <= k < |cart| ==> cart[k].productId != p.id) ==>
      AddToCart(cart, p) == cart + [SaleItem(p.id, p.name, 1, p.price, p.price)]
    ensures forall k :: IsFirstLineFor(cart, p.id, k) && cart[k].quantity >= p.stock ==>
      AddToCart(cart, p) == cart
    ensures forall k :: IsFirstLineFor(cart, p.id, k) && cart[k].quantity < p.stock ==>
      var r := AddToCart(cart, p);
      && |r| == |cart|
      && (forall j :: 0 <= j < |cart| && cart[j].productId != p.id ==> r[j] == cart[j])
      && (forall j :: 0 <= j < |cart| && cart[j].productId == p.id ==>
            r[j] == cart[j].(quantity := cart[j].quantity + 1,
                             subtotal := (cart[j].quantity + 1) * cart[j].price))
  {
    forall k | IsFirstLineFor(cart, p.id, k) && cart[k].quantity >= p.stock
      ensures AddToCart(cart, p) == cart
    {
      FindLineIsFirst(cart, p.id, k);
    }
    forall k | IsFirstLineFor(cart, p.id, k) && cart[k].quantity < p.stock
      ensures AddToCart(cart, p) == MapLinesFor(cart, p.id, Bump)
    {
      FindLineIsFirst(cart, p.id, k);
    }
  }

  /** `find` returns the first line for the product. */
  lemma {:induction false} FindLineIsFirst(cart: seq<SaleItem>, id: string, k: int)
    requires IsFirstLineFor(cart, id, k)
    ensures FindLine(cart, id) == Some(cart[k])
  {
    if k > 0 {
      assert IsFirstLineFor(cart[1..], id, k - 1);
      FindLineIsFirst(cart[1..], id, k - 1);
    }
  }

  /** The two outcomes of changing a quantity. With a positive quantity
      there is no bound: the line takes `qty` units whatever the stock. */
  lemma UpdateQuantityCases(cart: seq<SaleItem>, id: string, qty: int)
    ensures qty <= 0 ==>
      var r := UpdateQuantity(cart, id, qty);
      && (forall l :: l in r <==> l in cart && l.productId != id)
      && IsSubsequence(r, cart)
      && (forall l: SaleItem :: l.productId != id ==> multiset(r)[l] == multiset(cart)[l])
    ensures qty > 0 ==>
      var r := UpdateQuantity(cart, id, qty);
      && |r| == |cart|
      && (forall j :: 0 <= j < |cart| && cart[j].productId != id ==> r[j] == cart[j])
      && (forall j :: 0 <= j < |cart| && cart[j].productId == id ==>
            r[j].quantity == qty && r[j].price == cart[j].price &&
            r[j].subtotal == qty * cart[j].price &&
            r[j].productId == id && r[j].productName == cart[j].productName)
  {
    if qty <= 0 {
      FilterExact(cart, OtherProduct(id));
      FilterIsSubsequence(cart, OtherProduct(id));
    }
  }

  lemma {:induction false} TotalAppend(a: seq<SaleItem>, b: seq<SaleItem>)
    ensures Total(a + b) == Total(a) + Total(b)
  {
    if a == [] {
      assert a + b == b;
    } else {
      TotalAppend(a[1..], b);
      assert (a + b)[1..] == a[1..] + b;
    }
  }

  /** The step of `reduce`: the total of a cart is the total without its
      last line plus that line's subtotal. */
  lemma TotalLast(cart: seq<SaleItem>)
    requires cart != []
    ensures Total(cart) == Total(cart[..|cart| - 1]) + cart[|cart| - 1].subtotal
  {
    var prefix := cart[..|cart| - 1];
    assert cart == prefix + [cart[|cart| - 1]];
    TotalAppend(prefix, [cart[|cart| - 1]]);
  }

  /** Replacing one line changes the total by the difference of subtotals. */
  lemma {:induction false} TotalReplace(cart: seq<SaleItem>, k: nat, l: SaleItem)
    requires k < |cart|
    ensures Total(cart[k := l]) == Total(cart) - cart[k].subtotal + l.subtotal
  {
    if k > 0 {
      TotalReplace(cart[1..], k - 1, l);
      assert cart[k := l][1..] == cart[1..][k - 1 := l];
    }
  }

  /** Splitting the cart by any condition splits its total. */
  lemma {:induction false} TotalPartition(cart: seq<SaleItem>, keep: SaleItem -> bool)
    ensures Total(cart) == Total(Filter(cart, keep)) + Total(Filter(cart, l => !keep(l)))
  {
    if cart != [] {
      TotalPartition(cart[1..], keep);
    }
  }

  /** With consistent lines, the total is the cart priced line by line. */
  lemma {:induction false} TotalIsValue(cart: seq<SaleItem>)
    requires LinesConsistent(cart)
    ensures Total(cart) == Value(cart)
  {
    if cart != [] {
      TotalIsValue(cart[1..]);
    }
  }

  /** Under unique products, mapping the lines of one product is replacing
      its single line. */
  lemma MapLinesForUnique(cart: seq<SaleItem>, k: nat, f: SaleItem -> SaleItem)
    requires UniqueProducts(cart) && k < |cart|
    ensures MapLinesFor(cart, cart[k].productId, f) == cart[k := f(cart[k])]
  {
  }

  /** Under unique products, the lines of one product are its single line. */
  lemma {:induction false} SameProductUnique(cart: seq<SaleItem>, id: string)
    requires UniqueProducts(cart)
    ensures Filter(cart, SameProduct(id)) ==
      match FindLine(cart, id) case Some(l) => [l] case None => []
  {
    if cart != [] {
      SameProductUnique(cart[1..], id);
      if cart[0].productId == id {
        assert forall k :: 0 <= k < |cart[1..]| ==> cart[1..][k].productId != id by {
          forall k | 0 <= k < |cart[1..]| ensures cart[1..][k].productId != id {
            assert cart[1..][k] == cart[k + 1];
          }
        }
      }
    }
  }

  /** The total after adding a product: up by the product's price for a
      new line, by the line's copied unit price for one more unit, and
      unchanged at the stock limit. */
  lemma AddToCartTotal(cart: seq<SaleItem>, p: Product)
    requires UniqueProducts(cart) && LinesConsistent(cart)
    ensures Total(AddToCart(cart, p)) == Total(cart) +
      match FindLine(cart, p.id)
      case None => p.price
      case Some(l) => if l.quantity >= p.stock then 0 else l.price
  {
    match FindLine(cart, p.id)
    case None =>
      TotalAppend(cart, [NewLine(p)]);
    case Some(l) =>
      if l.quantity < p.stock {
        var k :| IsFirstLineFor(cart, p.id, k) && cart[k] == l;
        MapLinesForUnique(cart, k, Bump);
        TotalReplace(cart, k, Bump(l));
        assert (l.quantity + 1) * l.price == l.quantity * l.price + l.price;
      }
  }

  /** The total after changing a quantity: the product's line leaves the
      total, and with a positive quantity comes back as `qty` units at its
      copied unit price. */
  lemma UpdateQuantityTotal(cart: seq<SaleItem>, id: string, qty: int)
    requires UniqueProducts(cart)
    ensures Total(UpdateQuantity(cart, id, qty)) ==
      match FindLine(cart, id)
      case None => Total(cart)
      case Some(l) => Total(cart) - l.subtotal + (if qty <= 0 then 0 else qty * l.price)
  {
    if qty <= 0 {
      TotalPartition(cart, SameProduct(id));
      SameProductUnique(cart, id);
      assert Filter(cart, l => !SameProduct(id)(l)) == Filter(cart, OtherProduct(id)) by {
        FilterSame(cart, l => !SameProduct(id)(l), OtherProduct(id));
      }
      match FindLine(cart, id)
      case None =>
      case Some(l) =>
        assert Total([l]) == l.subtotal;
    } else {
      match FindLine(cart, id)
      case None =>
        assert UpdateQuantity(cart, id, qty) == cart;
      case Some(l) =>
        var k :| IsFirstLineFor(cart, id, k) && cart[k] == l;
        MapLinesForUnique(cart, k, l => WithQuantity(l, qty));
        TotalReplace(cart, k, WithQuantity(l, qty));
    }
  }

  /** Two conditions that agree on every line filter alike. */
  lemma {:induction false} FilterSame(cart: seq<SaleItem>, f: SaleItem -> bool, g: SaleItem -> bool)
    requires forall l :: f(l) == g(l)
    ensures Filter(cart, f) == Filter(cart, g)
  {
    if cart != [] {
      FilterSame(cart[1..], f, g);
    }
  }

  /** Filtering keeps products unique. */
  lemma {:induction false} FilterKeepsUnique(cart: seq<SaleItem>, keep: SaleItem -> bool)
    requires UniqueProducts(cart)
    ensures UniqueProducts(Filter(cart, keep))
  {
    if cart != [] {
      FilterKeepsUnique(cart[1..], keep);
      FilterExact(cart[1..], keep);
      if keep(cart[0]) {
        var r := Filter(cart, keep);
        forall j | 0 < j < |r| ensures r[0].productId != r[j].productId {
          assert r[j] in Filter(cart[1..], keep);
          var i :| 0 <= i < |cart[1..]| && cart[1..][i] == r[j];
          assert cart[i + 1] == r[j];
        }
      }
    }
  }

  /** Adding and changing quantities keep both cart invariants. */
  lemma CartOperationsKeepInvariants(cart: seq<SaleItem>, p: Product, id: string, qty: int)
    requires UniqueProducts(cart) && LinesConsistent(cart)
    ensures UniqueProducts(AddToCart(cart, p)) && LinesConsistent(AddToCart(cart, p))
    ensures UniqueProducts(UpdateQuantity(cart, id, qty)) && LinesConsistent(UpdateQuantity(cart, id, qty))
  {
    if qty <= 0 {
      FilterKeepsUnique(cart, OtherProduct(id));
      FilterExact(cart, OtherProduct(id));
    }
  }

  /** Adding never takes a line past the product's stock as last read: a
      line only grows while it is below that stock, and a new line holds
      one unit of a product the catalog offered with stock left. */
  lemma AddToCartRespectsStock(cart: seq<SaleItem>, p: Product)
    requires UniqueProducts(cart) && p.stock > 0
    requires forall k :: 0 <= k < |cart| && cart[k].productId == p.id ==> cart[k].quantity <= p.stock
    ensures var r := AddToCart(cart, p);
      forall k :: 0 <= k < |r| && r[k].productId == p.id ==> r[k].quantity <= p.stock
  {
    match FindLine(cart, p.id)
    case None =>
    case Some(l) =>
      var k :| IsFirstLineFor(cart, p.id, k) && cart[k] == l;
  }
}
