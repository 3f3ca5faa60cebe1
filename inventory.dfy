/** The stock screen (src/components/Stock.tsx): the product search, the
    low-stock alert and badge, and the conversion between a product and the
    editing form. Number parsing and printing are parameters: `parse`
    returns `None` where JavaScript's `parseFloat`/`parseInt` give NaN. */
module Inventory {
  import opened Options
  import opened Seqs
  import opened Text
  import opened Entities

  // ---------------------------------------------------------------------
  // Search

  /** The lower-cased term occurs in the lower-cased name, code or category. */
  predicate MatchesTerm(p: Product, term: string) {
    var t := Lower(term);
    Includes(Lower(p.name), t) || Includes(Lower(p.code), t) || Includes(Lower(p.category), t)
  }

  function Matches(term: string): Product -> bool {
    (p: Product) => MatchesTerm(p, term)
  }

  /** The product cards shown for a search term. */
  function FilteredProducts(products: seq<Product>, term: string): (r: seq<Product>)
    ensures forall k :: 0 <= k < |r| ==> MatchesTerm(r[k], term)
  {
    Filter(products, Matches(term))
  }

  /** The search keeps exactly the matching products, each as often as it
      occurs, in their order; an empty term keeps every product. */
  lemma FilteredProductsExact(products: seq<Product>, term: string)
    ensures forall p :: p in FilteredProducts(products, term) <==> p in products && MatchesTerm(p, term)
    ensures forall p :: multiset(FilteredProducts(products, term))[p] ==
                        if MatchesTerm(p, term) then multiset(products)[p] else 0
    ensures IsSubsequence(FilteredProducts(products, term), products)
    ensures term == "" ==> FilteredProducts(products, term) == products
  {
    FilterExact(products, Matches(term));
    FilterIsSubsequence(products, Matches(term));
    if term == "" {
      forall k | 0 <= k < |products| ensures Matches(term)(products[k]) {
        IncludesEmpty(Lower(products[k].name));
      }
      FilterKeepsAll(products, Matches(term));
    }
  }

  // ---------------------------------------------------------------------
  // Low stock

  /** At or below the reorder threshold. */
  predicate IsLowStock(p: Product) {
    p.stock <= p.minStock
  }

  /** The products listed in the low-stock alert. */
  function LowStockProducts(products: seq<Product>): (r: seq<Product>)
    ensures forall k :: 0 <= k < |r| ==> r[k].stock <= r[k].minStock
  {
    Filter(products, IsLowStock)
  }

  datatype Badge = Red | Green

  /** The colour of a product card's stock badge. */
  function StockBadge(p: Product): Badge {
    if p.stock <= p.minStock then Red else Green
  }

  /** The alert lists exactly the products whose badge is red, in order and
      with their multiplicities. */
  lemma LowStockMatchesBadge(products: seq<Product>)
    ensures forall p :: p in LowStockProducts(products) <==> p in products && StockBadge(p) == Red
    ensures forall p :: multiset(LowStockProducts(products))[p] ==
                        if StockBadge(p) == Red then multiset(products)[p] else 0
    ensures IsSubsequence(LowStockProducts(products), products)
  {
    FilterExact(products, IsLowStock);
    FilterIsSubsequence(products, IsLowStock);
  }

  // ---------------------------------------------------------------------
  // The product form

  /** The form's fields, all text. */
  datatype ProductForm = ProductForm(
    code: string,
    name: string,
    description: string,
    category: string,
    price: string,
    cost: string,
    stock: string,
    minStock: string)

  /** The record the form submits for insertion or update, with the time
      of the last change. */
  datatype ProductData = ProductData(
    code: string,
    name: string,
    description: string,
    category: string,
    price: int,
    cost: int,
    stock: int,
    minStock: int,
    active: bool,
    updatedAt: string)

  /** `parse(x) || 0`: a failed parse (NaN) and a parsed zero both give 0. */
  function OrZero(parsed: Option<int>): (r: int)
    ensures parsed.None? ==> r == 0
    ensures parsed.Some? ==> r == parsed.value
  {
    match parsed
    case Some(v) => v
    case None => 0
  }

  /** `handleSubmit`'s record: text fields copied, numbers parsed with 0
      for a failed parse, always active, stamped with the clock's ISO time. */
  function SubmittedData(form: ProductForm, parseMoney: string -> Option<int>,
                         parseInteger: string -> Option<int>, isoNow: string): (d: ProductData)
    ensures d.active && d.updatedAt == isoNow
    ensures d.code == form.code && d.name == form.name
    ensures d.description == form.description && d.category == form.category
    ensures parseMoney(form.price).None? ==> d.price == 0
    ensures parseMoney(form.price).Some? ==> d.price == parseMoney(form.price).value
    ensures parseMoney(form.cost).None? ==> d.cost == 0
    ensures parseMoney(form.cost).Some? ==> d.cost == parseMoney(form.cost).value
    ensures parseInteger(form.stock).None? ==> d.stock == 0
    ensures parseInteger(form.stock).Some? ==> d.stock == parseInteger(form.stock).value
    ensures parseInteger(form.minStock).None? ==> d.minStock == 0
    ensures parseInteger(form.minStock).Some? ==> d.minStock == parseInteger(form.minStock).value
  {
    ProductData(form.code, form.name, form.description, form.category,
                OrZero(parseMoney(form.price)), OrZero(parseMoney(form.cost)),
                OrZero(parseInteger(form.stock)), OrZero(parseInteger(form.minStock)),
                true, isoNow)
  }

  /** `handleEdit`'s form: the product's text fields and its numbers printed. */
  function EditForm(p: Product, showMoney: int -> string, showInteger: int -> string): ProductForm {
    ProductForm(p.code, p.name, p.description, p.category,
                showMoney(p.price), showMoney(p.cost), showInteger(p.stock), showInteger(p.minStock))
  }

  /** The blank form of a new product. */
  const EmptyForm: ProductForm := ProductForm("", "", "", "", "", "", "", "")

  /** Editing a product and submitting unchanged keeps its text fields and
      makes it active; it keeps its numbers too wherever parsing reads back
      what printing wrote. */
  lemma EditThenSubmit(p: Product, showMoney: int -> string, showInteger: int -> string,
                       parseMoney: string -> Option<int>, parseInteger: string -> Option<int>,
                       isoNow: string)
    ensures var d := SubmittedData(EditForm(p, showMoney, showInteger), parseMoney, parseInteger, isoNow);
      && d.code == p.code && d.name == p.name
      && d.description == p.description && d.category == p.category
      && d.active && d.updatedAt == isoNow
      && (parseMoney(showMoney(p.price)) == Some(p.price) ==> d.price == p.price)
      && (parseMoney(showMoney(p.cost)) == Some(p.cost) ==> d.cost == p.cost)
      && (parseInteger(showInteger(p.stock)) == Some(p.stock) ==> d.stock == p.stock)
      && (parseInteger(showInteger(p.minStock)) == Some(p.minStock) ==> d.minStock == p.minStock)
  {
  }

  /** Submitting the blank form creates an active product with empty text
      and every number 0, since an empty string does not parse. */
  lemma SubmitEmptyForm(parseMoney: string -> Option<int>, parseInteger: string -> Option<int>,
                        isoNow: string)
    requires parseMoney("") == None && parseInteger("") == None
    ensures SubmittedData(EmptyForm, parseMoney, parseInteger, isoNow) ==
            ProductData("", "", "", "", 0, 0, 0, 0, true, isoNow)
  {
  }
}
