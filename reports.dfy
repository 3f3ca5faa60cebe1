/** The sales report screen (src/components/Reportes.tsx): the folds over
    the loaded sales (units per sale, revenue, units sold, average ticket,
    revenue per payment method), the CSV export and the recent-sales table.
    All sums are left folds, as `Array.prototype.reduce` computes them. */
module Reports {
  import opened Seqs
  import opened Text
  import opened Entities

  // ---------------------------------------------------------------------
  // Folds

  /** `items.reduce((sum, item) => sum + item.quantity, 0)`. */
  function ItemsQuantity(lines: seq<SaleItem>): int {
    if lines == [] then 0
    else ItemsQuantity(lines[..|lines| - 1]) + lines[|lines| - 1].quantity
  }

  /** Units in one sale; a sale whose `items` is not an array counts 0. */
  function ItemCount(s: Sale): (r: int)
    ensures s.items.NotAnArray? ==> r == 0
  {
    match s.items
    case Lines(lines) => ItemsQuantity(lines)
    case NotAnArray => 0
  }

  /** `sales.reduce((sum, s) => sum + Number(s.total), 0)`; the printed
      report's footer uses the same sum. */
  function TotalSales(sales: seq<Sale>): int {
    if sales == [] then 0
    else TotalSales(sales[..|sales| - 1]) + sales[|sales| - 1].total
  }

  /** Units over all sales. */
  function TotalItems(sales: seq<Sale>): int {
    if sales == [] then 0
    else TotalItems(sales[..|sales| - 1]) + ItemCount(sales[|sales| - 1])
  }

  lemma {:induction false} ItemsQuantityAppend(a: seq<SaleItem>, b: seq<SaleItem>)
    ensures ItemsQuantity(a + b) == ItemsQuantity(a) + ItemsQuantity(b)
  {
    if b == [] {
      assert a + b == a;
    } else {
      ItemsQuantityAppend(a, b[..|b| - 1]);
      assert (a + b)[..|a + b| - 1] == a + b[..|b| - 1];
    }
  }

  /** Revenue is additive over any split of the sales list. */
  lemma {:induction false} TotalSalesAppend(a: seq<Sale>, b: seq<Sale>)
    ensures TotalSales(a + b) == TotalSales(a) + TotalSales(b)
  {
    if b == [] {
      assert a + b == a;
    } else {
      TotalSalesAppend(a, b[..|b| - 1]);
      assert (a + b)[..|a + b| - 1] == a + b[..|b| - 1];
    }
  }

  /** Units sold are additive over any split of the sales list. */
  lemma {:induction false} TotalItemsAppend(a: seq<Sale>, b: seq<Sale>)
    ensures TotalItems(a + b) == TotalItems(a) + TotalItems(b)
  {
    if b == [] {
      assert a + b == a;
    } else {
      TotalItemsAppend(a, b[..|b| - 1]);
      assert (a + b)[..|a + b| - 1] == a + b[..|b| - 1];
    }
  }

  /** Average ticket: 0 with no sales, otherwise revenue over the number of
      sales. */
  function AvgTicket(sales: seq<Sale>): (r: real)
    ensures |sales| == 0 ==> r == 0.0
    ensures |sales| > 0 ==> r * (|sales| as real) == TotalSales(sales) as real
  {
    if |sales| > 0 then TotalSales(sales) as real / |sales| as real else 0.0
  }

  // ---------------------------------------------------------------------
  // Revenue per payment method

  /** The payment methods that occur in the sales. */
  function Methods(sales: seq<Sale>): set<string> {
    if sales == [] then {}
    else Methods(sales[..|sales| - 1]) + {sales[|sales| - 1].paymentMethod}
  }

  /** A method is in `Methods` exactly when some sale was paid with it. */
  lemma {:induction false} MethodsOccur(sales: seq<Sale>)
    ensures forall m :: m in Methods(sales) <==> exists k :: 0 <= k < |sales| && sales[k].paymentMethod == m
  {
    if sales != [] {
      var prefix := sales[..|sales| - 1];
      MethodsOccur(prefix);
      forall m | m in Methods(sales) ensures exists k :: 0 <= k < |sales| && sales[k].paymentMethod == m {
        if m in Methods(prefix) {
          var k :| 0 <= k < |prefix| && prefix[k].paymentMethod == m;
          assert sales[k] == prefix[k];
        }
      }
      forall m | exists k :: 0 <= k < |sales| && sales[k].paymentMethod == m ensures m in Methods(sales) {
        var k :| 0 <= k < |sales| && sales[k].paymentMethod == m;
        if k < |prefix| {
          assert prefix[k] == sales[k];
        }
      }
    }
  }

  function PaidWith(m: string): Sale -> bool {
    (s: Sale) => s.paymentMethod == m
  }

  /** Revenue of the sales paid with method `m`. */
  function MethodTotal(sales: seq<Sale>, m: string): int {
    TotalSales(Filter(sales, PaidWith(m)))
  }

  /** The dictionary fold `acc[m] = (acc[m] || 0) + total`; its keys are
      exactly the methods that occur. */
  function PaymentMethodTotals(sales: seq<Sale>): (r: map<string, int>)
    ensures r.Keys == Methods(sales)
  {
    if sales == [] then map[]
    else
      var prefix := sales[..|sales| - 1];
      var acc := PaymentMethodTotals(prefix);
      var s := sales[|sales| - 1];
      acc[s.paymentMethod := (if s.paymentMethod in acc then acc[s.paymentMethod] else 0) + s.total]
  }

  /** One more sale adds its total to its own method only. */
  lemma MethodTotalLast(sales: seq<Sale>, m: string)
    requires sales != []
    ensures var s := sales[|sales| - 1];
      MethodTotal(sales, m) ==
      MethodTotal(sales[..|sales| - 1], m) + (if s.paymentMethod == m then s.total else 0)
  {
    var prefix, s := sales[..|sales| - 1], sales[|sales| - 1];
    assert sales == prefix + [s];
    FilterAppend(prefix, [s], PaidWith(m));
    TotalSalesAppend(Filter(prefix, PaidWith(m)), Filter([s], PaidWith(m)));
    assert [s][..0] == [];
  }

  /** A method no sale was paid with has revenue 0. */
  lemma MethodTotalAbsent(sales: seq<Sale>, m: string)
    requires m !in Methods(sales)
    ensures MethodTotal(sales, m) == 0
  {
    FilterExact(sales, PaidWith(m));
    MethodsOccur(sales);
  }

  /** Each entry is the revenue of the sales paid with that method. */
  lemma {:induction false} PaymentMethodTotalsValues(sales: seq<Sale>)
    ensures forall m :: m in PaymentMethodTotals(sales) ==>
      PaymentMethodTotals(sales)[m] == MethodTotal(sales, m)
  {
    if sales != [] {
      var prefix := sales[..|sales| - 1];
      var s := sales[|sales| - 1];
      var acc := PaymentMethodTotals(prefix);
      var r := PaymentMethodTotals(sales);
      assert r == acc[s.paymentMethod := (if s.paymentMethod in acc then acc[s.paymentMethod] else 0) + s.total];
      PaymentMethodTotalsValues(prefix);
      forall m | m in r
        ensures r[m] == MethodTotal(sales, m)
      {
        MethodTotalLast(sales, m);
        if m !in acc {
          MethodTotalAbsent(prefix, m);
        }
      }
    }
  }

  /** The sum of the values of a map. */
  ghost function MapSum(m: map<string, int>): int
    decreases |m|
  {
    if m == map[] then 0
    else
      var k :| k in m;
      assert |m - {k}| < |m| by { assert (m - {k}).Keys == m.Keys - {k}; }
      m[k] + MapSum(m - {k})
  }

  /** The sum can be taken starting from any key. */
  lemma {:induction false} MapSumRemove(m: map<string, int>, k: string)
    requires k in m
    ensures MapSum(m) == m[k] + MapSum(m - {k})
    decreases |m|
  {
    var j :| j in m && MapSum(m) == m[j] + MapSum(m - {j});
    if j != k {
      assert (m - {j}).Keys == m.Keys - {j};
      assert (m - {k}).Keys == m.Keys - {k};
      MapSumRemove(m - {j}, k);
      MapSumRemove(m - {k}, j);
      assert m - {j} - {k} == m - {k} - {j};
    }
  }

  /** Adding `t` to one entry (or creating it) adds `t` to the sum. */
  lemma MapSumAdd(m: map<string, int>, k: string, t: int)
    ensures MapSum(m[k := (if k in m then m[k] else 0) + t]) == MapSum(m) + t
  {
    var m' := m[k := (if k in m then m[k] else 0) + t];
    MapSumRemove(m', k);
    if k in m {
      MapSumRemove(m, k);
      assert m' - {k} == m - {k};
    } else {
      assert m' - {k} == m;
    }
  }

  /** The per-method entries add up to the total revenue. */
  lemma {:induction false} PaymentMethodTotalsSum(sales: seq<Sale>)
    ensures MapSum(PaymentMethodTotals(sales)) == TotalSales(sales)
  {
    if sales == [] {
      assert PaymentMethodTotals(sales) == map[];
    } else {
      var prefix := sales[..|sales| - 1];
      var s := sales[|sales| - 1];
      PaymentMethodTotalsSum(prefix);
      MapSumAdd(PaymentMethodTotals(prefix), s.paymentMethod, s.total);
    }
  }

  // ---------------------------------------------------------------------
  // CSV export

  /** The eight column names of the export, in order. */
  const CsvHeaders: seq<string> :=
    ["Número", "Fecha", "Usuario", "Items", "Método Pago", "Subtotal", "Descuento", "Total"]

  /** The eight cells of a sale's row, in header order. The date is shown
      by a locale formatter that is a parameter here. */
  function CsvRow(s: Sale, formatDate: string -> string): (r: seq<string>)
    ensures |r| == |CsvHeaders|
    ensures r[0] == s.saleNumber && r[2] == s.userName && r[4] == s.paymentMethod
    ensures r[1] == formatDate(s.createdAt) && r[3] == IntToString(ItemCount(s))
    ensures r[5] == Fixed2(s.subtotal) && r[6] == Fixed2(s.discount) && r[7] == Fixed2(s.total)
  {
    [s.saleNumber, formatDate(s.createdAt), s.userName, IntToString(ItemCount(s)),
     s.paymentMethod, Fixed2(s.subtotal), Fixed2(s.discount), Fixed2(s.total)]
  }

  /** `headers.join(',')`: the first line of the file. */
  function HeaderLine(): string {
    Join(CsvHeaders, ',')
  }

  /** `row.join(',')`: a sale's line of the file. */
  function CsvLine(s: Sale, formatDate: string -> string): string {
    Join(CsvRow(s, formatDate), ',')
  }

  /** The header line followed by one line per sale, in the order of the
      sales. */
  function CsvLines(sales: seq<Sale>, formatDate: string -> string): (r: seq<string>)
    ensures |r| == |sales| + 1
    ensures r[0] == HeaderLine()
  {
    [HeaderLine()] + seq(|sales|, k requires 0 <= k < |sales| => CsvLine(sales[k], formatDate))
  }

  /** Line `k + 1` of the file is sale `k`'s line. */
  lemma CsvLinesShape(sales: seq<Sale>, formatDate: string -> string, k: nat)
    requires k < |sales|
    ensures CsvLines(sales, formatDate)[k + 1] == CsvLine(sales[k], formatDate)
  {
  }

  /** The exported file's text: the lines joined with newlines. */
  function CsvContent(sales: seq<Sale>, formatDate: string -> string): string {
    Join(CsvLines(sales, formatDate), '\n')
  }

  /** `c` occurs in none of the strings. */
  predicate NoneContains(xs: seq<string>, c: char) {
    forall k :: 0 <= k < |xs| ==> c !in xs[k]
  }

  /** A character other than the separator that occurs in no piece does
      not occur in the joined string. */
  lemma {:induction false} JoinAvoids(xs: seq<string>, sep: char, c: char)
    requires c != sep && NoneContains(xs, c)
    ensures c !in Join(xs, sep)
  {
    if |xs| > 1 {
      JoinAvoids(xs[1..], sep, c);
    }
  }

  /** The text cells of a row: sale number, date, user and payment method. */
  function TextCells(s: Sale, formatDate: string -> string): seq<string> {
    [s.saleNumber, formatDate(s.createdAt), s.userName, s.paymentMethod]
  }

  /** The numeric cells hold only digits, signs and points, so a row
      contains any other character only inside its text cells. */
  lemma RowAvoids(s: Sale, formatDate: string -> string, c: char)
    requires !IsDigit(c) && c != '-' && c != '.'
    requires NoneContains(TextCells(s, formatDate), c)
    ensures NoneContains(CsvRow(s, formatDate), c)
  {
    var r := CsvRow(s, formatDate);
    var t := TextCells(s, formatDate);
    assert c !in t[0] && c !in t[1] && c !in t[2] && c !in t[3];
    assert r[0] == t[0] && r[1] == t[1] && r[2] == t[2] && r[4] == t[3];
    assert c !in r[3] && c !in r[5] && c !in r[6] && c !in r[7];
  }

  /** A row reads back cell by cell exactly when none of its text cells
      contains a comma: cells are never quoted. */
  lemma RowRoundTrip(s: Sale, formatDate: string -> string)
    ensures Split(Join(CsvRow(s, formatDate), ','), ',') == CsvRow(s, formatDate)
      <==> NoneContains(TextCells(s, formatDate), ',')
  {
    var r := CsvRow(s, formatDate);
    var t := TextCells(s, formatDate);
    if NoneContains(t, ',') {
      RowAvoids(s, formatDate, ',');
      SplitJoin(r, ',');
    } else {
      var k :| 0 <= k < 4 && ',' in t[k];
      var j := if k < 3 then k else 4;
      assert r[j] == t[k];
      var pieces := Split(Join(r, ','), ',');
      assert |pieces| <= j || ',' !in pieces[j];
      assert pieces != r;
    }
  }

  /** No column name contains a character other than a letter or a space. */
  lemma HeadersAvoid(c: char)
    requires !('a' <= c <= 'z') && !('A' <= c <= 'Z') && c != ' ' && c != 'ú' && c != 'é'
    ensures NoneContains(CsvHeaders, c)
  {
    forall k | 0 <= k < |CsvHeaders| ensures c !in CsvHeaders[k] {
      var h := CsvHeaders[k];
      forall i | 0 <= i < |h| ensures h[i] != c {
      }
    }
  }

  /** The header line has no newline and splits back into the eight names. */
  lemma HeaderLineRoundTrip()
    ensures '\n' !in HeaderLine()
    ensures Split(HeaderLine(), ',') == CsvHeaders
  {
    HeadersAvoid(',');
    HeadersAvoid('\n');
    JoinAvoids(CsvHeaders, ',', '\n');
    SplitJoin(CsvHeaders, ',');
  }

  /** A sale's line has no newline when its text cells have none. */
  lemma RowLineSingle(s: Sale, formatDate: string -> string)
    requires NoneContains(TextCells(s, formatDate), '\n')
    ensures '\n' !in CsvLine(s, formatDate)
  {
    RowAvoids(s, formatDate, '\n');
    JoinAvoids(CsvRow(s, formatDate), ',', '\n');
  }

  /** With no newline in any text cell, every line of the file is free of
      newlines. */
  lemma CsvLinesSingle(sales: seq<Sale>, formatDate: string -> string)
    requires forall i :: 0 <= i < |sales| ==> NoneContains(TextCells(sales[i], formatDate), '\n')
    ensures NoneContains(CsvLines(sales, formatDate), '\n')
  {
    var lines := CsvLines(sales, formatDate);
    HeaderLineRoundTrip();
    forall k | 0 <= k < |lines| ensures '\n' !in lines[k] {
      if k > 0 {
        CsvLineSingleAt(sales, formatDate, k - 1);
      }
    }
  }

  lemma CsvLineSingleAt(sales: seq<Sale>, formatDate: string -> string, k: nat)
    requires k < |sales| && NoneContains(TextCells(sales[k], formatDate), '\n')
    ensures '\n' !in CsvLines(sales, formatDate)[k + 1]
  {
    RowLineSingle(sales[k], formatDate);
    CsvLinesShape(sales, formatDate, k);
  }

  /** With no comma and no newline in any text cell, the exported file
      splits back into the header line and one line per sale in order, and
      each line into its eight cells. */
  lemma CsvRoundTrip(sales: seq<Sale>, formatDate: string -> string)
    requires forall i :: 0 <= i < |sales| ==>
      NoneContains(TextCells(sales[i], formatDate), ',') &&
      NoneContains(TextCells(sales[i], formatDate), '\n')
    ensures var lines := Split(CsvContent(sales, formatDate), '\n');
      && lines == CsvLines(sales, formatDate)
      && Split(lines[0], ',') == CsvHeaders
      && forall i :: 0 <= i < |sales| ==> Split(lines[i + 1], ',') == CsvRow(sales[i], formatDate)
  {
    var lines := CsvLines(sales, formatDate);
    HeaderLineRoundTrip();
    CsvLinesSingle(sales, formatDate);
    SplitJoin(lines, '\n');
    forall i | 0 <= i < |sales| ensures Split(lines[i + 1], ',') == CsvRow(sales[i], formatDate) {
      CsvLinesShape(sales, formatDate, i);
      RowRoundTrip(sales[i], formatDate);
    }
  }

  // ---------------------------------------------------------------------
  // Recent sales

  /** `sales.slice(0, 20)`: the first twenty sales in query order. */
  function RecentSales(sales: seq<Sale>): (r: seq<Sale>)
    ensures |r| == if |sales| < 20 then |sales| else 20
    ensures forall k :: 0 <= k < |r| ==> r[k] == sales[k]
  {
    if |sales| < 20 then sales else sales[..20]
  }
}
