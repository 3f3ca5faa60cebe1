# Kiosk point of sale: cart, checkout, reports and stock screens in Dafny

This project models the logic inside three screens of a small kiosk
point-of-sale application (React over a Supabase database) and proves
properties of that logic.

- **Ventas** (sales screen, `src/components/Ventas.tsx`):
  - the catalog of sellable products (active, stock above zero);
  - the case-insensitive name search;
  - the cart operations `addToCart` and `updateQuantity`, and the cart `total`;
  - `completeSale`. It inserts a sale row, then overwrites the stock of
    every cart product with the stock of the loaded catalog minus the
    quantity. It then inserts one "venta" income entry into the shift's
    cash drawer, empties the cart and reloads the catalog.
- **Reportes** (reports screen, `src/components/Reportes.tsx`):
  - units per sale (0 when the `items` column is not an array);
  - revenue, units sold and average ticket;
  - revenue per payment method, as a dictionary fold;
  - the CSV export (header line plus one comma-joined line per sale);
  - the twenty most recent sales.
- **Stock** (stock screen, `src/components/Stock.tsx`):
  - the search over name, code and category;
  - the low-stock alert and the red/green stock badge;
  - the conversion between a product and its editing form.

Money is an integer number of cents, so `toFixed(2)` is exact and every
sum is exact. `avgTicket` is a `real`.

Files:

- `seqs.dfy`: `Option` and an order-preserving `Filter` with its laws.
- `text.dfy`: lower-casing, `includes`, `join`/`split` with their
  round trips, and decimal rendering.
- `entities.dfy`: products, sale lines, sales, cash entries, shifts.
- `cart.dfy`: the catalog, the name search and the cart.
- `checkout.dfy`: `completeSale`, as a method on a `Store` class. The class
  holds the products, sales and cash-transactions tables as sequences.
  The method carries a loop invariant tying the products table to the
  function `StockAfter`, whose row-by-row meaning is `StockAfterSpec`.
- `reports.dfy`: the report folds, payment-method totals, CSV and recent sales.
- `inventory.dfy`: the stock screen.

The code does less than a careful checkout would, and the model follows
the code:

- `completeSale` neither re-checks stock at commit time nor rolls back.
  It writes `snapshot stock - quantity` from the catalog the screen
  loaded earlier, so a concurrent change to a row is overwritten and
  stock can become negative (`StaleSnapshotOverwrites`).
- The discount is always 0 and the income category is `"venta"`.
- `updateQuantity` sets any positive quantity with no stock bound.
- CSV cells are never quoted. A row reads back cell by cell only when no
  text cell contains a comma (`RowRoundTrip`). The `es-AR` date rendering
  normally contains one.

## Model

| member | source | states |
|---|---|---|
| Cart.CatalogExact | src/components/Ventas.tsx:20 | `Catalog`, the sales screen's product list, holds exactly the active products with stock above zero, each as often as in the table, in table order |
| Cart.SearchByNameExact | src/components/Ventas.tsx:80 | `SearchByName` keeps exactly the products whose lower-cased name contains the lower-cased term, with their multiplicities, in order; an empty term keeps all |
| Cart.FindLine | src/components/Ventas.tsx:25 | `find` returns nothing exactly when no line is for the product, otherwise the first such line |
| Cart.AddToCartCases | src/components/Ventas.tsx:24-32 | `AddToCart`: a new product appends one line (1 unit, catalog name and price, subtotal = price); a line at or above stock leaves the cart as it is; otherwise only that product's line gains one unit with subtotal (q+1)·price, other lines and order kept |
| Cart.AddToCartRespectsStock | src/components/Ventas.tsx:26-27 | adding never takes a product's line past the stock the catalog showed |
| Cart.UpdateQuantityCases | src/components/Ventas.tsx:34-37 | `UpdateQuantity`: qty ≤ 0 removes exactly the product's lines and keeps the rest in order with their multiplicities; qty > 0 sets quantity qty and subtotal qty·price on the product's lines, copied price and name kept, no stock bound, other lines untouched |
| Cart.TotalAppend | src/components/Ventas.tsx:39 | the cart total `Total` is additive over concatenation |
| Cart.TotalLast | src/components/Ventas.tsx:39 | the total takes `reduce`'s step: the total without the last line plus that line's subtotal, so the sum from the front equals the left fold |
| Cart.TotalIsValue | src/components/Ventas.tsx:39 | when every subtotal is quantity·price, the total equals Σ quantity·price |
| Cart.AddToCartTotal | src/components/Ventas.tsx:24-32 | adding raises the total by the product's price (new line), by the line's copied price (one more unit) or by nothing (stock limit) |
| Cart.UpdateQuantityTotal | src/components/Ventas.tsx:34-37 | changing a quantity replaces the line's subtotal by qty·price, or by 0 when the line is removed |
| Cart.CartOperationsKeepInvariants | src/components/Ventas.tsx:28-36 | both cart operations keep one line per product and subtotal = quantity·price on every line |
| Checkout.SaleNumber | src/components/Ventas.tsx:45 | the sale number is "V-" followed by the decimal rendering of the clock's milliseconds, with no leading zero, which reads back as that number |
| Checkout.SaleFor | src/components/Ventas.tsx:44-55 | the sale row holds the sale number `SaleNumber` of the clock's milliseconds, the clock's ISO time as `date` and `created_at`, the cart as its lines, the shift, the payment method and the fixed seller; discount 0 and total = subtotal − discount |
| Checkout.IncomeFor | src/components/Ventas.tsx:66-73 | the cash entry of a sale is an income in the sale's shift, category "venta", for the sale's total and payment method, described as "Venta " followed by the sale number |
| Checkout.SaleForTotals | src/components/Ventas.tsx:39-53 | the sale's total is the cart total (Σ quantity·price for consistent lines) and its unit count is the cart's units |
| Checkout.FindProduct | src/components/Ventas.tsx:60 | the catalog lookup finds nothing exactly when no row has the id, otherwise the first row with it |
| Checkout.StockAfterSpec | src/components/Ventas.tsx:59-64 | after the write-back loop (`StockAfter`, one `ApplyLine` per cart line) each row whose product has a cart line and is in the snapshot holds snapshot stock − quantity of its last line; every other row is unchanged; the row's own previous stock plays no part |
| Checkout.StockAfterUniqueCart | src/components/Ventas.tsx:59-64 | for a cart with one line per product, each sold product found in the snapshot ends at snapshot stock − its quantity; products not sold or not in the snapshot keep their rows |
| Checkout.StaleSnapshotOverwrites | src/components/Ventas.tsx:60-62 | a row loaded with 1 unit and raised to 5 since then ends at −2 after selling 3 |
| Checkout.SaleRaisesReports | src/components/Ventas.tsx:57 | inserting the sale raises the reported revenue by the cart total and the reported units by the cart's units |
| Checkout.ReconciledStep | src/components/Ventas.tsx:57-73 | inserting a sale together with its income entry keeps the drawer's "venta" entries equal to one income per sale, in order |
| Checkout.ReconciledRevenue | src/components/Ventas.tsx:66-73 | in a reconciled drawer the "venta" income adds up to the revenue of the sales |
| Checkout.Store.CompleteSale | src/components/Ventas.tsx:41-78 | empty cart or no shift: nothing changes and the cart stays; otherwise one sale appended, the products table becomes `StockAfter` of the old table, the snapshot and the cart, one income entry (`IncomeFor` of the new sale) appended, cart emptied, catalog reloaded; the drawer stays reconciled |
| Reports.ItemCount | src/components/Reportes.tsx:49-50 | a sale whose items are not an array counts 0 units |
| Reports.ItemsQuantityAppend | src/components/Reportes.tsx:50 | the units of a list of lines are additive over concatenation |
| Reports.TotalSalesAppend | src/components/Reportes.tsx:224 | revenue `TotalSales` is additive over any split of the sales |
| Reports.TotalItemsAppend | src/components/Reportes.tsx:225-228 | units sold `TotalItems` are additive over any split of the sales |
| Reports.AvgTicket | src/components/Reportes.tsx:229 | 0 with no sales, otherwise average × count = revenue |
| Reports.MethodsOccur | src/components/Reportes.tsx:231-234 | a method is listed exactly when some sale was paid with it |
| Reports.PaymentMethodTotals | src/components/Reportes.tsx:231-234 | the dictionary's keys are exactly the payment methods that occur |
| Reports.PaymentMethodTotalsValues | src/components/Reportes.tsx:231-234 | each entry is the revenue of the sales paid with that method |
| Reports.MethodTotalLast | src/components/Reportes.tsx:232 | one more sale adds its total to its own method and to no other |
| Reports.MethodTotalAbsent | src/components/Reportes.tsx:231-234 | a method no sale used has revenue 0 |
| Reports.PaymentMethodTotalsSum | src/components/Reportes.tsx:224-234 | the per-method entries add up to the total revenue |
| Reports.CsvRow | src/components/Reportes.tsx:51-60 | eight cells in header order: the sale number, the formatted creation date, the user name, the unit count in decimal, the payment method, then subtotal, discount and total each with two decimals |
| Reports.CsvLines | src/components/Reportes.tsx:63-65 | the header line first, then exactly one more line per sale |
| Reports.CsvLinesShape | src/components/Reportes.tsx:63-65 | line k + 1 of the file is sale k's cells joined with commas, so the lines follow the sales order |
| Reports.CsvLinesSingle | src/components/Reportes.tsx:63-66 | with no newline in any text cell, no line of the file contains a newline |
| Reports.RowRoundTrip | src/components/Reportes.tsx:51-65 | a row splits back into its cells if and only if no text cell contains a comma |
| Reports.HeaderLineRoundTrip | src/components/Reportes.tsx:47-64 | the header line holds no newline and splits back into the eight names |
| Reports.CsvRoundTrip | src/components/Reportes.tsx:47-66 | the exported text `CsvContent`: with no comma or newline in text cells, the file splits into the header and one line per sale, each splitting back into its cells |
| Reports.RecentSales | src/components/Reportes.tsx:368 | the first min(20, n) sales, in query order |
| Text.Lower | src/components/Stock.tsx:72 | lower-casing keeps the length, maps each character and leaves no ASCII capital |
| Text.Includes | src/components/Stock.tsx:72 | `includes` holds exactly when the term occurs as a contiguous block |
| Text.IncludesEmpty | src/components/Stock.tsx:72 | the empty term occurs in every string |
| Text.SplitJoin | src/components/Reportes.tsx:63-66 | splitting undoes joining when no piece contains the separator |
| Text.JoinSplit | src/components/Reportes.tsx:63-66 | joining undoes splitting for every string |
| Text.NatToStringValue | src/components/Reportes.tsx:55 | the rendered unit count reads back as the number |
| Text.Fixed2 | src/components/Reportes.tsx:57-59 | a minus sign exactly for negative amounts, the whole units without leading zeros ("0" when there are none), a point and exactly two digits, whose values are the amount's units and cents |
| Text.NatToString | src/components/Reportes.tsx:55 | decimal digits only, never a leading zero except for the number 0 itself |
| Inventory.FilteredProducts | src/components/Stock.tsx:71-75 | every product shown matches the term in name, code or category |
| Inventory.FilteredProductsExact | src/components/Stock.tsx:71-75 | the search keeps exactly the matching products, with their multiplicities, as a subsequence; an empty term keeps all |
| Inventory.LowStockProducts | src/components/Stock.tsx:77 | every product in the alert has stock at or below its minimum |
| Inventory.LowStockMatchesBadge | src/components/Stock.tsx:77 | the alert lists exactly the products whose `StockBadge` is red, in order and with their multiplicities |
| Inventory.OrZero | src/components/Stock.tsx:28-30 | a failed parse gives 0, a successful one its value |
| Inventory.SubmittedData | src/components/Stock.tsx:26-31 | the submitted record is always active, stamped with the clock's ISO time, copies the text fields, and holds in each number its parsed value, or 0 when the parse fails |
| Inventory.EditThenSubmit | src/components/Stock.tsx:50-56 | `EditForm` then `SubmittedData`: editing and submitting unchanged keeps code, name, description and category, and each number whose printed form parses back; the record is active and carries the submission time |
| Inventory.SubmitEmptyForm | src/components/Stock.tsx:62 | the blank form submits an active product with empty text, every number 0 and the submission time |

## Left out

- Supabase. Every `select`, `insert`, `update` and `delete` becomes an
  in-memory sequence, and a write never fails. The products table is a
  sequence of rows. An update by id rewrites every row with that id.
- Query ordering and filtering in the database: `order('name')`,
  `order('created_at')` and the date-range filters of the reports screen.
  The sales list arrives already ordered and filtered.
- Concurrency between tills. A second till appears only as a stock value
  changed between loading the catalog and completing the sale.
- Checkout.Store.CompleteSale: each call runs to completion before the
  next starts. In the screen the pay button stays enabled while the
  writes are awaited, so a second click runs a second `completeSale` on
  the same cart and catalog. Two sequential calls reach that end state:
  two sales, two income entries and the same stock written twice. A line
  added to the cart while the writes run is lost when the cart is emptied.
- Clocks and dates. `Date.now()`, `toISOString()` (for the sale date and
  the product's `updated_at`) and `toLocaleString('es-AR')` are parameters. The table's `created_at` default is taken to be the
  instant of the sale.
- `parseFloat` and `parseInt` are parameters returning `None` for NaN.
  Printing a number in the edit form is also a parameter.
- Unicode lower-casing: `toLowerCase` is modelled on ASCII letters only.
- Floating point: money is integer cents. `toFixed(2)` rounding of
  fractional cents does not arise.
- Rendering, React state, alerts, confirmations, the Blob download, the
  printed report and tickets, and the display-only growth percentage.
- Product deletion and the insert/update choice in `handleSubmit`: these
  are single database calls with no logic of their own.
- Reports.ItemCount: its contract states only the non-array case. The
  array case is the left fold `ItemsQuantity`, whose additivity is
  `ItemsQuantityAppend`.
