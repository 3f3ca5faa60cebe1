/** The records the point-of-sale screens read and write. Money amounts
    are integer numbers of cents; identifiers, names and dates are strings. */
module Entities {

  /** A row of the products table. */
  datatype Product = Product(
    id: string,
    code: string,
    name: string,
    description: string,
    category: string,
    price: int,
    cost: int,
    stock: int,
    minStock: int,
    active: bool)

  /** A cart line, and a line of a committed sale: the product's name and
      unit price are copied when the line is created. */
  datatype SaleItem = SaleItem(
    productId: string,
    productName: string,
    quantity: int,
    price: int,
    subtotal: int)

  /** The `items` column of a sale as the reports screen receives it: a
      JSON value that is normally an array of lines but need not be. */
  datatype ItemsField = Lines(lines: seq<SaleItem>) | NotAnArray

  /** A row of the sales table. */
  datatype Sale = Sale(
    saleNumber: string,
    date: string,
    createdAt: string,
    userId: string,
    userName: string,
    shiftId: string,
    items: ItemsField,
    subtotal: int,
    discount: int,
    total: int,
    paymentMethod: string)

  datatype EntryType = Income | Expense

  /** A row of the cash-transactions table. */
  datatype CashEntry = CashEntry(
    shiftId: string,
    kind: EntryType,
    category: string,
    amount: int,
    paymentMethod: string,
    description: string)

  /** The open cash-drawer shift the sales screen is given; only its
      identifier is used. */
  datatype Shift = Shift(id: string)
}
