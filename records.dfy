/** The rows of the transaction table, as loaded and after cleaning. Money is
    held in whole pence and timestamps in whole seconds since 1970-01-01. */
module Records {

  datatype Option<T> = None | Some(value: T)

  datatype Result<T, E> = Success(value: T) | Failure(error: E)

  /** A line item as loaded: Customer ID and Description may be missing. */
  datatype RawRow = RawRow(
    invoice: string,
    stockCode: string,
    description: Option<string>,
    quantity: int,
    invoiceDate: int,
    price: int,
    customerId: Option<int>,
    country: string)

  /** A line item of the cleaned table, with its calculated fields: TotalAmount,
      Year, Month, YearMonth (a monthly period key) and Date (a day number). */
  datatype Transaction = Transaction(
    invoice: string,
    stockCode: string,
    description: string,
    quantity: int,
    invoiceDate: int,
    price: int,
    customerId: int,
    country: string,
    totalAmount: int,
    year: int,
    month: int,
    yearMonth: int,
    date: int)

  /** Column accessors, used as group keys and summed columns. */
  function CustomerOf(t: Transaction): int {
    t.customerId
  }

  function AmountOf(t: Transaction): int {
    t.totalAmount
  }
}
