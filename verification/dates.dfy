/**
 * Dates are opaque except for the calendar month and year, which the monthly
 * earnings query extracts. `dayAndTime` stands for everything else in a
 * `java.util.Date` or `java.time.LocalDate`.
 */
module Dates {

  /** `java.time.Month.getValue()`: JANUARY is 1, DECEMBER is 12. */
  type MonthNumber = m: int | 1 <= m <= 12 witness 1

  datatype Date = Date(year: int, month: MonthNumber, dayAndTime: int)
}
