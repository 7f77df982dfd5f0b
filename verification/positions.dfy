/** Source positions recorded by the markdown reader. */
module Positions {
  datatype PositionRange = PositionRange(start: nat, end: nat)

  /** A line number plus column and byte-offset ranges. */
  datatype Position = Position(line: nat, column: PositionRange, offset: PositionRange)
}
