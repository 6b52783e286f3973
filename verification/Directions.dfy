/** The side of a trade, shared by the paper book, the DCA simulator and the backtest. */
module Directions {
  datatype Direction = LONG | SHORT

  function Sign(direction: Direction): real { if direction == LONG then 1.0 else -1.0 }
}
