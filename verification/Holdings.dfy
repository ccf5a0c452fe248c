/** The fields of a broker holding that the portfolio tools read. */
module Holdings {
  datatype Holding = Holding(symbol: string, quantity: int, averagePrice: real, lastPrice: real)

  function CurrentValue(h: Holding): real { h.lastPrice * h.quantity as real }

  function InvestedValue(h: Holding): real { h.averagePrice * h.quantity as real }
}
