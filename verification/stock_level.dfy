/** The low-stock rule the inventory table and the notification centre share. */
module StockLevel {

  /** Products with fewer units than this are flagged for restocking. */
  const LowStockThreshold: int := 5

  predicate IsLowStock(stock: int) {
    stock < LowStockThreshold
  }
}
