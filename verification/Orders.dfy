/** What an order is, for the order manager and the fill simulator. */
module Orders {
  datatype Side = Buy | Sell
  datatype Order = Order(id: nat, side: Side, price: real, amount: real, timestamp: real)
}
