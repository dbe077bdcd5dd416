/** Client portfolios and the settlement of one trade. */
module Portfolios {
  import opened Types

  datatype Portfolio = Portfolio(cash: real, holdings: map<Symbol, Quantity>) {
    function Holding(s: Symbol): Quantity { if s in holdings then holdings[s] else 0 }

    function Pay(amount: real, s: Symbol, quantity: Quantity): Portfolio {
      Portfolio(cash - amount, holdings[s := Holding(s) + quantity])
    }
  }

  type PortfolioMap = map<ClientId, Portfolio>

  /** A client without a portfolio has an empty one. */
  function Of(ps: PortfolioMap, c: ClientId): Portfolio { if c in ps then ps[c] else Portfolio(0.0, map[]) }

  function Cash(ps: PortfolioMap, c: ClientId): real { Of(ps, c).cash }

  function Shares(ps: PortfolioMap, c: ClientId, s: Symbol): Quantity { Of(ps, c).Holding(s) }

  /** The buyer pays and receives, then the seller is paid and delivers. */
  function Settle(ps: PortfolioMap, t: Trade): PortfolioMap {
    var amount := Notional(t.quantity, t.price);
    var bought := ps[t.buyer := Of(ps, t.buyer).Pay(amount, t.symbol, t.quantity)];
    bought[t.seller := Of(bought, t.seller).Pay(-amount, t.symbol, -t.quantity)]
  }

  function EnsureClient(ps: PortfolioMap, c: ClientId, cash: real): PortfolioMap {
    if c in ps then ps else ps[c := Portfolio(cash, map[])]
  }

  function Grant(ps: PortfolioMap, c: ClientId, s: Symbol, quantity: Quantity): PortfolioMap {
    ps[c := Of(ps, c).Pay(0.0, s, quantity)]
  }
}
