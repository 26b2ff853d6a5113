/**
 Reconciling current holdings with the target portfolio: the order-preserving list
 difference, the sell/buy balancing rule, and the deferred orders that carry the
 transition out, as plain records.
 */
module Rebalancing {
  import opened Dates
  import opened Universe

  // ---------------------------------------------------------------- list difference

  /** The elements of `l1` that do not occur in `l2`, in `l1`'s order. */
  function Difference(l1: seq<Symbol>, l2: seq<Symbol>): seq<Symbol> {
    if l1 == [] then []
    else
      var last := l1[|l1| - 1];
      Difference(l1[..|l1| - 1], l2) + (if last in l2 then [] else [last])
  }

  /** `minus(l1, l2)`: one pass over `l1`, appending what `l2` does not contain. */
  method Minus(l1: seq<Symbol>, l2: seq<Symbol>) returns (result: seq<Symbol>)
    ensures result == Difference(l1, l2)
  {
    result := [];
    for i := 0 to |l1|
      invariant result == Difference(l1[..i], l2)
    {
      assert l1[..i + 1][..i] == l1[..i];
      if l1[i] !in l2 {
        result := result + [l1[i]];
      }
    }
    assert l1[..|l1|] == l1;
  }

  lemma {:induction false} DifferenceMembers(l1: seq<Symbol>, l2: seq<Symbol>, x: Symbol)
    ensures x in Difference(l1, l2) <==> x in l1 && x !in l2
    decreases |l1|
  {
    if l1 != [] {
      var init := l1[..|l1| - 1];
      DifferenceMembers(init, l2, x);
      assert l1 == init + [l1[|l1| - 1]];
    }
  }

  lemma {:induction false} DifferenceAppend(a: seq<Symbol>, b: seq<Symbol>, l2: seq<Symbol>)
    ensures Difference(a + b, l2) == Difference(a, l2) + Difference(b, l2)
    decreases |b|
  {
    if b == [] {
      assert a + b == a;
    } else {
      var b' := b[..|b| - 1];
      assert (a + b)[..|a + b| - 1] == a + b';
      DifferenceAppend(a, b', l2);
    }
  }

  /** `a` is `b` with some elements deleted (matched greedily from the end). */
  predicate IsSubsequence(a: seq<Symbol>, b: seq<Symbol>)
    decreases |b|
  {
    if a == [] then true
    else if b == [] then false
    else if a[|a| - 1] == b[|b| - 1] then IsSubsequence(a[..|a| - 1], b[..|b| - 1])
    else IsSubsequence(a, b[..|b| - 1])
  }

  lemma {:induction false} DifferenceSubsequence(l1: seq<Symbol>, l2: seq<Symbol>)
    ensures IsSubsequence(Difference(l1, l2), l1)
    decreases |l1|
  {
    if l1 != [] {
      var init := l1[..|l1| - 1];
      var last := l1[|l1| - 1];
      var d := Difference(init, l2);
      DifferenceSubsequence(init, l2);
      if last in l2 && d != [] {
        assert d[|d| - 1] in d;
        DifferenceMembers(init, l2, d[|d| - 1]);
        assert Difference(l1, l2) == d;
      } else if last !in l2 {
        assert (d + [last])[..|d|] == d;
      }
    }
  }

  lemma {:induction false} DifferenceLength(l1: seq<Symbol>, l2: seq<Symbol>)
    ensures |Difference(l1, l2)| <= |l1|
    decreases |l1|
  {
    if l1 != [] {
      DifferenceLength(l1[..|l1| - 1], l2);
    }
  }

  // ---------------------------------------------------------------- holdings

  /** One security of the account: its symbol and whether a position is open. */
  datatype Holding = Holding(symbol: Symbol, invested: bool)

  /** The symbols of the invested securities, in the account's order. */
  function InvestedSymbols(holdings: seq<Holding>): seq<Symbol> {
    if holdings == [] then []
    else
      var last := holdings[|holdings| - 1];
      InvestedSymbols(holdings[..|holdings| - 1]) + (if last.invested then [last.symbol] else [])
  }

  /** `GetPortfolioSymbols`, over the account's securities given as a sequence. */
  method GetPortfolioSymbols(holdings: seq<Holding>) returns (symbols: seq<Symbol>)
    ensures symbols == InvestedSymbols(holdings)
  {
    symbols := [];
    for i := 0 to |holdings|
      invariant symbols == InvestedSymbols(holdings[..i])
    {
      assert holdings[..i + 1][..i] == holdings[..i];
      if holdings[i].invested {
        symbols := symbols + [holdings[i].symbol];
      }
    }
    assert holdings[..|holdings|] == holdings;
  }

  lemma {:induction false} InvestedSymbolsMembers(holdings: seq<Holding>, x: Symbol)
    ensures x in InvestedSymbols(holdings) <==> Holding(x, true) in holdings
    decreases |holdings|
  {
    if holdings != [] {
      var init := holdings[..|holdings| - 1];
      InvestedSymbolsMembers(init, x);
      assert holdings == init + [holdings[|holdings| - 1]];
    }
  }

  // ---------------------------------------------------------------- sell/buy plan

  /** The symbols to liquidate and the symbols to buy. */
  datatype Plan = Plan(sells: seq<Symbol>, buys: seq<Symbol>)

  /**
   Sells are the holdings missing from the target, buys the target entries not held;
   when sells outnumber buys, the surplus sells at the front are dropped.
   */
  function RebalancePlan(portfolio: seq<Symbol>, target: seq<Symbol>): Plan {
    var sells := Difference(portfolio, target);
    var buys := Difference(target, portfolio);
    Plan(if |sells| > |buys| then sells[|sells| - |buys|..] else sells, buys)
  }

  /**
   The buy list is the whole difference; the sell list is the suffix of the raw
   difference of length min(#raw sells, #buys).
   */
  lemma RebalancePlanTrim(portfolio: seq<Symbol>, target: seq<Symbol>)
    ensures RebalancePlan(portfolio, target).buys == Difference(target, portfolio)
    ensures |RebalancePlan(portfolio, target).sells| == Min(|Difference(portfolio, target)|, |Difference(target, portfolio)|)
    ensures RebalancePlan(portfolio, target).sells
            == Difference(portfolio, target)[|Difference(portfolio, target)| - |RebalancePlan(portfolio, target).sells|..]
  {
  }

  /** Every sell is held and not targeted, every buy targeted and not held: no symbol is both sold and bought. */
  lemma RebalancePlanDisjoint(portfolio: seq<Symbol>, target: seq<Symbol>)
    ensures forall x :: x in RebalancePlan(portfolio, target).sells ==> x in portfolio && x !in target
    ensures forall x :: x in RebalancePlan(portfolio, target).buys ==> x in target && x !in portfolio
  {
    var p := RebalancePlan(portfolio, target);
    var raw := Difference(portfolio, target);
    forall x | x in p.sells ensures x in portfolio && x !in target {
      assert x in raw;
      DifferenceMembers(portfolio, target, x);
    }
    forall x | x in p.buys ensures x in target && x !in portfolio {
      DifferenceMembers(target, portfolio, x);
    }
  }

  /** A buy can only exist when the target is non-empty. */
  lemma BuysNeedTarget(portfolio: seq<Symbol>, target: seq<Symbol>)
    ensures RebalancePlan(portfolio, target).buys != [] ==> |target| > 0
  {
    var buys := RebalancePlan(portfolio, target).buys;
    if buys != [] {
      DifferenceMembers(target, portfolio, buys[0]);
    }
  }

  // ---------------------------------------------------------------- deferred orders

  /** Minutes after the market open at which liquidations run. */
  const SellOffsetMinutes: nat := 60
  /** Minutes after the market open at which purchases run. */
  const BuyOffsetMinutes: nat := 90
  /** Share of equity spread evenly over the target portfolio. */
  const BuyAllocation: real := 0.95

  datatype Action = Liquidate | SetHoldings(fraction: real)

  /** An action registered for `minutesAfterOpen` after the market opens on `day`. */
  datatype PendingOrder = PendingOrder(symbol: Symbol, day: Date, minutesAfterOpen: nat, action: Action)

  function SellOrder(s: Symbol, nextOpen: Symbol -> DateTime): PendingOrder {
    PendingOrder(s, nextOpen(s).date, SellOffsetMinutes, Liquidate)
  }

  function BuyOrder(s: Symbol, nextOpen: Symbol -> DateTime, targetSize: nat): PendingOrder
    requires targetSize > 0
  {
    PendingOrder(s, nextOpen(s).date, BuyOffsetMinutes, SetHoldings(BuyAllocation / targetSize as real))
  }

  function SellOrders(sells: seq<Symbol>, nextOpen: Symbol -> DateTime): seq<PendingOrder> {
    if sells == [] then []
    else SellOrders(sells[..|sells| - 1], nextOpen) + [SellOrder(sells[|sells| - 1], nextOpen)]
  }

  function BuyOrders(buys: seq<Symbol>, nextOpen: Symbol -> DateTime, targetSize: nat): seq<PendingOrder>
    requires buys == [] || targetSize > 0
  {
    if buys == [] then []
    else BuyOrders(buys[..|buys| - 1], nextOpen, targetSize) + [BuyOrder(buys[|buys| - 1], nextOpen, targetSize)]
  }

  /** What `Rebalance` schedules: the liquidations, then the purchases. */
  function PlannedOrders(holdings: seq<Holding>, target: seq<Symbol>, nextOpen: Symbol -> DateTime): seq<PendingOrder> {
    var p := RebalancePlan(InvestedSymbols(holdings), target);
    BuysNeedTarget(InvestedSymbols(holdings), target);
    SellOrders(p.sells, nextOpen) + BuyOrders(p.buys, nextOpen, |target|)
  }

  lemma {:induction false} SellOrdersAt(sells: seq<Symbol>, nextOpen: Symbol -> DateTime)
    ensures |SellOrders(sells, nextOpen)| == |sells|
    ensures forall i :: 0 <= i < |sells| ==> SellOrders(sells, nextOpen)[i] == SellOrder(sells[i], nextOpen)
    decreases |sells|
  {
    if sells != [] {
      SellOrdersAt(sells[..|sells| - 1], nextOpen);
    }
  }

  lemma {:induction false} BuyOrdersAt(buys: seq<Symbol>, nextOpen: Symbol -> DateTime, targetSize: nat)
    requires buys == [] || targetSize > 0
    ensures |BuyOrders(buys, nextOpen, targetSize)| == |buys|
    ensures forall i :: 0 <= i < |buys| ==> BuyOrders(buys, nextOpen, targetSize)[i] == BuyOrder(buys[i], nextOpen, targetSize)
    decreases |buys|
  {
    if buys != [] {
      BuyOrdersAt(buys[..|buys| - 1], nextOpen, targetSize);
    }
  }

  /**
   One liquidation 60 minutes after the next open per kept sell, then one purchase
   90 minutes after the next open per buy, sized 0.95 / |target|; with no buys
   (in particular with an empty target) the balancing rule leaves no sells either,
   so nothing at all is scheduled.
   */
  lemma PlannedOrdersFacts(holdings: seq<Holding>, target: seq<Symbol>, nextOpen: Symbol -> DateTime)
    ensures var p := RebalancePlan(InvestedSymbols(holdings), target); var orders := PlannedOrders(holdings, target, nextOpen);
      && |orders| == |p.sells| + |p.buys|
      && (forall i :: 0 <= i < |p.sells| ==>
            orders[i] == PendingOrder(p.sells[i], nextOpen(p.sells[i]).date, 60, Liquidate))
      && (forall j :: 0 <= j < |p.buys| ==>
            |target| > 0 && orders[|p.sells| + j] == PendingOrder(p.buys[j], nextOpen(p.buys[j]).date, 90, SetHoldings(0.95 / |target| as real)))
      && (p.buys == [] ==> orders == [])
      && (target == [] ==> orders == [])
  {
    var p := RebalancePlan(InvestedSymbols(holdings), target);
    BuysNeedTarget(InvestedSymbols(holdings), target);
    SellOrdersAt(p.sells, nextOpen);
    BuyOrdersAt(p.buys, nextOpen, |target|);
    RebalancePlanTrim(InvestedSymbols(holdings), target);
  }
}
