/**
 The `Demo` algorithm: the state carried between universe-selection calls (the
 queue of rebalancing dates, the two flags and the cached target portfolio) and
 the callbacks that read and update it.
 */
module Algorithm {
  import opened Dates
  import opened Universe
  import opened Rebalancing

  /** The configured first rebalancing date, 2006-02-04 at midnight. */
  const StartDate: DateTime := DateTime(Date(2006, 2, 4), 0)
  /** The configured end of the run, 2018-09-10 at midnight. */
  const EndDate: DateTime := DateTime(Date(2018, 9, 10), 0)

  /** February 4 of year `y` at midnight: the day of year of the configured start. */
  function RebalanceMidnight(y: int): DateTime {
    DateTime(Date(y, 2, 4), 0)
  }

  /** The configured range yields the 13 dates 2006-02-04, 2007-02-04, ..., 2018-02-04. */
  lemma {:induction false} ConfiguredSchedule()
    ensures YearlyDates(StartDate, EndDate).Ok?
    ensures |YearlyDates(StartDate, EndDate).value| == 13
    ensures forall i :: 0 <= i < 13 ==> YearlyDates(StartDate, EndDate).value[i] == RebalanceMidnight(2006 + i)
  {
    ConfiguredScheduleFrom(2006);
  }

  lemma {:induction false} ConfiguredScheduleFrom(y: int)
    requires 2006 <= y <= 2019
    ensures YearlyDates(RebalanceMidnight(y), EndDate).Ok?
    ensures |YearlyDates(RebalanceMidnight(y), EndDate).value| == 2019 - y
    ensures forall i :: 0 <= i < 2019 - y ==> YearlyDates(RebalanceMidnight(y), EndDate).value[i] == RebalanceMidnight(y + i)
    decreases 2019 - y
  {
    if y < 2019 {
      assert AddYears(RebalanceMidnight(y)) == Ok(RebalanceMidnight(y + 1));
      ConfiguredScheduleFrom(y + 1);
      var rest := YearlyDates(RebalanceMidnight(y + 1), EndDate).value;
      assert YearlyDates(RebalanceMidnight(y), EndDate).value == [RebalanceMidnight(y)] + rest;
    }
  }

  /** What the host reports to `OnSecuritiesChanged`. */
  datatype SecurityChanges = SecurityChanges(added: seq<Symbol>, removed: seq<Symbol>) {
    /** `SecurityChanges.None`: nothing added, nothing removed. */
    predicate IsNone() {
      added == [] && removed == []
    }
  }

  class Demo {
    /** The rebalancing dates not yet passed, earliest first. */
    var rebalancingDates: seq<DateTime>
    /** Set by a coarse call that passed a rebalancing date; gates the fine call. */
    var isRebalancing: bool
    /** Set together with `isRebalancing`; nothing in the core reads it. */
    var isPlacingOrders: bool
    /** The last target portfolio chosen by the fine screen. */
    var nextPortfolio: seq<Symbol>

    /** The date queue stays strictly increasing and holds only valid dates. */
    ghost predicate Valid()
      reads this
    {
      && StrictlyIncreasing(rebalancingDates)
      && forall i :: 0 <= i < |rebalancingDates| ==> Dates.Valid(rebalancingDates[i])
    }

    /** `Initialize`, as far as the core goes: the date queue for the configured range. */
    constructor Initialize()
      ensures Valid()
      ensures rebalancingDates == YearlyDates(StartDate, EndDate).value && |rebalancingDates| == 13
      ensures !isRebalancing && !isPlacingOrders && nextPortfolio == []
    {
      YearlyDatesInRange(StartDate, EndDate);
      YearlyDatesIncreasing(StartDate, EndDate);
      YearlyDatesValid(StartDate, EndDate);
      ConfiguredSchedule();
      var dates := GenerateRebalancingDates(StartDate, EndDate);
      rebalancingDates := dates.value;
      isRebalancing := false;
      isPlacingOrders := false;
      nextPortfolio := [];
    }

    /**
     The coarse selection callback. Both flags end up equal to "a date was passed":
     then the head of the queue (and only it) is removed and the symbols passing the
     coarse screen are returned in input order; otherwise queue and cache stay as
     they were and the cached portfolio is returned.
     */
    method Coarse(time: DateTime, coarse: seq<CoarseFundamental>) returns (selected: seq<Symbol>)
      requires Valid()
      modifies this`rebalancingDates, this`isRebalancing, this`isPlacingOrders
      ensures Valid()
      ensures isRebalancing == isPlacingOrders
      ensures isRebalancing == (old(rebalancingDates) != [] && Before(old(rebalancingDates)[0], time))
      ensures isRebalancing ==> rebalancingDates == old(rebalancingDates)[1..] && selected == CoarseSelection(coarse)
      ensures !isRebalancing ==> rebalancingDates == old(rebalancingDates) && selected == nextPortfolio
    {
      isRebalancing := false;
      isPlacingOrders := false;
      if |rebalancingDates| > 0 && Before(rebalancingDates[0], time) {
        rebalancingDates := rebalancingDates[1..];
        isRebalancing := true;
        isPlacingOrders := true;
        return CoarseSelection(coarse);
      }
      return nextPortfolio;
    }

    /**
     The fine selection callback. While a rebalancing is in progress the cached
     portfolio is replaced by the symbols of the ten best-ROIC records passing the
     value screen (stable order among equal ROICs); otherwise it is left alone.
     Either way the cached portfolio is returned.
     */
    method Fine(fine: seq<FineFundamental>) returns (portfolio: seq<Symbol>)
      modifies this`nextPortfolio
      ensures nextPortfolio == if isRebalancing then SymbolsOf(TopRanked(Candidates(fine))) else old(nextPortfolio)
      ensures portfolio == nextPortfolio
    {
      if isRebalancing {
        var symbols: seq<Candidate> := [];
        for i := 0 to |fine|
          invariant symbols == Candidates(fine[..i])
        {
          assert fine[..i + 1][..i] == fine[..i];
          var ff := fine[i];
          if ff.pe5YearAverage > 0.0 && ff.peRatio > 0.0 {
            var peRatio := ff.peRatio / ff.pe5YearAverage;
            if peRatio < MaxValueRatio {
              symbols := symbols + [Candidate(ff.symbol, ff.roic)];
            }
          }
        }
        assert fine[..|fine|] == fine;
        nextPortfolio := SymbolsOf(TopRanked(symbols));
      }
      portfolio := nextPortfolio;
    }

    /**
     Diffs the invested holdings against `newPortfolio`, trims the sell list from
     the front to the number of buys, and emits the liquidations and purchases.
     */
    method Rebalance(holdings: seq<Holding>, newPortfolio: seq<Symbol>, nextOpen: Symbol -> DateTime)
      returns (orders: seq<PendingOrder>)
      ensures orders == PlannedOrders(holdings, newPortfolio, nextOpen)
    {
      var portfolio := GetPortfolioSymbols(holdings);
      var sellList := Minus(portfolio, newPortfolio);
      var buyList := Minus(newPortfolio, portfolio);
      BuysNeedTarget(portfolio, newPortfolio);

      ghost var raw := sellList;
      var diff := |sellList| - |buyList|;
      while diff > 0
        invariant diff == |sellList| - |buyList|
        invariant |sellList| <= |raw| && sellList == raw[|raw| - |sellList|..]
        invariant |sellList| >= Min(|raw|, |buyList|)
      {
        sellList := sellList[1..];
        diff := diff - 1;
      }
      assert sellList == RebalancePlan(portfolio, newPortfolio).sells;

      orders := [];
      for i := 0 to |sellList|
        invariant orders == SellOrders(sellList[..i], nextOpen)
      {
        assert sellList[..i + 1][..i] == sellList[..i];
        var symbol := sellList[i];
        orders := orders + [PendingOrder(symbol, nextOpen(symbol).date, SellOffsetMinutes, Liquidate)];
      }
      assert sellList[..|sellList|] == sellList;

      ghost var sold := orders;
      for j := 0 to |buyList|
        invariant orders == sold + BuyOrders(buyList[..j], nextOpen, |newPortfolio|)
      {
        assert buyList[..j + 1][..j] == buyList[..j];
        var symbol := buyList[j];
        var fraction := BuyAllocation / |newPortfolio| as real;
        orders := orders + [PendingOrder(symbol, nextOpen(symbol).date, BuyOffsetMinutes, SetHoldings(fraction))];
      }
      assert buyList[..|buyList|] == buyList;
    }

    /** Any reported change triggers a rebalance toward the cached portfolio; no change schedules nothing. */
    method OnSecuritiesChanged(changes: SecurityChanges, holdings: seq<Holding>, nextOpen: Symbol -> DateTime)
      returns (orders: seq<PendingOrder>)
      ensures orders == if changes.IsNone() then [] else PlannedOrders(holdings, nextPortfolio, nextOpen)
    {
      orders := [];
      if !changes.IsNone() {
        orders := Rebalance(holdings, nextPortfolio, nextOpen);
      }
    }
  }
}
