/**
 * The `Account` class of main.py: the account state updated in place by the
 * daily rules. Each method is proved to leave the account exactly as the
 * matching function of module Rules says, and the properties of the rules are
 * proved there.
 */
module Engine {
  import opened Basics
  import opened Dict
  import opened Market
  import opened Ranking
  import opened Rules

  class Account {
    /** The loaded stocks (`stocks` with `stocks_min_max`), read-only during a run. */
    const catalog: seq<Stock>
    /** The calendar days of the run. */
    const dateRange: seq<int>
    var balance: real
    /** `stocks_owned`: stock name to amount held. */
    var owned: Dict<int>
    /** `sequence`: the transaction log. */
    var sequence: seq<Transaction>
    /** The Balance column of `history`. */
    var balanceHistory: map<int, real>
    /** The Portfolio column of `history`. */
    var portfolioHistory: map<int, real>

    /** The part of the account the rules change. */
    function State(): Portfolio
      reads this
    {
      Portfolio(balance, owned, sequence)
    }

    /** The catalog is as the loader leaves it, and holdings are positive amounts of catalog stocks. */
    predicate Valid()
      reads this
    {
      ValidCatalog(catalog) && ValidHoldings(catalog, owned)
    }

    /**
     * main.py:11-20: a fresh account with the given balance, no holdings, an
     * empty log, and a history that is 0 on every day except the Balance of
     * the first day.
     */
    constructor (dateRange: seq<int>, catalog: seq<Stock>, balance: real)
      requires |dateRange| > 0 && ValidCatalog(catalog)
      ensures Valid()
      ensures this.catalog == catalog && this.dateRange == dateRange
      ensures State() == Portfolio(balance, [], [])
      ensures balanceHistory == ZeroHistory(dateRange)[dateRange[0] := balance]
      ensures portfolioHistory == ZeroHistory(dateRange)
    {
      this.balance := balance;
      this.dateRange := dateRange;
      this.catalog := catalog;
      balanceHistory := ZeroHistory(dateRange)[dateRange[0] := balance];
      portfolioHistory := ZeroHistory(dateRange);
      sequence := [];
      owned := [];
    }

    /**
     * `buy_low_sell_high` (main.py:22-66): the swing purchase of the stock with
     * the best profit among those at their all-time low today, then the sale
     * of every held stock at its all-time high today; `made` tells whether a
     * transaction was made.
     */
    method BuyLowSellHigh(day: int, minBalanceFraction: real) returns (made: bool)
      requires Valid()
      modifies this
      ensures Valid()
      ensures (State(), made) == SwingDay(catalog, old(State()), day, minBalanceFraction)
      ensures unchanged(this`balanceHistory, this`portfolioHistory)
    {
      ghost var p := State();
      var buy := SwingBuy(catalog, day, balance, minBalanceFraction);
      made := buy.Some?;
      if buy.Some? {
        PlaceOrder(day, buy.value);
      }
      assert State() == SwingBought(catalog, p, day, minBalanceFraction);
      SwingBoughtHoldings(catalog, p, day, minBalanceFraction);
      ghost var q := State();
      var sold := SwingSales(day);
      SellHighsKeeps(catalog, q, day, HighDayStocks(catalog, day));
      made := made || sold;
    }

    /** main.py:46-50: carry out the swing purchase `o` decided by the rule. */
    method PlaceOrder(day: int, o: Order)
      requires o.stock < |catalog| && DistinctKeys(owned)
      modifies this
      ensures State() == ApplySwingBuy(catalog, old(State()), day, o)
      ensures unchanged(this`balanceHistory, this`portfolioHistory)
    {
      var name := catalog[o.stock].name;
      owned := Put(owned, name, o.amount);
      balance := balance - BuyCost(o.amount, o.bar.low);
      sequence := sequence + [Transaction(day, BuyLow, name, o.amount)];
    }

    /**
     * main.py:53-65: sell in full, at today's high, every held stock whose
     * all-time high is today, in table order; the result tells whether any was
     * sold.
     */
    method SwingSales(day: int) returns (sold: bool)
      requires ValidCatalog(catalog) && DistinctKeys(owned)
      modifies this
      ensures (State(), sold) == SellHighs(catalog, old(State()), day, HighDayStocks(catalog, day))
      ensures unchanged(this`balanceHistory, this`portfolioHistory)
    {
      ghost var p := State();
      sold := false;
      var sells := HighDayStocks(catalog, day);
      for k := 0 to |sells|
        invariant DistinctKeys(owned)
        invariant unchanged(this`balanceHistory, this`portfolioHistory)
        invariant (State(), sold) == SellHighs(catalog, p, day, sells[..k])
      {
        SellHighsStep(catalog, p, day, sells, k);
        var one := SellIfHeld(day, sells[k]);
        sold := sold || one;
      }
      assert sells[..|sells|] == sells;
    }

    /** main.py:56-64: sell stock i in full at today's high, if it is held; the result tells whether it was. */
    method SellIfHeld(day: int, i: nat) returns (sold: bool)
      requires ValidCatalog(catalog) && i < |catalog| && catalog[i].ext.maxDate == day && DistinctKeys(owned)
      modifies this
      ensures (State(), sold) == SellHighOne(catalog, old(State()), day, i)
      ensures unchanged(this`balanceHistory, this`portfolioHistory)
    {
      var name := catalog[i].name;
      match Get(owned, name)
      case None =>
        sold := false;
      case Some(amount) =>
        sold := true;
        var bar := BarOn(catalog[i].rows, day).value;
        owned := Remove(owned, name);
        balance := balance + SellProceeds(amount, bar.high);
        sequence := sequence + [Transaction(day, SellHigh, name, amount)];
    }

    /**
     * `buy_low_sell_close` (main.py:68-117): unless a swing transaction was
     * made or the balance is at most 100, collect today's candidates, buy them
     * in decreasing order of close − low times amount while the balance stays
     * non-negative, then sell all bought at today's close.
     */
    method BuyLowSellClose(day: int, made: bool, minIntradayProfit: real)
      requires Valid()
      modifies this
      ensures Valid()
      ensures State() == IntradayDay(catalog, old(State()), day, made, minIntradayProfit)
      ensures unchanged(this`balanceHistory, this`portfolioHistory)
    {
      if !made && balance > 100.0 {
        var cands := FindCandidates(day, minIntradayProfit);
        if cands != [] {
          var order := Rank(RankKeys(cands));
          RankIsSortedPermutation(RankKeys(cands));
          var bought := BuyRanked(cands, order, day);
          SellBought(cands, bought, day);
        }
      }
    }

    /** main.py:73-90: today's intraday candidates, in table order, sized with the current balance. */
    method FindCandidates(day: int, minIntradayProfit: real) returns (cands: seq<Candidate>)
      ensures cands == Candidates(catalog, day, balance, minIntradayProfit, |catalog|)
    {
      cands := [];
      for i := 0 to |catalog|
        invariant cands == Candidates(catalog, day, balance, minIntradayProfit, i)
      {
        match BarOn(catalog[i].rows, day)
        case None =>
        case Some(bar) =>
          var gain := bar.close - bar.low;
          if gain >= minIntradayProfit {
            var amount := CapBy(Affordable(balance, bar.low), VolumeCap(bar.volume));
            if amount > 0 {
              cands := cands + [Candidate(i, catalog[i].name, bar, gain, amount)];
            }
          }
      }
    }

    /**
     * main.py:92-106: try the candidates in `order`, buying each whose cost
     * leaves a non-negative balance; returns the positions bought.
     */
    method BuyRanked(cands: seq<Candidate>, order: seq<nat>, day: int) returns (bought: seq<nat>)
      requires Indexes(cands, order)
      modifies this
      ensures (State(), bought) == BuyPass(cands, order, old(State()), day)
      ensures unchanged(this`balanceHistory, this`portfolioHistory)
    {
      ghost var p := State();
      bought := [];
      for k := 0 to |order|
        invariant unchanged(this`balanceHistory, this`portfolioHistory)
        invariant (State(), bought) == BuyPass(cands, order[..k], p, day)
      {
        assert order[..k + 1][..k] == order[..k];
        var c := cands[order[k]];
        var cost := BuyCost(c.amount, c.bar.low);
        if balance - cost >= 0.0 {
          balance := balance - cost;
          sequence := sequence + [Transaction(day, BuyLow, c.name, c.amount)];
          bought := bought + [order[k]];
        }
      }
      assert order[..|order|] == order;
    }

    /** main.py:107-117: sell every bought candidate at today's close, in buying order. */
    method SellBought(cands: seq<Candidate>, bought: seq<nat>, day: int)
      requires Indexes(cands, bought)
      modifies this
      ensures State() == SellPass(cands, bought, old(State()), day)
      ensures unchanged(this`balanceHistory, this`portfolioHistory)
    {
      ghost var p := State();
      for k := 0 to |bought|
        invariant unchanged(this`balanceHistory, this`portfolioHistory)
        invariant State() == SellPass(cands, bought[..k], p, day)
      {
        assert bought[..k + 1][..k] == bought[..k];
        var c := cands[bought[k]];
        balance := balance + SellProceeds(c.amount, c.bar.close);
        sequence := sequence + [Transaction(day, SellClose, c.name, c.amount)];
      }
      assert bought[..|bought|] == bought;
    }

    /** main.py:123-126: the value of the holdings at today's closes. */
    method HoldingsValue(day: int) returns (portfolio: real)
      ensures portfolio == PortfolioValue(catalog, owned, day)
    {
      portfolio := 0.0;
      for k := 0 to |owned|
        invariant portfolio == PortfolioValue(catalog, owned[..k], day)
      {
        var e := owned[k];
        PortfolioValueStep(catalog, owned, k, day);
        match IndexOf(catalog, e.key)
        case None =>
        case Some(i) =>
          match BarOn(catalog[i].rows, day)
          case None =>
          case Some(bar) =>
            portfolio := portfolio + e.value as real * bar.close;
      }
      assert owned[..|owned|] == owned;
    }

    /**
     * `update_portfolio` (main.py:119-127): record at `day` the value of the
     * holdings at today's closes, leaving all else as it was; running it again
     * on the same account records the same entry.
     */
    method UpdatePortfolio(day: int)
      modifies this
      ensures portfolioHistory == old(portfolioHistory)[day := PortfolioValue(catalog, owned, day)]
      ensures State() == old(State()) && balanceHistory == old(balanceHistory)
    {
      var portfolio := HoldingsValue(day);
      portfolioHistory := portfolioHistory[day := portfolio];
    }

    /**
     * main.py:134-140, one day of `make_money`: both rules, then the day's
     * Balance and Portfolio entries of the history.
     */
    method TradeAndRecord(day: int, minIntradayProfit: real, minBalanceFraction: real)
      requires Valid()
      modifies this
      ensures Valid()
      ensures State() == TradeDay(catalog, old(State()), day, minIntradayProfit, minBalanceFraction)
      ensures balanceHistory == old(balanceHistory)[day := balance]
      ensures portfolioHistory == old(portfolioHistory)[day := PortfolioValue(catalog, owned, day)]
    {
      var made := BuyLowSellHigh(day, minBalanceFraction);
      BuyLowSellClose(day, made, minIntradayProfit);
      balanceHistory := balanceHistory[day := balance];
      UpdatePortfolio(day);
    }

    /**
     * `make_money` (main.py:129-143): trade every day of the range in
     * ascending order, record the end-of-day balance and holdings value for
     * each, and return the log.
     */
    method MakeMoney(minIntradayProfit: real, minBalanceFraction: real) returns (log: seq<Transaction>)
      requires Valid()
      modifies this
      ensures Valid()
      ensures State() == Run(catalog, old(State()), dateRange, minIntradayProfit, minBalanceFraction)
      ensures balanceHistory == Record(old(balanceHistory), dateRange, EndBalances(catalog, old(State()), dateRange, minIntradayProfit, minBalanceFraction))
      ensures portfolioHistory == Record(old(portfolioHistory), dateRange, EndValues(catalog, old(State()), dateRange, minIntradayProfit, minBalanceFraction))
      ensures log == sequence
    {
      ghost var p := State();
      ghost var h := balanceHistory;
      ghost var g := portfolioHistory;
      for i := 0 to |dateRange|
        invariant Valid()
        invariant State() == Run(catalog, p, dateRange[..i], minIntradayProfit, minBalanceFraction)
        invariant balanceHistory == Record(h, dateRange[..i], EndBalances(catalog, p, dateRange[..i], minIntradayProfit, minBalanceFraction))
        invariant portfolioHistory == Record(g, dateRange[..i], EndValues(catalog, p, dateRange[..i], minIntradayProfit, minBalanceFraction))
      {
        ghost var r := Run(catalog, p, dateRange[..i + 1], minIntradayProfit, minBalanceFraction);
        RunStep(catalog, p, dateRange, i, minIntradayProfit, minBalanceFraction);
        EndOfDayStep(catalog, p, dateRange, i, minIntradayProfit, minBalanceFraction);
        RecordStep(h, dateRange, EndBalances(catalog, p, dateRange[..i], minIntradayProfit, minBalanceFraction), i, r.balance);
        RecordStep(g, dateRange, EndValues(catalog, p, dateRange[..i], minIntradayProfit, minBalanceFraction), i, PortfolioValue(catalog, r.owned, dateRange[i]));
        TradeAndRecord(dateRange[i], minIntradayProfit, minBalanceFraction);
      }
      assert dateRange[..|dateRange|] == dateRange;
      log := sequence;
    }
  }
}
