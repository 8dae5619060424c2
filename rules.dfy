/**
 * The trading rules of `Account` (main.py) as functions of the account state:
 * the swing rule (buy at a stock's all-time low day, sell at its all-time high
 * day), the intraday rule (buy at the low, sell at the close of the same day),
 * the mark-to-market valuation and the day-by-day run. The `Account` class
 * executes these rules in place and is proved against them.
 */
module Rules {
  import opened Basics
  import opened Columns
  import opened Dict
  import opened Market
  import opened Ranking

  datatype Action = BuyLow | SellHigh | SellClose

  /** One entry of `sequence`: `[str(day), action, stock, amount]`. */
  datatype Transaction = Transaction(day: int, action: Action, stock: string, amount: int)

  /** The account state the rules change: `balance`, `stocks_owned` and `sequence`. */
  datatype Portfolio = Portfolio(balance: real, owned: Dict<int>, log: seq<Transaction>)

  /** Holdings are a dict of positive amounts of catalog stocks. */
  predicate ValidHoldings(cat: seq<Stock>, owned: Dict<int>)
  {
    && DistinctKeys(owned)
    && forall k :: 0 <= k < |owned| ==> owned[k].value > 0 && IndexOf(cat, owned[k].key).Some?
  }

  // ---------------------------------------------------------------- swing rule

  /** Positions of the first n stocks whose all-time low (or, with `atHigh`, high) is on `day`. */
  function DatedOn(cat: seq<Stock>, day: int, atHigh: bool, n: nat): (r: seq<nat>)
    requires n <= |cat|
    ensures forall k :: 0 <= k < |r| ==> r[k] < n
    ensures forall k :: 0 <= k < |r| ==> (if atHigh then cat[r[k]].ext.maxDate else cat[r[k]].ext.minDate) == day
    ensures forall i :: 0 <= i < n && (if atHigh then cat[i].ext.maxDate else cat[i].ext.minDate) == day ==> i in r
    ensures forall a, b :: 0 <= a < b < |r| ==> r[a] < r[b]
  {
    if n == 0 then []
    else
      var r := DatedOn(cat, day, atHigh, n - 1);
      if (if atHigh then cat[n - 1].ext.maxDate else cat[n - 1].ext.minDate) == day then r + [n - 1] else r
  }

  /** main.py:29: the stocks whose `min_date` is today, in table order. */
  function LowDayStocks(cat: seq<Stock>, day: int): seq<nat>
  {
    DatedOn(cat, day, false, |cat|)
  }

  /** main.py:54: the stocks whose `max_date` is today, in table order. */
  function HighDayStocks(cat: seq<Stock>, day: int): seq<nat>
  {
    DatedOn(cat, day, true, |cat|)
  }

  /** main.py:31: the profit column of the selected stocks. */
  function Profits(cat: seq<Stock>, idxs: seq<nat>): (ps: seq<real>)
    requires forall k :: 0 <= k < |idxs| ==> idxs[k] < |cat|
    ensures |ps| == |idxs| && forall k :: 0 <= k < |idxs| ==> ps[k] == cat[idxs[k]].ext.profit
  {
    seq(|idxs|, k requires 0 <= k < |idxs| => cat[idxs[k]].ext.profit)
  }

  /**
   * main.py:28-34: the stock the swing rule buys today, if any. It is the first
   * stock, in table order, with the largest profit among those whose all-time
   * low is today; and there is one exactly when some stock has its low today
   * and the largest such profit is at least 10 or the balance is below 10.
   */
  function SwingPick(cat: seq<Stock>, day: int, balance: real): (r: Option<nat>)
    ensures r.Some? ==> r.value < |cat| && cat[r.value].ext.minDate == day
    ensures r.Some? ==> forall i :: 0 <= i < |cat| && cat[i].ext.minDate == day ==>
              cat[i].ext.profit <= cat[r.value].ext.profit
    ensures r.Some? ==> forall i :: 0 <= i < r.value && cat[i].ext.minDate == day ==>
              cat[i].ext.profit < cat[r.value].ext.profit
    ensures r.Some? ==> cat[r.value].ext.profit >= 10.0 || balance < 10.0
    ensures r.None? <==> forall i :: 0 <= i < |cat| && cat[i].ext.minDate == day ==>
              cat[i].ext.profit < 10.0 && balance >= 10.0
  {
    var matches := LowDayStocks(cat, day);
    if matches == [] then None
    else
      var profits := Profits(cat, matches);
      var k := ArgMax(profits);
      MaxAtArgMax(profits);
      PickIsFirstMax(cat, matches, profits, k);
      if Max(profits) >= 10.0 || balance < 10.0 then Some(matches[k]) else None
  }

  /** The position `np.argmax` finds among the low-day stocks is the first largest profit in table order. */
  lemma PickIsFirstMax(cat: seq<Stock>, matches: seq<nat>, profits: seq<real>, k: nat)
    requires forall a :: 0 <= a < |matches| ==> matches[a] < |cat|
    requires forall a, b :: 0 <= a < b < |matches| ==> matches[a] < matches[b]
    requires profits == Profits(cat, matches)
    requires k < |profits|
    requires forall j :: 0 <= j < |profits| ==> profits[j] <= profits[k]
    requires forall j :: 0 <= j < k ==> profits[j] < profits[k]
    ensures forall i :: i in matches ==> cat[i].ext.profit <= cat[matches[k]].ext.profit
    ensures forall i :: i in matches && i < matches[k] ==> cat[i].ext.profit < cat[matches[k]].ext.profit
  {
    forall i | i in matches
      ensures cat[i].ext.profit <= cat[matches[k]].ext.profit
      ensures i < matches[k] ==> cat[i].ext.profit < cat[matches[k]].ext.profit
    {
      var a :| 0 <= a < |matches| && matches[a] == i;
    }
  }

  function Least(a: int, b: int): int
  {
    if a <= b then a else b
  }

  /**
   * main.py:36-40: the swing amount, the least of the shares the balance
   * affords with the fee, 10% of the day's volume and 10% of the volume on the
   * stock's all-time high day.
   */
  function SwingAmount(balance: real, bar: Bar, maxVolume: real): (n: int)
    ensures n <= VolumeCap(bar.volume) && n <= VolumeCap(maxVolume)
    ensures Affordable(balance, bar.low).Some? ==> n <= Affordable(balance, bar.low).value
    ensures n == VolumeCap(bar.volume) || n == VolumeCap(maxVolume) || Affordable(balance, bar.low) == Some(n)
  {
    CapBy(Affordable(balance, bar.low), Least(VolumeCap(bar.volume), VolumeCap(maxVolume)))
  }

  /** A purchase decided by a rule: catalog position, the day's bar, share amount. */
  datatype Order = Order(stock: nat, bar: Bar, amount: int)

  /** main.py:28-45: the swing purchase of the day, if it goes ahead. */
  function SwingBuy(cat: seq<Stock>, day: int, balance: real, minBalanceFraction: real): (r: Option<Order>)
    requires ValidCatalog(cat)
    ensures r.Some? ==> r.value.stock < |cat| && r.value.amount > 0
  {
    match SwingPick(cat, day, balance)
    case None => None
    case Some(i) =>
      var bar := BarOn(cat[i].rows, day).value;
      var o := Order(i, bar, SwingAmount(balance, bar, cat[i].ext.maxVolume));
      if o.amount > 0 && KeepsReserve(balance, o, minBalanceFraction) then Some(o) else None
  }

  /** main.py:45: the balance left after paying for `o` stays strictly above the reserve. */
  predicate KeepsReserve(balance: real, o: Order, minBalanceFraction: real)
  {
    balance - BuyCost(o.amount, o.bar.low) > balance * minBalanceFraction
  }

  /**
   * The swing purchase goes ahead exactly when a stock is picked, its amount is
   * positive and the balance left after paying stays strictly above the
   * reserve; it then buys the picked stock at today's bar.
   */
  lemma SwingBuyRule(cat: seq<Stock>, day: int, balance: real, minBalanceFraction: real)
    requires ValidCatalog(cat)
    ensures var r := SwingBuy(cat, day, balance, minBalanceFraction);
      && (r.Some? ==> SwingPick(cat, day, balance) == Some(r.value.stock)
                      && BarOn(cat[r.value.stock].rows, day) == Some(r.value.bar)
                      && r.value.amount == SwingAmount(balance, r.value.bar, cat[r.value.stock].ext.maxVolume))
      && (r.Some? <==>
            && SwingPick(cat, day, balance).Some?
            && var i := SwingPick(cat, day, balance).value;
               var bar := BarOn(cat[i].rows, day).value;
               var n := SwingAmount(balance, bar, cat[i].ext.maxVolume);
               n > 0 && balance - BuyCost(n, bar.low) > balance * minBalanceFraction)
  {
  }

  /**
   * A swing purchase buys a positive amount within 10% of the day's volume and
   * of the high day's volume, keeps more than the reserve, and at a positive low
   * never costs more than the balance; and when the day's volume caps the amount
   * at zero nothing is bought.
   */
  lemma SwingBuyBounds(cat: seq<Stock>, day: int, balance: real, minBalanceFraction: real)
    requires ValidCatalog(cat)
    ensures var r := SwingBuy(cat, day, balance, minBalanceFraction);
      r.Some? ==>
        && 0 < r.value.amount <= VolumeCap(r.value.bar.volume)
        && r.value.amount <= VolumeCap(cat[r.value.stock].ext.maxVolume)
        && balance - BuyCost(r.value.amount, r.value.bar.low) > balance * minBalanceFraction
        && (r.value.bar.low > 0.0 ==> BuyCost(r.value.amount, r.value.bar.low) <= balance)
    ensures var p := SwingPick(cat, day, balance);
      p.Some? && VolumeCap(BarOn(cat[p.value].rows, day).value.volume) <= 0 ==>
        SwingBuy(cat, day, balance, minBalanceFraction).None?
  {
    var r := SwingBuy(cat, day, balance, minBalanceFraction);
    if r.Some? && r.value.bar.low > 0.0 {
      AffordableIsLargest(balance, r.value.bar.low);
      var n := Affordable(balance, r.value.bar.low).value;
      BuyCostMono(r.value.amount, n, r.value.bar.low);
    }
  }

  /** Buying fewer shares at a positive price costs no more. */
  lemma BuyCostMono(m: int, n: int, price: real)
    requires m <= n && price > 0.0
    ensures BuyCost(m, price) <= BuyCost(n, price)
  {
    MulMono(m as real, n as real, price);
  }

  /** main.py:46-50: the account after the swing purchase `o`. */
  function ApplySwingBuy(cat: seq<Stock>, p: Portfolio, day: int, o: Order): (r: Portfolio)
    requires o.stock < |cat| && DistinctKeys(p.owned)
  {
    var name := cat[o.stock].name;
    Portfolio(p.balance - BuyCost(o.amount, o.bar.low), Put(p.owned, name, o.amount),
              p.log + [Transaction(day, BuyLow, name, o.amount)])
  }

  /** main.py:56-64 for stock i, whose all-time high is today: sold in full at today's high when held. */
  function SellHighOne(cat: seq<Stock>, p: Portfolio, day: int, i: nat): (r: (Portfolio, bool))
    requires ValidCatalog(cat) && i < |cat| && cat[i].ext.maxDate == day && DistinctKeys(p.owned)
    ensures DistinctKeys(r.0.owned)
  {
    var name := cat[i].name;
    match Get(p.owned, name)
    case None => (p, false)
    case Some(amount) =>
      var bar := BarOn(cat[i].rows, day).value;
      (Portfolio(p.balance + SellProceeds(amount, bar.high), Remove(p.owned, name),
                 p.log + [Transaction(day, SellHigh, name, amount)]), true)
  }

  predicate HighOn(cat: seq<Stock>, day: int, sells: seq<nat>)
  {
    forall k :: 0 <= k < |sells| ==> sells[k] < |cat| && cat[sells[k]].ext.maxDate == day
  }

  /** The loop of main.py:55-65 over `sells`; the flag says whether anything was sold. */
  function SellHighs(cat: seq<Stock>, p: Portfolio, day: int, sells: seq<nat>): (r: (Portfolio, bool))
    requires ValidCatalog(cat) && DistinctKeys(p.owned) && HighOn(cat, day, sells)
    ensures DistinctKeys(r.0.owned)
  {
    if sells == [] then (p, false)
    else
      var prev := SellHighs(cat, p, day, sells[..|sells| - 1]);
      var last := SellHighOne(cat, prev.0, day, sells[|sells| - 1]);
      (last.0, prev.1 || last.1)
  }

  /** One more step of the loop of main.py:55-65: the prefix of length k + 1 sells stock `sells[k]` after the prefix of length k. */
  lemma SellHighsStep(cat: seq<Stock>, p: Portfolio, day: int, sells: seq<nat>, k: nat)
    requires ValidCatalog(cat) && DistinctKeys(p.owned) && HighOn(cat, day, sells) && k < |sells|
    ensures HighOn(cat, day, sells[..k]) && HighOn(cat, day, sells[..k + 1])
    ensures var prev := SellHighs(cat, p, day, sells[..k]);
      var last := SellHighOne(cat, prev.0, day, sells[k]);
      SellHighs(cat, p, day, sells[..k + 1]) == (last.0, prev.1 || last.1)
  {
    assert sells[..k + 1][..k] == sells[..k];
  }

  /**
   * `buy_low_sell_high` (main.py:22-66): the account after the swing rule, and
   * whether it made a transaction.
   */
  function SwingDay(cat: seq<Stock>, p: Portfolio, day: int, minBalanceFraction: real): (r: (Portfolio, bool))
    requires ValidCatalog(cat) && DistinctKeys(p.owned)
    ensures DistinctKeys(r.0.owned)
  {
    var buy := SwingBuy(cat, day, p.balance, minBalanceFraction);
    var sold := SellHighs(cat, SwingBought(cat, p, day, minBalanceFraction), day, HighDayStocks(cat, day));
    (sold.0, buy.Some? || sold.1)
  }

  /** The account after the buying half of the swing rule (main.py:26-51). */
  function SwingBought(cat: seq<Stock>, p: Portfolio, day: int, minBalanceFraction: real): (r: Portfolio)
    requires ValidCatalog(cat) && DistinctKeys(p.owned)
    ensures DistinctKeys(r.owned)
  {
    AfterBuy(cat, p, day, SwingBuy(cat, day, p.balance, minBalanceFraction))
  }

  /** The account after carrying out the swing purchase decided, if any. */
  function AfterBuy(cat: seq<Stock>, p: Portfolio, day: int, buy: Option<Order>): (r: Portfolio)
    requires (buy.Some? ==> buy.value.stock < |cat|) && DistinctKeys(p.owned)
    ensures DistinctKeys(r.owned)
  {
    match buy
    case None => p
    case Some(o) => ApplySwingBuy(cat, p, day, o)
  }

  // ------------------------------------------------------------------ ledger

  /**
   * The cash a logged transaction moved, priced from the catalog: a buy at the
   * day's low costs the price plus 1%, a sell at the day's high or close brings
   * the price less 1%.
   */
  function Flow(cat: seq<Stock>, t: Transaction): real
  {
    match IndexOf(cat, t.stock)
    case None => 0.0
    case Some(i) =>
      match BarOn(cat[i].rows, t.day)
      case None => 0.0
      case Some(bar) =>
        match t.action
        case BuyLow => -BuyCost(t.amount, bar.low)
        case SellHigh => SellProceeds(t.amount, bar.high)
        case SellClose => SellProceeds(t.amount, bar.close)
  }

  /** Total cash moved by a log. */
  function NetFlow(cat: seq<Stock>, log: seq<Transaction>): real
  {
    if log == [] then 0.0 else NetFlow(cat, log[..|log| - 1]) + Flow(cat, log[|log| - 1])
  }

  /** The balance less what the log moved: unchanged by every rule (cash is conserved). */
  function Cash(cat: seq<Stock>, p: Portfolio): real
  {
    p.balance - NetFlow(cat, p.log)
  }

  lemma NetFlowAppend(cat: seq<Stock>, log: seq<Transaction>, t: Transaction)
    ensures NetFlow(cat, log + [t]) == NetFlow(cat, log) + Flow(cat, t)
  {
    assert (log + [t])[..|log|] == log;
  }

  /** Logging `t` and moving the balance by exactly its flow conserves cash. */
  lemma CashStep(cat: seq<Stock>, p: Portfolio, q: Portfolio, t: Transaction)
    requires q.log == p.log + [t] && q.balance == p.balance + Flow(cat, t)
    ensures Cash(cat, q) == Cash(cat, p)
  {
    NetFlowAppend(cat, p.log, t);
  }

  /** The flow of a trade in catalog stock i on a day it has a bar. */
  lemma FlowOf(cat: seq<Stock>, i: nat, day: int, bar: Bar, action: Action, amount: int)
    requires ValidCatalog(cat) && i < |cat| && BarOn(cat[i].rows, day) == Some(bar)
    ensures Flow(cat, Transaction(day, action, cat[i].name, amount)) ==
      match action
      case BuyLow => -BuyCost(amount, bar.low)
      case SellHigh => SellProceeds(amount, bar.high)
      case SellClose => SellProceeds(amount, bar.close)
  {
    IndexOfAt(cat, i);
  }

  // ------------------------------------------------------- swing-day lemmas

  /** Entries appended after position n of `log` are all on `day` with the given action. */
  predicate AllAfter(log: seq<Transaction>, n: nat, day: int, action: Action)
  {
    forall k :: n <= k < |log| ==> log[k].day == day && log[k].action == action
  }

  /** One swing sell: a held stock is sold in full and removed, a stock not held is left alone. */
  lemma SellHighOneEffect(cat: seq<Stock>, p: Portfolio, day: int, i: nat)
    requires ValidCatalog(cat) && i < |cat| && cat[i].ext.maxDate == day && DistinctKeys(p.owned)
    ensures var r := SellHighOne(cat, p, day, i); var name := cat[i].name;
      && (r.1 <==> Has(p.owned, name))
      && (r.1 ==> r.0.owned == Remove(p.owned, name))
      && (r.1 ==> r.0.log == p.log + [Transaction(day, SellHigh, name, Get(p.owned, name).value)])
      && (!r.1 ==> r.0 == p)
      && Get(r.0.owned, name) == None
      && (forall k' :: k' != name ==> Get(r.0.owned, k') == Get(p.owned, k'))
  {
    RemoveFacts(p.owned, cat[i].name);
  }

  /** One swing sell removes stock i from the holdings and leaves every other holding alone. */
  lemma SellHighOneOwned(cat: seq<Stock>, p: Portfolio, day: int, i: nat)
    requires ValidCatalog(cat) && i < |cat| && cat[i].ext.maxDate == day && DistinctKeys(p.owned)
    ensures var r := SellHighOne(cat, p, day, i).0;
      && Get(r.owned, cat[i].name) == None
      && (forall k' :: k' != cat[i].name ==> Get(r.owned, k') == Get(p.owned, k'))
  {
    RemoveFacts(p.owned, cat[i].name);
  }

  /** The swing sells over a non-empty list: those over all but the last, then the last. */
  lemma SellHighsLast(cat: seq<Stock>, p: Portfolio, day: int, sells: seq<nat>)
    requires ValidCatalog(cat) && DistinctKeys(p.owned) && HighOn(cat, day, sells) && sells != []
    ensures HighOn(cat, day, sells[..|sells| - 1])
    ensures var prev := SellHighs(cat, p, day, sells[..|sells| - 1]);
      var last := SellHighOne(cat, prev.0, day, sells[|sells| - 1]);
      SellHighs(cat, p, day, sells) == (last.0, prev.1 || last.1)
  {
  }

  /** Selling one stock at its high conserves cash: the proceeds are the flow of its 'sell-high' entry. */
  lemma SellHighOneCash(cat: seq<Stock>, p: Portfolio, day: int, i: nat)
    requires ValidCatalog(cat) && i < |cat| && cat[i].ext.maxDate == day && DistinctKeys(p.owned)
    ensures Cash(cat, SellHighOne(cat, p, day, i).0) == Cash(cat, p)
  {
    var name := cat[i].name;
    match Get(p.owned, name)
    case None =>
    case Some(amount) =>
      var bar := BarOn(cat[i].rows, day).value;
      var r := SellHighOne(cat, p, day, i).0;
      FlowOf(cat, i, day, bar, SellHigh, amount);
      CashStep(cat, p, r, Transaction(day, SellHigh, name, amount));
  }

  /**
   * The log side of the swing sells (main.py:53-65): only 'sell-high' entries of
   * today are appended, and the flag is set exactly when something was appended.
   */
  lemma {:induction false} SellHighsLog(cat: seq<Stock>, p: Portfolio, day: int, sells: seq<nat>)
    requires ValidCatalog(cat) && DistinctKeys(p.owned) && HighOn(cat, day, sells)
    ensures var r := SellHighs(cat, p, day, sells);
      && (r.1 <==> |r.0.log| > |p.log|)
      && |p.log| <= |r.0.log| && r.0.log[..|p.log|] == p.log
      && AllAfter(r.0.log, |p.log|, day, SellHigh)
  {
    if sells != [] {
      var pre, i := sells[..|sells| - 1], sells[|sells| - 1];
      SellHighsLast(cat, p, day, sells);
      SellHighsLog(cat, p, day, pre);
      var q := SellHighs(cat, p, day, pre).0;
      SellHighOneEffect(cat, q, day, i);
      var one := SellHighOne(cat, q, day, i);
      if one.1 {
        PrefixOfPrefix(q.log, one.0.log, |p.log|);
      }
    }
  }

  /** A sequence that starts with `xs` starts with every prefix of `xs`. */
  lemma PrefixOfPrefix<T>(xs: seq<T>, ys: seq<T>, n: nat)
    requires n <= |xs| <= |ys| && ys[..|xs|] == xs
    ensures ys[..n] == xs[..n]
  {
    assert ys[..n] == ys[..|xs|][..n];
  }

  /** The swing sells conserve cash. */
  lemma {:induction false} SellHighsCash(cat: seq<Stock>, p: Portfolio, day: int, sells: seq<nat>)
    requires ValidCatalog(cat) && DistinctKeys(p.owned) && HighOn(cat, day, sells)
    ensures Cash(cat, SellHighs(cat, p, day, sells).0) == Cash(cat, p)
  {
    if sells != [] {
      var pre, i := sells[..|sells| - 1], sells[|sells| - 1];
      SellHighsLast(cat, p, day, sells);
      SellHighsCash(cat, p, day, pre);
      SellHighOneCash(cat, SellHighs(cat, p, day, pre).0, day, i);
    }
  }

  /** A stock not among `sells` keeps its holding through the swing sells. */
  lemma {:induction false} SellHighsUntouched(cat: seq<Stock>, p: Portfolio, day: int, sells: seq<nat>, name: string)
    requires ValidCatalog(cat) && DistinctKeys(p.owned) && HighOn(cat, day, sells)
    requires forall k :: 0 <= k < |sells| ==> cat[sells[k]].name != name
    ensures Get(SellHighs(cat, p, day, sells).0.owned, name) == Get(p.owned, name)
  {
    if sells != [] {
      var pre, i := sells[..|sells| - 1], sells[|sells| - 1];
      SellHighsLast(cat, p, day, sells);
      SellHighsUntouched(cat, p, day, pre, name);
      SellHighOneOwned(cat, SellHighs(cat, p, day, pre).0, day, i);
    }
  }

  lemma LastInSuffix<T>(xs: seq<T>, t: T, n: nat)
    requires n <= |xs|
    ensures t in (xs + [t])[n..]
  {
    assert (xs + [t])[n..][|xs| - n] == t;
  }

  lemma SuffixGrows<T>(xs: seq<T>, u: T, n: nat, t: T)
    requires n <= |xs| && t in xs[n..]
    ensures t in (xs + [u])[n..]
  {
    var k :| 0 <= k < |xs[n..]| && xs[n..][k] == t;
    assert (xs + [u])[n..][k] == t;
  }

  /** A stock among `sells` (listed once) ends the swing sells not held. */
  lemma {:induction false} SellHighsGone(cat: seq<Stock>, p: Portfolio, day: int, sells: seq<nat>, a: nat)
    requires ValidCatalog(cat) && DistinctKeys(p.owned) && HighOn(cat, day, sells)
    requires forall x, y :: 0 <= x < y < |sells| ==> sells[x] < sells[y]
    requires a < |sells|
    ensures Get(SellHighs(cat, p, day, sells).0.owned, cat[sells[a]].name) == None
  {
    var pre, i := sells[..|sells| - 1], sells[|sells| - 1];
    var name := cat[sells[a]].name;
    SellHighsLast(cat, p, day, sells);
    var q := SellHighs(cat, p, day, pre).0;
    var r := SellHighOne(cat, q, day, i).0;
    assert Get(r.owned, name) == None by {
      SellHighOneOwned(cat, q, day, i);
      if a < |sells| - 1 {
        assert Get(q.owned, name) == None by {
          assert forall x, y :: 0 <= x < y < |pre| ==> pre[x] < pre[y] by {
            assert forall x :: 0 <= x < |pre| ==> pre[x] == sells[x];
          }
          SellHighsGone(cat, p, day, pre, a);
        }
        assert name != cat[i].name by {
          assert sells[a] < i;
        }
      }
    }
  }

  /**
   * A stock among `sells` (listed once) that was held gets a 'sell-high' entry
   * for the whole amount held.
   */
  lemma {:induction false} SellHighsEntry(cat: seq<Stock>, p: Portfolio, day: int, sells: seq<nat>, a: nat)
    requires ValidCatalog(cat) && DistinctKeys(p.owned) && HighOn(cat, day, sells)
    requires forall x, y :: 0 <= x < y < |sells| ==> sells[x] < sells[y]
    requires a < |sells| && Has(p.owned, cat[sells[a]].name)
    ensures var r := SellHighs(cat, p, day, sells).0;
      |p.log| <= |r.log| && Transaction(day, SellHigh, cat[sells[a]].name, Get(p.owned, cat[sells[a]].name).value) in r.log[|p.log|..]
  {
    var pre, i := sells[..|sells| - 1], sells[|sells| - 1];
    SellHighsLast(cat, p, day, sells);
    SellHighsLog(cat, p, day, pre);
    var q := SellHighs(cat, p, day, pre).0;
    SellHighOneEffect(cat, q, day, i);
    var one := SellHighOne(cat, q, day, i);
    var name := cat[sells[a]].name;
    var t := Transaction(day, SellHigh, name, Get(p.owned, name).value);
    if a == |sells| - 1 {
      SellHighsEntryLast(cat, p, day, sells);
      LastInSuffix(q.log, t, |p.log|);
    } else {
      SellHighsEntry(cat, p, day, pre, a);
      if one.1 {
        SuffixGrows(q.log, one.0.log[|q.log|], |p.log|, t);
      }
    }
  }

  /** The last stock of `sells`, if held to begin with, is still held when its turn comes. */
  lemma SellHighsEntryLast(cat: seq<Stock>, p: Portfolio, day: int, sells: seq<nat>)
    requires ValidCatalog(cat) && DistinctKeys(p.owned) && HighOn(cat, day, sells)
    requires forall x, y :: 0 <= x < y < |sells| ==> sells[x] < sells[y]
    requires sells != []
    ensures HighOn(cat, day, sells[..|sells| - 1])
    ensures var name := cat[sells[|sells| - 1]].name;
      Get(SellHighs(cat, p, day, sells[..|sells| - 1]).0.owned, name) == Get(p.owned, name)
  {
    var pre, name := sells[..|sells| - 1], cat[sells[|sells| - 1]].name;
    assert HighOn(cat, day, pre);
    forall k | 0 <= k < |pre| ensures cat[pre[k]].name != name {
      assert pre[k] == sells[k] < sells[|sells| - 1];
    }
    SellHighsUntouched(cat, p, day, pre, name);
  }

  /** The swing purchase conserves cash: its cost is the flow of its 'buy-low' entry. */
  lemma SwingBuyCash(cat: seq<Stock>, p: Portfolio, day: int, minBalanceFraction: real)
    requires ValidCatalog(cat) && DistinctKeys(p.owned)
    requires SwingBuy(cat, day, p.balance, minBalanceFraction).Some?
    ensures var o := SwingBuy(cat, day, p.balance, minBalanceFraction).value;
      Cash(cat, ApplySwingBuy(cat, p, day, o)) == Cash(cat, p)
  {
    var o := SwingBuy(cat, day, p.balance, minBalanceFraction).value;
    SwingBuyRule(cat, day, p.balance, minBalanceFraction);
    FlowOf(cat, o.stock, day, o.bar, BuyLow, o.amount);
    CashStep(cat, p, ApplySwingBuy(cat, p, day, o), Transaction(day, BuyLow, cat[o.stock].name, o.amount));
  }

  /**
   * `buy_low_sell_high` (main.py:22-66) as a whole: at most one 'buy-low' entry,
   * the first one appended and exactly when the swing purchase goes ahead; every
   * other appended entry a 'sell-high' of today; and the result true exactly
   * when something was appended.
   */
  lemma SwingDayEffect(cat: seq<Stock>, p: Portfolio, day: int, minBalanceFraction: real)
    requires ValidCatalog(cat) && DistinctKeys(p.owned)
    ensures var r := SwingDay(cat, p, day, minBalanceFraction);
      var buy := SwingBuy(cat, day, p.balance, minBalanceFraction);
      && (r.1 <==> |r.0.log| > |p.log|)
      && |p.log| <= |r.0.log| && r.0.log[..|p.log|] == p.log
      && AllAfter(r.0.log, if buy.Some? then |p.log| + 1 else |p.log|, day, SellHigh)
      && (buy.Some? ==> r.0.log[|p.log|] == Transaction(day, BuyLow, cat[buy.value.stock].name, buy.value.amount))
  {
    var buy := SwingBuy(cat, day, p.balance, minBalanceFraction);
    var p1 := SwingBought(cat, p, day, minBalanceFraction);
    var sells := HighDayStocks(cat, day);
    var r := SwingDay(cat, p, day, minBalanceFraction).0;
    assert r == SellHighs(cat, p1, day, sells).0;
    SellHighsLog(cat, p1, day, sells);
    if buy.Some? {
      var t := Transaction(day, BuyLow, cat[buy.value.stock].name, buy.value.amount);
      assert p1.log == p.log + [t];
      AppendedPrefix(p.log, t, r.log);
    }
  }

  /** A sequence starting with `xs + [t]` starts with `xs`, followed by `t`. */
  lemma AppendedPrefix<T>(xs: seq<T>, t: T, ys: seq<T>)
    requires |xs| + 1 <= |ys| && ys[..|xs| + 1] == xs + [t]
    ensures ys[..|xs|] == xs && ys[|xs|] == t
  {
    assert ys[..|xs|] == ys[..|xs| + 1][..|xs|];
  }

  /** `buy_low_sell_high` (main.py:22-66) conserves cash. */
  lemma SwingDayCash(cat: seq<Stock>, p: Portfolio, day: int, minBalanceFraction: real)
    requires ValidCatalog(cat) && DistinctKeys(p.owned)
    ensures Cash(cat, SwingDay(cat, p, day, minBalanceFraction).0) == Cash(cat, p)
  {
    var p1 := SwingBought(cat, p, day, minBalanceFraction);
    if SwingBuy(cat, day, p.balance, minBalanceFraction).Some? {
      SwingBuyCash(cat, p, day, minBalanceFraction);
    }
    SellHighsCash(cat, p1, day, HighDayStocks(cat, day));
  }

  // ------------------------------------------------------------- intraday rule

  /** A possible intraday trade (main.py:87-90): catalog position, name, today's bar, close − low, amount. */
  datatype Candidate = Candidate(stock: nat, name: string, bar: Bar, gain: real, amount: int)

  /**
   * main.py:79-90 for catalog stock i: a candidate when the stock has a bar
   * today, its close − low reaches `minIntradayProfit` and the amount (the
   * least of what the balance affords with the fee and 10% of today's volume)
   * is positive.
   */
  function CandidateAt(cat: seq<Stock>, day: int, balance: real, minIntradayProfit: real, i: nat): (r: Option<Candidate>)
    requires i < |cat|
    ensures r.Some? ==>
      && r.value.stock == i && r.value.name == cat[i].name
      && BarOn(cat[i].rows, day) == Some(r.value.bar)
      && r.value.gain == r.value.bar.close - r.value.bar.low >= minIntradayProfit
      && 0 < r.value.amount <= VolumeCap(r.value.bar.volume)
    ensures BarOn(cat[i].rows, day).None? ==> r.None?
    ensures BarOn(cat[i].rows, day).Some? && BarOn(cat[i].rows, day).value.close - BarOn(cat[i].rows, day).value.low < minIntradayProfit ==> r.None?
  {
    match BarOn(cat[i].rows, day)
    case None => None
    case Some(bar) =>
      var gain := bar.close - bar.low;
      if gain >= minIntradayProfit then
        var amount := CapBy(Affordable(balance, bar.low), VolumeCap(bar.volume));
        if amount > 0 then Some(Candidate(i, cat[i].name, bar, gain, amount)) else None
      else None
  }

  /**
   * At a positive low, a candidate's amount is the largest that both stays
   * within 10% of today's volume and is affordable with the fee; a stock with a
   * bar today and a large enough gain is left out only when that largest amount
   * is zero.
   */
  lemma CandidateAmount(cat: seq<Stock>, day: int, balance: real, minIntradayProfit: real, i: nat)
    requires i < |cat|
    requires BarOn(cat[i].rows, day).Some? && BarOn(cat[i].rows, day).value.low > 0.0
    ensures var bar := BarOn(cat[i].rows, day).value;
      var r := CandidateAt(cat, day, balance, minIntradayProfit, i);
      && (r.Some? ==>
            && BuyCost(r.value.amount, bar.low) <= balance
            && (r.value.amount < VolumeCap(bar.volume) ==> balance < BuyCost(r.value.amount + 1, bar.low)))
      && (r.None? && bar.close - bar.low >= minIntradayProfit ==>
            VolumeCap(bar.volume) <= 0 || balance < BuyCost(1, bar.low))
  {
    var bar := BarOn(cat[i].rows, day).value;
    AffordableIsLargest(balance, bar.low);
    var n := Affordable(balance, bar.low).value;
    var r := CandidateAt(cat, day, balance, minIntradayProfit, i);
    if r.Some? {
      BuyCostMono(r.value.amount, n, bar.low);
    } else if bar.close - bar.low >= minIntradayProfit && VolumeCap(bar.volume) > 0 {
      assert n <= 0;
      BuyCostMono(n + 1, 1, bar.low);
    }
  }

  /** The candidates among the first n catalog stocks, in table order (main.py:78-90). */
  function Candidates(cat: seq<Stock>, day: int, balance: real, minIntradayProfit: real, n: nat): (r: seq<Candidate>)
    requires n <= |cat|
    ensures forall k :: 0 <= k < |r| ==> r[k].stock < n && CandidateAt(cat, day, balance, minIntradayProfit, r[k].stock) == Some(r[k])
    ensures forall i :: 0 <= i < n && CandidateAt(cat, day, balance, minIntradayProfit, i).Some? ==>
              CandidateAt(cat, day, balance, minIntradayProfit, i).value in r
    ensures forall a, b :: 0 <= a < b < |r| ==> r[a].stock < r[b].stock
  {
    if n == 0 then []
    else
      var r := Candidates(cat, day, balance, minIntradayProfit, n - 1);
      match CandidateAt(cat, day, balance, minIntradayProfit, n - 1)
      case None => r
      case Some(c) => r + [c]
  }

  /** main.py:94: the ranking key of each candidate, close − low times the amount. */
  function RankKeys(cands: seq<Candidate>): (keys: seq<real>)
    ensures |keys| == |cands| && forall k :: 0 <= k < |cands| ==> keys[k] == cands[k].gain * cands[k].amount as real
  {
    seq(|cands|, k requires 0 <= k < |cands| => cands[k].gain * cands[k].amount as real)
  }

  /** Candidates that trade in catalog stocks on `day` with positive amounts at non-negative prices. */
  predicate TradableOn(cat: seq<Stock>, day: int, cands: seq<Candidate>)
  {
    forall k :: 0 <= k < |cands| ==>
      && cands[k].stock < |cat| && cands[k].name == cat[cands[k].stock].name
      && BarOn(cat[cands[k].stock].rows, day) == Some(cands[k].bar)
      && cands[k].amount > 0 && cands[k].bar.low >= 0.0 && cands[k].bar.close >= 0.0
  }

  predicate Indexes<T>(xs: seq<T>, picks: seq<nat>)
  {
    forall k :: 0 <= k < |picks| ==> picks[k] < |xs|
  }

  /** The log entries of the candidates at `picks`, in that order. */
  function Entries(cands: seq<Candidate>, picks: seq<nat>, day: int, action: Action): (r: seq<Transaction>)
    requires Indexes(cands, picks)
    ensures |r| == |picks|
    ensures forall k :: 0 <= k < |picks| ==>
              r[k] == Transaction(day, action, cands[picks[k]].name, cands[picks[k]].amount)
  {
    seq(|picks|, k requires 0 <= k < |picks| => Transaction(day, action, cands[picks[k]].name, cands[picks[k]].amount))
  }

  lemma EntriesAppend(cands: seq<Candidate>, picks: seq<nat>, i: nat, day: int, action: Action)
    requires Indexes(cands, picks) && i < |cands|
    ensures Entries(cands, picks + [i], day, action) ==
            Entries(cands, picks, day, action) + [Transaction(day, action, cands[i].name, cands[i].amount)]
  {
  }

  /**
   * The buying loop of main.py:95-106: try the candidates at `order`, buying
   * each whose cost leaves a non-negative balance; also the positions bought,
   * in buying order. Holdings are not touched.
   */
  function BuyPass(cands: seq<Candidate>, order: seq<nat>, p: Portfolio, day: int): (r: (Portfolio, seq<nat>))
    requires Indexes(cands, order)
    ensures r.0.owned == p.owned
    ensures forall k :: 0 <= k < |r.1| ==> r.1[k] in order
  {
    if order == [] then (p, [])
    else
      var prev := BuyPass(cands, order[..|order| - 1], p, day);
      var i := order[|order| - 1];
      var cost := BuyCost(cands[i].amount, cands[i].bar.low);
      if prev.0.balance - cost >= 0.0 then
        (Portfolio(prev.0.balance - cost, prev.0.owned, prev.0.log + [Transaction(day, BuyLow, cands[i].name, cands[i].amount)]),
         prev.1 + [i])
      else prev
  }

  /** The selling loop of main.py:108-117: sell every bought candidate at today's close, in buying order. */
  function SellPass(cands: seq<Candidate>, bought: seq<nat>, p: Portfolio, day: int): (r: Portfolio)
    requires Indexes(cands, bought)
    ensures r.owned == p.owned
  {
    if bought == [] then p
    else
      var q := SellPass(cands, bought[..|bought| - 1], p, day);
      var i := bought[|bought| - 1];
      Portfolio(q.balance + SellProceeds(cands[i].amount, cands[i].bar.close), q.owned,
                q.log + [Transaction(day, SellClose, cands[i].name, cands[i].amount)])
  }

  /**
   * `buy_low_sell_close` (main.py:68-117): nothing happens after a swing
   * transaction or unless the balance exceeds 100; otherwise the candidates are
   * bought in decreasing order of close − low times amount while the balance
   * stays non-negative, and all bought are sold at the close.
   */
  function IntradayDay(cat: seq<Stock>, p: Portfolio, day: int, made: bool, minIntradayProfit: real): (r: Portfolio)
    ensures r.owned == p.owned
  {
    if made || !(p.balance > 100.0) then p
    else
      var cands := Candidates(cat, day, p.balance, minIntradayProfit, |cat|);
      if cands == [] then p
      else
        var order := Rank(RankKeys(cands));
        RankIsSortedPermutation(RankKeys(cands));
        var bp := BuyPass(cands, order, p, day);
        SellPass(cands, bp.1, bp.0, day)
  }

  // ----------------------------------------------------------- intraday lemmas

  /** The candidates of a priced catalog trade in their own stock on `day`, at non-negative prices. */
  lemma CandidatesTradable(cat: seq<Stock>, day: int, balance: real, minIntradayProfit: real)
    requires Priced(cat)
    ensures TradableOn(cat, day, Candidates(cat, day, balance, minIntradayProfit, |cat|))
  {
    var cands := Candidates(cat, day, balance, minIntradayProfit, |cat|);
    forall k | 0 <= k < |cands|
      ensures cands[k].bar.low >= 0.0 && cands[k].bar.close >= 0.0
    {
      PricedBarOn(cat, cands[k].stock, day);
    }
  }

  /** The buy pass over a non-empty order: the pass over all but the last, then the last. */
  lemma BuyPassLast(cands: seq<Candidate>, order: seq<nat>, p: Portfolio, day: int)
    requires Indexes(cands, order) && order != []
    ensures Indexes(cands, order[..|order| - 1])
    ensures var prev := BuyPass(cands, order[..|order| - 1], p, day);
      var i := order[|order| - 1];
      var cost := BuyCost(cands[i].amount, cands[i].bar.low);
      BuyPass(cands, order, p, day) ==
        if prev.0.balance - cost >= 0.0 then
          (Portfolio(prev.0.balance - cost, prev.0.owned, prev.0.log + [Transaction(day, BuyLow, cands[i].name, cands[i].amount)]),
           prev.1 + [i])
        else prev
  {
  }

  /** The buy pass appends one 'buy-low' entry per position bought, in buying order. */
  lemma {:induction false} BuyPassLog(cands: seq<Candidate>, order: seq<nat>, p: Portfolio, day: int)
    requires Indexes(cands, order)
    ensures var r := BuyPass(cands, order, p, day);
      Indexes(cands, r.1) && r.0.log == p.log + Entries(cands, r.1, day, BuyLow)
  {
    if order != [] {
      var pre, i := order[..|order| - 1], order[|order| - 1];
      BuyPassLast(cands, order, p, day);
      BuyPassLog(cands, pre, p, day);
      var prev := BuyPass(cands, pre, p, day);
      if prev.0.balance - BuyCost(cands[i].amount, cands[i].bar.low) >= 0.0 {
        EntriesAppend(cands, prev.1, i, day, BuyLow);
      }
    }
  }

  /** The buy pass conserves cash: each cost paid is the flow of its 'buy-low' entry. */
  lemma {:induction false} BuyPassCash(cat: seq<Stock>, cands: seq<Candidate>, order: seq<nat>, p: Portfolio, day: int)
    requires ValidCatalog(cat) && TradableOn(cat, day, cands) && Indexes(cands, order)
    ensures Cash(cat, BuyPass(cands, order, p, day).0) == Cash(cat, p)
  {
    if order != [] {
      var pre, i := order[..|order| - 1], order[|order| - 1];
      BuyPassLast(cands, order, p, day);
      BuyPassCash(cat, cands, pre, p, day);
      var prev := BuyPass(cands, pre, p, day).0;
      var c := cands[i];
      if prev.balance - BuyCost(c.amount, c.bar.low) >= 0.0 {
        FlowOf(cat, c.stock, day, c.bar, BuyLow, c.amount);
        CashStep(cat, prev, BuyPass(cands, order, p, day).0, Transaction(day, BuyLow, c.name, c.amount));
      }
    }
  }

  /**
   * The buy pass never takes a non-negative balance below zero, only spends,
   * and leaves out a candidate only when it costs more than the balance that
   * is finally left: no candidate it skipped would still have fit.
   */
  lemma {:induction false} BuyPassBalance(cat: seq<Stock>, cands: seq<Candidate>, order: seq<nat>, p: Portfolio, day: int)
    requires TradableOn(cat, day, cands) && Indexes(cands, order)
    ensures var r := BuyPass(cands, order, p, day);
      && (p.balance >= 0.0 ==> r.0.balance >= 0.0)
      && r.0.balance <= p.balance
      && (forall k :: 0 <= k < |order| && order[k] !in r.1 ==>
            r.0.balance - BuyCost(cands[order[k]].amount, cands[order[k]].bar.low) < 0.0)
  {
    if order != [] {
      var pre := order[..|order| - 1];
      BuyPassLast(cands, order, p, day);
      BuyPassBalance(cat, cands, pre, p, day);
      var prev := BuyPass(cands, pre, p, day);
      var i := order[|order| - 1];
      var r := BuyPass(cands, order, p, day);
      TradeNonNegative(cands[i].amount, cands[i].bar.low);
      forall k | 0 <= k < |order| && order[k] !in r.1
        ensures r.0.balance - BuyCost(cands[order[k]].amount, cands[order[k]].bar.low) < 0.0
      {
        if k < |pre| {
          assert pre[k] == order[k];
          assert order[k] !in prev.1;
        }
      }
    }
  }

  /** The sell pass appends one 'sell-close' entry per position bought, in buying order. */
  lemma {:induction false} SellPassLog(cands: seq<Candidate>, bought: seq<nat>, p: Portfolio, day: int)
    requires Indexes(cands, bought)
    ensures SellPass(cands, bought, p, day).log == p.log + Entries(cands, bought, day, SellClose)
  {
    if bought != [] {
      var pre, i := bought[..|bought| - 1], bought[|bought| - 1];
      SellPassLog(cands, pre, p, day);
      assert bought == pre + [i];
      EntriesAppend(cands, pre, i, day, SellClose);
    }
  }

  /** The sell pass only adds cash, and conserves it. */
  lemma {:induction false} SellPassCash(cat: seq<Stock>, cands: seq<Candidate>, bought: seq<nat>, p: Portfolio, day: int)
    requires ValidCatalog(cat) && TradableOn(cat, day, cands) && Indexes(cands, bought)
    ensures var r := SellPass(cands, bought, p, day);
      r.balance >= p.balance && Cash(cat, r) == Cash(cat, p)
  {
    if bought != [] {
      var pre, i := bought[..|bought| - 1], bought[|bought| - 1];
      SellPassCash(cat, cands, pre, p, day);
      var q := SellPass(cands, pre, p, day);
      var c := cands[i];
      TradeNonNegative(c.amount, c.bar.close);
      FlowOf(cat, c.stock, day, c.bar, SellClose, c.amount);
      CashStep(cat, q, SellPass(cands, bought, p, day), Transaction(day, SellClose, c.name, c.amount));
    }
  }

  /** A 'buy-low' run followed by the matching 'sell-close' run, entry for entry. */
  predicate RoundTrips(log: seq<Transaction>, n: nat)
  {
    && n <= |log| && (|log| - n) % 2 == 0
    && var h := (|log| - n) / 2;
       forall j :: n <= j < n + h ==> log[j].action == BuyLow && log[j + h] == log[j].(action := SellClose)
  }

  lemma EntriesRoundTrip(cands: seq<Candidate>, bought: seq<nat>, day: int, log: seq<Transaction>)
    requires Indexes(cands, bought)
    ensures var all := log + Entries(cands, bought, day, BuyLow) + Entries(cands, bought, day, SellClose);
      all[..|log|] == log && RoundTrips(all, |log|)
  {
    var all := log + Entries(cands, bought, day, BuyLow) + Entries(cands, bought, day, SellClose);
    assert all[..|log|] == log;
  }

  /** The bought positions and the account after the buy pass of an intraday day that trades. */
  function IntradayBuys(cat: seq<Stock>, p: Portfolio, day: int, minIntradayProfit: real): (Portfolio, seq<nat>)
  {
    var cands := Candidates(cat, day, p.balance, minIntradayProfit, |cat|);
    RankIsSortedPermutation(RankKeys(cands));
    BuyPass(cands, Rank(RankKeys(cands)), p, day)
  }

  /**
   * The log side of `buy_low_sell_close` (main.py:68-117): nothing happens
   * after a swing transaction or unless the balance exceeds 100; holdings are
   * never touched; what is appended is a run of 'buy-low' entries followed by
   * the matching 'sell-close' entries in the same order.
   */
  lemma IntradayLog(cat: seq<Stock>, p: Portfolio, day: int, made: bool, minIntradayProfit: real)
    requires ValidCatalog(cat)
    ensures var r := IntradayDay(cat, p, day, made, minIntradayProfit);
      && (made || p.balance <= 100.0 ==> r == p)
      && r.owned == p.owned
      && |p.log| <= |r.log| && r.log[..|p.log|] == p.log && RoundTrips(r.log, |p.log|)
  {
    var r := IntradayDay(cat, p, day, made, minIntradayProfit);
    var cands := Candidates(cat, day, p.balance, minIntradayProfit, |cat|);
    if !made && p.balance > 100.0 && cands != [] {
      var bp := IntradayBuys(cat, p, day, minIntradayProfit);
      RankIsSortedPermutation(RankKeys(cands));
      BuyPassLog(cands, Rank(RankKeys(cands)), p, day);
      SellPassLog(cands, bp.1, bp.0, day);
      EntriesRoundTrip(cands, bp.1, day, p.log);
    } else {
      assert r.log[..|p.log|] == p.log;
    }
  }

  /**
   * The cash side of `buy_low_sell_close`: a non-negative balance stays
   * non-negative, and cash is conserved.
   */
  lemma IntradayCash(cat: seq<Stock>, p: Portfolio, day: int, made: bool, minIntradayProfit: real)
    requires ValidCatalog(cat) && Priced(cat)
    ensures var r := IntradayDay(cat, p, day, made, minIntradayProfit);
      && (p.balance >= 0.0 ==> r.balance >= 0.0)
      && Cash(cat, r) == Cash(cat, p)
  {
    var cands := Candidates(cat, day, p.balance, minIntradayProfit, |cat|);
    if !made && p.balance > 100.0 && cands != [] {
      var bp := IntradayBuys(cat, p, day, minIntradayProfit);
      CandidatesTradable(cat, day, p.balance, minIntradayProfit);
      RankIsSortedPermutation(RankKeys(cands));
      BuyPassLog(cands, Rank(RankKeys(cands)), p, day);
      BuyPassCash(cat, cands, Rank(RankKeys(cands)), p, day);
      BuyPassBalance(cat, cands, Rank(RankKeys(cands)), p, day);
      SellPassCash(cat, cands, bp.1, bp.0, day);
    }
  }

  // ------------------------------------------------------ swing-day holdings

  /**
   * main.py:53-65 per stock: after the swing rule no stock whose all-time high
   * is today is held, and one held after the purchase got a 'sell-high' entry
   * for the whole amount.
   */
  lemma SwingDaySold(cat: seq<Stock>, p: Portfolio, day: int, minBalanceFraction: real, i: nat)
    requires ValidCatalog(cat) && DistinctKeys(p.owned)
    requires i < |cat| && cat[i].ext.maxDate == day
    ensures var p1 := SwingBought(cat, p, day, minBalanceFraction);
      var r := SwingDay(cat, p, day, minBalanceFraction).0;
      var name := cat[i].name;
      && Get(r.owned, name) == None
      && (Has(p1.owned, name) ==>
            |p1.log| <= |r.log| && Transaction(day, SellHigh, name, Get(p1.owned, name).value) in r.log[|p1.log|..])
  {
    var p1 := SwingBought(cat, p, day, minBalanceFraction);
    var sells := HighDayStocks(cat, day);
    var a :| 0 <= a < |sells| && sells[a] == i;
    SellHighsGone(cat, p1, day, sells, a);
    if Has(p1.owned, cat[i].name) {
      SellHighsEntry(cat, p1, day, sells, a);
    }
  }

  /** A stock none of whose namesakes peaks today keeps its holding from after the purchase. */
  lemma SwingDayUntouched(cat: seq<Stock>, p: Portfolio, day: int, minBalanceFraction: real, name: string)
    requires ValidCatalog(cat) && DistinctKeys(p.owned)
    requires forall i :: 0 <= i < |cat| && cat[i].ext.maxDate == day ==> cat[i].name != name
    ensures Get(SwingDay(cat, p, day, minBalanceFraction).0.owned, name) ==
            Get(SwingBought(cat, p, day, minBalanceFraction).owned, name)
  {
    SellHighsUntouched(cat, SwingBought(cat, p, day, minBalanceFraction), day, HighDayStocks(cat, day), name);
  }

  /** The swing sells keep holdings valid and, at non-negative prices, only add cash. */
  lemma {:induction false} SellHighsKeeps(cat: seq<Stock>, p: Portfolio, day: int, sells: seq<nat>)
    requires ValidCatalog(cat) && ValidHoldings(cat, p.owned) && HighOn(cat, day, sells)
    ensures var r := SellHighs(cat, p, day, sells).0;
      ValidHoldings(cat, r.owned) && (Priced(cat) ==> r.balance >= p.balance)
  {
    if sells != [] {
      var pre, i := sells[..|sells| - 1], sells[|sells| - 1];
      assert HighOn(cat, day, pre);
      SellHighsKeeps(cat, p, day, pre);
      var q := SellHighs(cat, p, day, pre).0;
      SellHighOneEffect(cat, q, day, i);
      var name := cat[i].name;
      if Has(q.owned, name) {
        var k := Find(q.owned, name).value;
        var r := Remove(q.owned, name);
        RemoveFacts(q.owned, name);
        forall j | 0 <= j < |r| ensures r[j].value > 0 && IndexOf(cat, r[j].key).Some? {
          assert r[j] in q.owned;
        }
        if Priced(cat) {
          PricedBarOn(cat, i, day);
          TradeNonNegative(q.owned[k].value, BarOn(cat[i].rows, day).value.high);
        }
      }
    }
  }

  lemma MulNonNegative(a: real, b: real)
    requires a >= 0.0 && b >= 0.0
    ensures a * b >= 0.0
  {
  }

  /** Holding a positive amount of a catalog stock keeps holdings valid. */
  lemma PutKeeps(cat: seq<Stock>, owned: Dict<int>, i: nat, amount: int)
    requires ValidCatalog(cat) && ValidHoldings(cat, owned) && i < |cat| && amount > 0
    ensures ValidHoldings(cat, Put(owned, cat[i].name, amount))
  {
    IndexOfAt(cat, i);
    var r := Put(owned, cat[i].name, amount);
    PutFacts(owned, cat[i].name, amount);
    forall j | 0 <= j < |r| ensures r[j].value > 0 && IndexOf(cat, r[j].key).Some? {
      if r[j] != Entry(cat[i].name, amount) {
        assert r[j] in owned;
      }
    }
  }

  /** The swing purchase keeps holdings valid: it holds a positive amount of a catalog stock. */
  lemma SwingBoughtHoldings(cat: seq<Stock>, p: Portfolio, day: int, minBalanceFraction: real)
    requires ValidCatalog(cat) && ValidHoldings(cat, p.owned)
    ensures ValidHoldings(cat, SwingBought(cat, p, day, minBalanceFraction).owned)
  {
    match SwingBuy(cat, day, p.balance, minBalanceFraction)
    case None =>
    case Some(o) =>
      SwingBuyBounds(cat, day, p.balance, minBalanceFraction);
      SwingBuyRule(cat, day, p.balance, minBalanceFraction);
      PutKeeps(cat, p.owned, o.stock, o.amount);
  }

  /** With a non-negative reserve fraction, the swing purchase leaves a non-negative balance non-negative. */
  lemma SwingBoughtBalance(cat: seq<Stock>, p: Portfolio, day: int, minBalanceFraction: real)
    requires ValidCatalog(cat) && DistinctKeys(p.owned)
    requires p.balance >= 0.0 && minBalanceFraction >= 0.0
    ensures SwingBought(cat, p, day, minBalanceFraction).balance >= 0.0
  {
    var buy := SwingBuy(cat, day, p.balance, minBalanceFraction);
    if buy.Some? {
      SwingBuyReserve(cat, day, p.balance, minBalanceFraction);
    }
    AfterBuyBalance(cat, p, day, buy, minBalanceFraction);
  }

  lemma SwingBuyReserve(cat: seq<Stock>, day: int, balance: real, minBalanceFraction: real)
    requires ValidCatalog(cat) && SwingBuy(cat, day, balance, minBalanceFraction).Some?
    ensures KeepsReserve(balance, SwingBuy(cat, day, balance, minBalanceFraction).value, minBalanceFraction)
  {
  }

  /** A purchase that keeps more than a non-negative fraction of a non-negative balance leaves it non-negative. */
  lemma AfterBuyBalance(cat: seq<Stock>, p: Portfolio, day: int, buy: Option<Order>, fraction: real)
    requires (buy.Some? ==> buy.value.stock < |cat|) && DistinctKeys(p.owned) && p.balance >= 0.0 && fraction >= 0.0
    requires buy.Some? ==> KeepsReserve(p.balance, buy.value, fraction)
    ensures AfterBuy(cat, p, day, buy).balance >= 0.0
  {
    MulNonNegative(p.balance, fraction);
  }

  // --------------------------------------------------------------- valuation

  /** main.py:125-126 for one holding: amount times today's close, nothing without a bar today. */
  function HoldingValue(cat: seq<Stock>, e: Entry<int>, day: int): real
  {
    match IndexOf(cat, e.key)
    case None => 0.0
    case Some(i) =>
      match BarOn(cat[i].rows, day)
      case None => 0.0
      case Some(bar) => e.value as real * bar.close
  }

  /** main.py:123-126: the value of the holdings at today's closes. */
  function PortfolioValue(cat: seq<Stock>, owned: Dict<int>, day: int): real
  {
    if owned == [] then 0.0
    else PortfolioValue(cat, owned[..|owned| - 1], day) + HoldingValue(cat, owned[|owned| - 1], day)
  }

  /**
   * The portfolio value of valid holdings is non-negative, and it is zero when
   * no held stock has a bar today.
   */
  lemma {:induction false} PortfolioValueBounds(cat: seq<Stock>, owned: Dict<int>, day: int)
    requires Priced(cat) && forall k :: 0 <= k < |owned| ==> owned[k].value > 0
    ensures PortfolioValue(cat, owned, day) >= 0.0
    ensures (forall k :: 0 <= k < |owned| ==> !HasBar(cat, owned[k].key, day)) ==> PortfolioValue(cat, owned, day) == 0.0
  {
    if owned != [] {
      var pre, e := owned[..|owned| - 1], owned[|owned| - 1];
      PortfolioValueBounds(cat, pre, day);
      match IndexOf(cat, e.key)
      case None =>
      case Some(i) =>
        match BarOn(cat[i].rows, day)
        case None =>
        case Some(bar) =>
          PricedBarOn(cat, i, day);
          assert e.value as real * bar.close >= 0.0;
    }
  }

  lemma PortfolioValueStep(cat: seq<Stock>, owned: Dict<int>, k: nat, day: int)
    requires k < |owned|
    ensures PortfolioValue(cat, owned[..k + 1], day) == PortfolioValue(cat, owned[..k], day) + HoldingValue(cat, owned[k], day)
  {
    assert owned[..k + 1][..k] == owned[..k];
  }

  /** `day in self.stocks[name].index`. */
  predicate HasBar(cat: seq<Stock>, name: string, day: int)
  {
    IndexOf(cat, name).Some? && BarOn(cat[IndexOf(cat, name).value].rows, day).Some?
  }

  // ----------------------------------------------------------------- the run

  /** One day of `make_money` (main.py:136-138): the swing rule, then the intraday rule. */
  function TradeDay(cat: seq<Stock>, p: Portfolio, day: int, minIntradayProfit: real, minBalanceFraction: real): (r: Portfolio)
    requires ValidCatalog(cat) && DistinctKeys(p.owned)
    ensures DistinctKeys(r.owned)
  {
    var s := SwingDay(cat, p, day, minBalanceFraction);
    IntradayDay(cat, s.0, day, s.1, minIntradayProfit)
  }

  /** The account after trading each of `days` in turn (main.py:134-141). */
  function Run(cat: seq<Stock>, p: Portfolio, days: seq<int>, minIntradayProfit: real, minBalanceFraction: real): (r: Portfolio)
    requires ValidCatalog(cat) && DistinctKeys(p.owned)
    ensures DistinctKeys(r.owned)
  {
    if days == [] then p
    else TradeDay(cat, Run(cat, p, days[..|days| - 1], minIntradayProfit, minBalanceFraction), days[|days| - 1], minIntradayProfit, minBalanceFraction)
  }

  /** The run over the first k + 1 days is the run over the first k followed by day k. */
  lemma RunStep(cat: seq<Stock>, p: Portfolio, days: seq<int>, k: nat, minIntradayProfit: real, minBalanceFraction: real)
    requires ValidCatalog(cat) && DistinctKeys(p.owned) && k < |days|
    ensures Run(cat, p, days[..k + 1], minIntradayProfit, minBalanceFraction)
         == TradeDay(cat, Run(cat, p, days[..k], minIntradayProfit, minBalanceFraction), days[k], minIntradayProfit, minBalanceFraction)
  {
    assert days[..k + 1][..k] == days[..k];
  }

  /** One trading day keeps holdings valid: only the swing rule changes them. */
  lemma TradeDayHoldings(cat: seq<Stock>, p: Portfolio, day: int, minIntradayProfit: real, minBalanceFraction: real)
    requires ValidCatalog(cat) && ValidHoldings(cat, p.owned)
    ensures ValidHoldings(cat, TradeDay(cat, p, day, minIntradayProfit, minBalanceFraction).owned)
  {
    SwingBoughtHoldings(cat, p, day, minBalanceFraction);
    SellHighsKeeps(cat, SwingBought(cat, p, day, minBalanceFraction), day, HighDayStocks(cat, day));
  }

  /**
   * One trading day conserves cash, only appends to the log, keeps a
   * non-negative balance non-negative when the reserve fraction is
   * non-negative, and trades intraday only when the swing rule made no
   * transaction and left more than 100.
   */
  lemma TradeDayKeeps(cat: seq<Stock>, p: Portfolio, day: int, minIntradayProfit: real, minBalanceFraction: real)
    requires ValidCatalog(cat) && Priced(cat) && ValidHoldings(cat, p.owned)
    ensures var s := SwingDay(cat, p, day, minBalanceFraction);
      var r := TradeDay(cat, p, day, minIntradayProfit, minBalanceFraction);
      && Cash(cat, r) == Cash(cat, p)
      && |p.log| <= |r.log| && r.log[..|p.log|] == p.log
      && (p.balance >= 0.0 && minBalanceFraction >= 0.0 ==> r.balance >= 0.0)
      && (s.1 || s.0.balance <= 100.0 ==> r == s.0)
  {
    var p1 := SwingBought(cat, p, day, minBalanceFraction);
    var s := SwingDay(cat, p, day, minBalanceFraction);
    SwingBoughtHoldings(cat, p, day, minBalanceFraction);
    if p.balance >= 0.0 && minBalanceFraction >= 0.0 {
      SwingBoughtBalance(cat, p, day, minBalanceFraction);
    }
    SellHighsKeeps(cat, p1, day, HighDayStocks(cat, day));
    SwingDayEffect(cat, p, day, minBalanceFraction);
    SwingDayCash(cat, p, day, minBalanceFraction);
    IntradayLog(cat, s.0, day, s.1, minIntradayProfit);
    IntradayCash(cat, s.0, day, s.1, minIntradayProfit);
    var r := TradeDay(cat, p, day, minIntradayProfit, minBalanceFraction);
    assert r.log[..|p.log|] == s.0.log[..|p.log|];
  }

  /** What one day keeps, the whole run keeps: valid holdings, cash, the log as a prefix, a non-negative balance. */
  lemma {:induction false} RunKeeps(cat: seq<Stock>, p: Portfolio, days: seq<int>, minIntradayProfit: real, minBalanceFraction: real)
    requires ValidCatalog(cat) && Priced(cat) && ValidHoldings(cat, p.owned)
    ensures var r := Run(cat, p, days, minIntradayProfit, minBalanceFraction);
      && ValidHoldings(cat, r.owned)
      && Cash(cat, r) == Cash(cat, p)
      && |p.log| <= |r.log| && r.log[..|p.log|] == p.log
      && (p.balance >= 0.0 && minBalanceFraction >= 0.0 ==> r.balance >= 0.0)
  {
    if days != [] {
      var pre := days[..|days| - 1];
      RunKeeps(cat, p, pre, minIntradayProfit, minBalanceFraction);
      var q := Run(cat, p, pre, minIntradayProfit, minBalanceFraction);
      TradeDayHoldings(cat, q, days[|days| - 1], minIntradayProfit, minBalanceFraction);
      TradeDayKeeps(cat, q, days[|days| - 1], minIntradayProfit, minBalanceFraction);
      var r := Run(cat, p, days, minIntradayProfit, minBalanceFraction);
      assert r.log[..|p.log|] == q.log[..|p.log|];
    }
  }

  /** A run keeps holdings valid whatever the prices. */
  lemma {:induction false} RunHoldings(cat: seq<Stock>, p: Portfolio, days: seq<int>, minIntradayProfit: real, minBalanceFraction: real)
    requires ValidCatalog(cat) && ValidHoldings(cat, p.owned)
    ensures ValidHoldings(cat, Run(cat, p, days, minIntradayProfit, minBalanceFraction).owned)
  {
    if days != [] {
      RunHoldings(cat, p, days[..|days| - 1], minIntradayProfit, minBalanceFraction);
      TradeDayHoldings(cat, Run(cat, p, days[..|days| - 1], minIntradayProfit, minBalanceFraction), days[|days| - 1], minIntradayProfit, minBalanceFraction);
    }
  }

  // ----------------------------------------------------------------- history

  /** main.py:17: a history column holding 0 on every day of the range. */
  function ZeroHistory(days: seq<int>): (h: map<int, real>)
    ensures forall d :: d in h <==> d in days
    ensures forall d :: d in h ==> h[d] == 0.0
  {
    map d | d in days :: 0.0
  }

  /** The balance at the end of each of `days`. */
  function EndBalances(cat: seq<Stock>, p: Portfolio, days: seq<int>, minIntradayProfit: real, minBalanceFraction: real): (r: seq<real>)
    requires ValidCatalog(cat) && DistinctKeys(p.owned)
    ensures |r| == |days|
  {
    if days == [] then []
    else EndBalances(cat, p, days[..|days| - 1], minIntradayProfit, minBalanceFraction)
         + [Run(cat, p, days, minIntradayProfit, minBalanceFraction).balance]
  }

  /** The value of the holdings at each of `days`' closes, at the end of that day. */
  function EndValues(cat: seq<Stock>, p: Portfolio, days: seq<int>, minIntradayProfit: real, minBalanceFraction: real): (r: seq<real>)
    requires ValidCatalog(cat) && DistinctKeys(p.owned)
    ensures |r| == |days|
  {
    if days == [] then []
    else EndValues(cat, p, days[..|days| - 1], minIntradayProfit, minBalanceFraction)
         + [PortfolioValue(cat, Run(cat, p, days, minIntradayProfit, minBalanceFraction).owned, days[|days| - 1])]
  }

  /** Entry k of the end-of-day balances is the balance after trading the first k + 1 days. */
  lemma {:induction false} EndBalanceAt(cat: seq<Stock>, p: Portfolio, days: seq<int>, k: nat, minIntradayProfit: real, minBalanceFraction: real)
    requires ValidCatalog(cat) && DistinctKeys(p.owned) && k < |days|
    ensures EndBalances(cat, p, days, minIntradayProfit, minBalanceFraction)[k]
         == Run(cat, p, days[..k + 1], minIntradayProfit, minBalanceFraction).balance
  {
    var pre := days[..|days| - 1];
    if k < |days| - 1 {
      EndBalanceAt(cat, p, pre, k, minIntradayProfit, minBalanceFraction);
      assert days[..k + 1] == pre[..k + 1];
    } else {
      assert days[..k + 1] == days;
    }
  }

  /**
   * Entry k of the end-of-day values is the value of the holdings at day k's
   * closes after trading the first k + 1 days.
   */
  lemma {:induction false} EndValueAt(cat: seq<Stock>, p: Portfolio, days: seq<int>, k: nat, minIntradayProfit: real, minBalanceFraction: real)
    requires ValidCatalog(cat) && DistinctKeys(p.owned) && k < |days|
    ensures EndValues(cat, p, days, minIntradayProfit, minBalanceFraction)[k]
         == PortfolioValue(cat, Run(cat, p, days[..k + 1], minIntradayProfit, minBalanceFraction).owned, days[k])
  {
    var pre := days[..|days| - 1];
    if k < |days| - 1 {
      EndValueAt(cat, p, pre, k, minIntradayProfit, minBalanceFraction);
      assert days[..k + 1] == pre[..k + 1] && days[k] == pre[k];
    } else {
      assert days[..k + 1] == days;
    }
  }

  /** The end-of-day figures of the first k + 1 days are those of the first k, then day k's. */
  lemma EndOfDayStep(cat: seq<Stock>, p: Portfolio, days: seq<int>, k: nat, minIntradayProfit: real, minBalanceFraction: real)
    requires ValidCatalog(cat) && DistinctKeys(p.owned) && k < |days|
    ensures var r := Run(cat, p, days[..k + 1], minIntradayProfit, minBalanceFraction);
      && EndBalances(cat, p, days[..k + 1], minIntradayProfit, minBalanceFraction)
         == EndBalances(cat, p, days[..k], minIntradayProfit, minBalanceFraction) + [r.balance]
      && EndValues(cat, p, days[..k + 1], minIntradayProfit, minBalanceFraction)
         == EndValues(cat, p, days[..k], minIntradayProfit, minBalanceFraction) + [PortfolioValue(cat, r.owned, days[k])]
  {
    assert days[..k + 1][..k] == days[..k];
  }

  /** A history column after writing `vals[k]` at `days[k]` for each k in turn (`history.loc[day, col] = v`). */
  function Record(h: map<int, real>, days: seq<int>, vals: seq<real>): (r: map<int, real>)
    requires |vals| == |days|
    ensures forall d :: d in r <==> d in h || d in days
  {
    if days == [] then h
    else Record(h, days[..|days| - 1], vals[..|days| - 1])[days[|days| - 1] := vals[|days| - 1]]
  }

  /** Recording the first k + 1 days is recording the first k, then day k. */
  lemma RecordStep(h: map<int, real>, days: seq<int>, vals: seq<real>, k: nat, v: real)
    requires |vals| == k < |days|
    ensures Record(h, days[..k + 1], vals + [v]) == Record(h, days[..k], vals)[days[k] := v]
  {
    assert days[..k + 1][..k] == days[..k];
    assert (vals + [v])[..k] == vals;
  }

  /** Distinct days, as the calendar range of the loader gives. */
  predicate DistinctDays(days: seq<int>)
  {
    forall a, b :: 0 <= a < b < |days| ==> days[a] != days[b]
  }

  /**
   * Over distinct days, a recorded column holds at every day the value written
   * for it, and every other day keeps its entry (or its absence).
   */
  lemma {:induction false} RecordAt(h: map<int, real>, days: seq<int>, vals: seq<real>)
    requires |vals| == |days| && DistinctDays(days)
    ensures forall k :: 0 <= k < |days| ==> days[k] in Record(h, days, vals) && Record(h, days, vals)[days[k]] == vals[k]
    ensures forall d :: d !in days ==> (d in Record(h, days, vals) <==> d in h)
    ensures forall d :: d !in days && d in h ==> Record(h, days, vals)[d] == h[d]
  {
    if days != [] {
      var n := |days|;
      var pre, pv := days[..n - 1], vals[..n - 1];
      RecordAt(h, pre, pv);
      forall k | 0 <= k < n - 1
        ensures days[k] == pre[k] && vals[k] == pv[k] && days[k] != days[n - 1]
      {
      }
    }
  }
}
