/**
 * Market data shared by the loader and the trading engine: daily bars, the
 * per-stock extremum record, the catalog of loaded stocks, the 1% fees on
 * both sides of a trade and the quantity caps.
 * Prices and volumes are exact reals; share amounts are whole numbers.
 */
module Market {
  import opened Basics

  /** One day of a stock file: Open, High, Low, Close, Volume. */
  datatype Bar = Bar(open: real, high: real, low: real, close: real, volume: real)

  /** A dated row of a stock file; a stock's series is its rows in file order. */
  datatype Row = Row(date: int, bar: Bar)

  /** Position of the first row dated `day`. */
  function FirstDated(rows: seq<Row>, day: int): (r: Option<nat>)
    ensures r.Some? ==> r.value < |rows| && rows[r.value].date == day
    ensures r.Some? ==> forall j :: 0 <= j < r.value ==> rows[j].date != day
    ensures r.None? <==> forall j :: 0 <= j < |rows| ==> rows[j].date != day
  {
    if rows == [] then None
    else if rows[0].date == day then Some(0)
    else
      match FirstDated(rows[1..], day)
      case None => None
      case Some(i) => Some(i + 1)
  }

  /**
   * `series.loc[[day]].values[0]`: the bar of the first row dated `day`;
   * None when `day in series.index` is false.
   */
  function BarOn(rows: seq<Row>, day: int): (r: Option<Bar>)
    ensures r.Some? <==> exists j :: 0 <= j < |rows| && rows[j].date == day
  {
    match FirstDated(rows, day)
    case None => None
    case Some(i) => Some(rows[i].bar)
  }

  /** The Low column of a series. */
  function Lows(rows: seq<Row>): (xs: seq<real>)
    ensures |xs| == |rows| && forall i :: 0 <= i < |rows| ==> xs[i] == rows[i].bar.low
  {
    seq(|rows|, i requires 0 <= i < |rows| => rows[i].bar.low)
  }

  /** The High column of a series. */
  function Highs(rows: seq<Row>): (xs: seq<real>)
    ensures |xs| == |rows| && forall i :: 0 <= i < |rows| ==> xs[i] == rows[i].bar.high
  {
    seq(|rows|, i requires 0 <= i < |rows| => rows[i].bar.high)
  }

  /** The Date index of a series. */
  function Dates(rows: seq<Row>): (ds: seq<int>)
    ensures |ds| == |rows| && forall i :: 0 <= i < |rows| ==> ds[i] == rows[i].date
  {
    seq(|rows|, i requires 0 <= i < |rows| => rows[i].date)
  }

  /** Cash paid for `amount` shares at `price`: the price plus a 1% fee. */
  function BuyCost(amount: int, price: real): real
  {
    var gross := amount as real * price;
    gross + 0.01 * gross
  }

  /** Cash received for `amount` shares at `price`: the price less a 1% fee. */
  function SellProceeds(amount: int, price: real): real
  {
    var gross := amount as real * price;
    gross - 0.01 * gross
  }

  /**
   * `np.floor(balance / (low + 0.01 * low))`, the number of shares the balance
   * pays for, fee included. None stands for the +inf that floating point gives
   * for a zero low and a positive balance. For a zero low and a balance that is
   * not positive, floating point gives -inf or NaN; both make the trade fail its
   * `amount > 0` test, and 0 stands for them.
   */
  function Affordable(balance: real, low: real): (r: Option<int>)
    ensures r.None? <==> low == 0.0 && balance > 0.0
  {
    if low == 0.0 then (if balance > 0.0 then None else Some(0))
    else Some((balance / (low + 0.01 * low)).Floor)
  }

  /** `np.floor(0.1 * volume)`: the 10%-of-volume liquidity cap. */
  function VolumeCap(volume: real): int
  {
    (0.1 * volume).Floor
  }

  /** `np.min` of an affordability figure (possibly +inf) and a finite cap. */
  function CapBy(affordable: Option<int>, bound: int): (r: int)
    ensures r <= bound
    ensures affordable.Some? ==> r <= affordable.value
    ensures r == bound || (affordable.Some? && r == affordable.value)
  {
    match affordable
    case None => bound
    case Some(n) => if n <= bound then n else bound
  }

  /**
   * At a positive low price, the affordable amount is the largest whole number
   * of shares whose cost, fee included, does not exceed the balance.
   */
  lemma AffordableIsLargest(balance: real, low: real)
    requires low > 0.0
    ensures Affordable(balance, low).Some?
    ensures BuyCost(Affordable(balance, low).value, low) <= balance
    ensures balance < BuyCost(Affordable(balance, low).value + 1, low)
  {
    var unit := low + 0.01 * low;
    var q := balance / unit;
    var n := q.Floor;
    assert unit > 0.0;
    assert Affordable(balance, low) == Some(n);
    assert n as real <= q < n as real + 1.0;
    assert (n + 1) as real == n as real + 1.0;
    assert BuyCost(n, low) == n as real * unit;
    assert BuyCost(n + 1, low) == (n as real + 1.0) * unit;
    assert q * unit == balance;
    MulMono(n as real, q, unit);
    MulMonoStrict(q, n as real + 1.0, unit);
    assert balance < (n as real + 1.0) * unit;
    assert balance < BuyCost(n + 1, low);
  }

  lemma MulMono(a: real, b: real, c: real)
    requires a <= b && c > 0.0
    ensures a * c <= b * c
  {
  }

  lemma MulMonoStrict(a: real, b: real, c: real)
    requires a < b && c > 0.0
    ensures a * c < b * c
  {
  }

  /**
   * One row of the `stocks_min_max` table: the all-time lowest Low and highest
   * High, the first dates they occur on, the Volume on those dates and their
   * difference.
   */
  datatype Extremum = Extremum(
    minDate: int, minValue: real, minVolume: real,
    maxDate: int, maxValue: real, maxVolume: real,
    profit: real)

  /** A loaded stock: its name, its series and its extremum record. */
  datatype Stock = Stock(name: string, rows: seq<Row>, ext: Extremum)

  /**
   * What the loader guarantees of every stock it keeps: the low comes strictly
   * before the high, the spread is at least 1, and both dates have a bar.
   */
  predicate ValidStock(s: Stock)
  {
    && s.ext.minDate < s.ext.maxDate
    && s.ext.profit >= 1.0
    && BarOn(s.rows, s.ext.minDate).Some?
    && BarOn(s.rows, s.ext.maxDate).Some?
  }

  /** Every stock valid and no name loaded twice. */
  predicate ValidCatalog(cat: seq<Stock>)
  {
    && (forall i :: 0 <= i < |cat| ==> ValidStock(cat[i]))
    && (forall i, j :: 0 <= i < j < |cat| ==> cat[i].name != cat[j].name)
  }

  /** `self.stocks[name]`: the position of the stock called `name`. */
  function IndexOf(cat: seq<Stock>, name: string): (r: Option<nat>)
    ensures r.Some? ==> r.value < |cat| && cat[r.value].name == name
    ensures r.None? <==> forall j :: 0 <= j < |cat| ==> cat[j].name != name
  {
    if cat == [] then None
    else if cat[0].name == name then Some(0)
    else
      match IndexOf(cat[1..], name)
      case None => None
      case Some(i) => Some(i + 1)
  }

  /** In a catalog without repeated names, a stock is found at its own position. */
  lemma IndexOfAt(cat: seq<Stock>, i: nat)
    requires ValidCatalog(cat) && i < |cat|
    ensures IndexOf(cat, cat[i].name) == Some(i)
  {
  }

  /** Prices and volume of a bar are never negative, as in any real market file. */
  predicate NonNegative(b: Bar)
  {
    b.open >= 0.0 && b.high >= 0.0 && b.low >= 0.0 && b.close >= 0.0 && b.volume >= 0.0
  }

  /** Every bar of every stock in the catalog is non-negative. */
  predicate Priced(cat: seq<Stock>)
  {
    forall i, k :: 0 <= i < |cat| && 0 <= k < |cat[i].rows| ==> NonNegative(cat[i].rows[k].bar)
  }

  lemma PricedBarOn(cat: seq<Stock>, i: nat, day: int)
    requires Priced(cat) && i < |cat| && BarOn(cat[i].rows, day).Some?
    ensures NonNegative(BarOn(cat[i].rows, day).value)
  {
    var k := FirstDated(cat[i].rows, day).value;
    assert BarOn(cat[i].rows, day).value == cat[i].rows[k].bar;
  }

  /** Costs and proceeds of a non-negative amount at a non-negative price are non-negative. */
  lemma TradeNonNegative(amount: int, price: real)
    requires amount >= 0 && price >= 0.0
    ensures BuyCost(amount, price) >= 0.0 && SellProceeds(amount, price) >= 0.0
  {
    assert amount as real * price >= 0.0;
  }
}
