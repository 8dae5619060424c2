/**
 * Loading the stock catalog (utils.py, `read_data`): the per-stock extremum
 * record, the filter that keeps a stock only when its all-time low comes
 * before its all-time high and the spread is at least 1, and the dense
 * calendar the simulation runs over. Finding and parsing the files is not
 * modelled: a file arrives as its name, its size and its parsed rows.
 */
module StockData {
  import opened Basics
  import opened Columns
  import opened Dict
  import opened Market

  /** A stock file: the stock name taken from the file name, its size in bytes, its rows. */
  datatype StockFile = StockFile(name: string, size: nat, rows: seq<Row>)

  datatype LoadError =
    | NoRows(name: string)  // a non-empty file with no data rows: `idxmin` of an empty column raises
    | ShapeMismatch         // two kept files share a stock name: more table rows than index labels
    | NoStocks              // nothing kept: `np.min` of an empty list raises

  /**
   * The `stocks_min_max` row of one series: lowest Low and highest High, the
   * date of the first row holding each (`idxmin`, `idxmax`), the Volume that
   * `.loc[[date]]` finds on those dates, and the spread.
   */
  function ExtremumOf(rows: seq<Row>): (e: Extremum)
    requires |rows| > 0
  {
    var lows, highs := Lows(rows), Highs(rows);
    var minDate, maxDate := rows[ArgMin(lows)].date, rows[ArgMax(highs)].date;
    assert BarOn(rows, minDate).Some? && BarOn(rows, maxDate).Some?;
    var minValue, maxValue := Min(lows), Max(highs);
    Extremum(minDate, minValue, BarOn(rows, minDate).value.volume,
             maxDate, maxValue, BarOn(rows, maxDate).value.volume,
             maxValue - minValue)
  }

  /**
   * utils.py:30-36: the lowest Low and highest High bound every row and are
   * attained; each date is that of the first row attaining its value; each
   * volume is the one recorded on that date; the profit is the spread.
   */
  lemma ExtremumFacts(rows: seq<Row>)
    requires |rows| > 0
    ensures var e := ExtremumOf(rows);
      && (forall i :: 0 <= i < |rows| ==> e.minValue <= rows[i].bar.low)
      && (forall i :: 0 <= i < |rows| ==> rows[i].bar.high <= e.maxValue)
      && (exists i :: 0 <= i < |rows| && rows[i].date == e.minDate && rows[i].bar.low == e.minValue
                      && forall j :: 0 <= j < i ==> rows[j].bar.low != e.minValue)
      && (exists i :: 0 <= i < |rows| && rows[i].date == e.maxDate && rows[i].bar.high == e.maxValue
                      && forall j :: 0 <= j < i ==> rows[j].bar.high != e.maxValue)
      && BarOn(rows, e.minDate).Some? && e.minVolume == BarOn(rows, e.minDate).value.volume
      && BarOn(rows, e.maxDate).Some? && e.maxVolume == BarOn(rows, e.maxDate).value.volume
      && e.profit == e.maxValue - e.minValue
  {
    var lows, highs := Lows(rows), Highs(rows);
    MinAtArgMin(lows);
    MaxAtArgMax(highs);
    var lo, hi := ArgMin(lows), ArgMax(highs);
    assert rows[lo].bar.low == lows[lo];
    assert rows[hi].bar.high == highs[hi];
  }

  /** The filter of utils.py:37. */
  predicate Keep(e: Extremum)
  {
    e.minDate < e.maxDate && e.profit >= 1.0
  }

  /** The two collections `read_data` builds: the `stocks` dict and the `values` rows. */
  datatype Scanned = Scanned(stocks: Dict<seq<Row>>, values: seq<Extremum>)

  /** Every series the `stocks` dict holds has a row. */
  predicate NonEmptyValues(d: Dict<seq<Row>>)
  {
    forall i :: 0 <= i < |d| ==> |d[i].value| > 0
  }

  /** One pass of the loop of utils.py:22-39. */
  function ScanOne(acc: Scanned, f: StockFile): (r: Result<Scanned, LoadError>)
    requires DistinctKeys(acc.stocks) && NonEmptyValues(acc.stocks)
    ensures r.Success? ==> DistinctKeys(r.value.stocks) && NonEmptyValues(r.value.stocks)
  {
    if f.size == 0 then Success(acc)
    else if f.rows == [] then Failure(NoRows(f.name))
    else
      var e := ExtremumOf(f.rows);
      if Keep(e) then
        PutFacts(acc.stocks, f.name, f.rows);
        Success(Scanned(Put(acc.stocks, f.name, f.rows), acc.values + [e]))
      else Success(acc)
  }

  /** The loop of utils.py:22-39 over the files in order, stopping at the first error. */
  function ScanFiles(files: seq<StockFile>): (r: Result<Scanned, LoadError>)
    ensures r.Success? ==> DistinctKeys(r.value.stocks) && NonEmptyValues(r.value.stocks)
  {
    if files == [] then Success(Scanned([], []))
    else
      match ScanFiles(files[..|files| - 1])
      case Failure(e) => Failure(e)
      case Success(acc) => ScanOne(acc, files[|files| - 1])
  }

  /** The dense calendar `pd.date_range(start=lo, end=hi, freq='D')`, as day numbers. */
  function DayRange(lo: int, hi: int): (ds: seq<int>)
    requires lo <= hi
    ensures |ds| == hi - lo + 1
    ensures forall k :: 0 <= k < |ds| ==> ds[k] == lo + k
  {
    seq(hi - lo + 1, k => lo + k)
  }

  predicate NonEmptySeries(cat: seq<Stock>)
  {
    forall i :: 0 <= i < |cat| ==> |cat[i].rows| > 0
  }

  /** utils.py:45: the earliest date of any loaded series. */
  function FirstDate(cat: seq<Stock>): (d: int)
    requires |cat| > 0 && NonEmptySeries(cat)
  {
    MinDay(seq(|cat|, i requires 0 <= i < |cat| => MinDay(Dates(cat[i].rows))))
  }

  /** utils.py:46: the latest date of any loaded series. */
  function LastDate(cat: seq<Stock>): (d: int)
    requires |cat| > 0 && NonEmptySeries(cat)
  {
    MaxDay(seq(|cat|, i requires 0 <= i < |cat| => MaxDay(Dates(cat[i].rows))))
  }

  /** The first and last dates bound every row of every series, and both occur. */
  lemma FirstLastBound(cat: seq<Stock>)
    requires |cat| > 0 && NonEmptySeries(cat)
    ensures forall i, j :: 0 <= i < |cat| && 0 <= j < |cat[i].rows| ==>
              FirstDate(cat) <= cat[i].rows[j].date <= LastDate(cat)
    ensures exists i, j :: 0 <= i < |cat| && 0 <= j < |cat[i].rows| && cat[i].rows[j].date == FirstDate(cat)
    ensures exists i, j :: 0 <= i < |cat| && 0 <= j < |cat[i].rows| && cat[i].rows[j].date == LastDate(cat)
  {
    var firsts := seq(|cat|, i requires 0 <= i < |cat| => MinDay(Dates(cat[i].rows)));
    var lasts := seq(|cat|, i requires 0 <= i < |cat| => MaxDay(Dates(cat[i].rows)));
    forall i, j | 0 <= i < |cat| && 0 <= j < |cat[i].rows|
      ensures FirstDate(cat) <= cat[i].rows[j].date <= LastDate(cat)
    {
      assert Dates(cat[i].rows)[j] == cat[i].rows[j].date;
      assert firsts[i] <= cat[i].rows[j].date <= lasts[i];
    }
    var a :| 0 <= a < |cat| && firsts[a] == FirstDate(cat);
    var ja :| 0 <= ja < |cat[a].rows| && Dates(cat[a].rows)[ja] == firsts[a];
    assert cat[a].rows[ja].date == FirstDate(cat);
    var b :| 0 <= b < |cat| && lasts[b] == LastDate(cat);
    var jb :| 0 <= jb < |cat[b].rows| && Dates(cat[b].rows)[jb] == lasts[b];
    assert cat[b].rows[jb].date == LastDate(cat);
  }

  /** The result of `read_data`: the catalog (the `stocks` dict zipped with `stocks_min_max`) and the calendar. */
  datatype Loaded = Loaded(catalog: seq<Stock>, dateRange: seq<int>)

  /** `pd.DataFrame(values, index=stocks.keys())` next to the `stocks` dict: stock i is the i-th key, series and row. */
  function Zip(stocks: Dict<seq<Row>>, values: seq<Extremum>): (cat: seq<Stock>)
    requires |stocks| == |values|
    ensures |cat| == |values|
    ensures forall i :: 0 <= i < |cat| ==> cat[i] == Stock(stocks[i].key, stocks[i].value, values[i])
  {
    seq(|values|, i requires 0 <= i < |values| => Stock(stocks[i].key, stocks[i].value, values[i]))
  }

  /** utils.py:42-47, applied to what the loop collected. */
  function Assemble(s: Scanned): (r: Result<Loaded, LoadError>)
    requires NonEmptyValues(s.stocks)
  {
    if |s.stocks| != |s.values| then Failure(ShapeMismatch)
    else if s.values == [] then Failure(NoStocks)
    else
      var cat := Zip(s.stocks, s.values);
      assert NonEmptySeries(cat);
      FirstLastBound(cat);
      Success(Loaded(cat, DayRange(FirstDate(cat), LastDate(cat))))
  }

  /** `read_data`, without the file system. */
  function Load(files: seq<StockFile>): Result<Loaded, LoadError>
  {
    match ScanFiles(files)
    case Failure(e) => Failure(e)
    case Success(s) => Assemble(s)
  }

  /** utils.py:23-37: a file is loaded when it is not empty and its stock passes `Keep`. */
  predicate Passes(f: StockFile)
  {
    f.size > 0 && |f.rows| > 0 && Keep(ExtremumOf(f.rows))
  }

  /** The files whose stock survives the filter, in file order. */
  function Kept(files: seq<StockFile>): (ks: seq<StockFile>)
    ensures forall i :: 0 <= i < |ks| ==> ks[i].size > 0 && |ks[i].rows| > 0 && Keep(ExtremumOf(ks[i].rows))
  {
    if files == [] then []
    else
      var f, rest := files[|files| - 1], Kept(files[..|files| - 1]);
      if f.size > 0 && |f.rows| > 0 && Keep(ExtremumOf(f.rows)) then rest + [f] else rest
  }

  /** The filter's verdict on each file, in file order. */
  function Verdicts(files: seq<StockFile>): (v: seq<bool>)
    ensures |v| == |files|
  {
    seq(|files|, j requires 0 <= j < |files| => Passes(files[j]))
  }

  /** The positions whose verdict is true: ascending, and every such position among them. */
  function Selected(pass: seq<bool>): (ps: seq<nat>)
    ensures forall k :: 0 <= k < |ps| ==> ps[k] < |pass| && pass[ps[k]]
    ensures forall k, l :: 0 <= k < l < |ps| ==> ps[k] < ps[l]
    ensures forall j :: 0 <= j < |pass| && pass[j] ==> j in ps
  {
    if pass == [] then []
    else
      var n := |pass| - 1;
      var rest := Selected(pass[..n]);
      if pass[n] then rest + [n] else rest
  }

  /** The elements of `xs` whose verdict is true, in order. */
  function Pick<T>(xs: seq<T>, pass: seq<bool>): (ys: seq<T>)
    requires |pass| == |xs|
  {
    if xs == [] then []
    else
      var n := |xs| - 1;
      Pick(xs[..n], pass[..n]) + (if pass[n] then [xs[n]] else [])
  }

  /** Picking takes exactly the elements at the selected positions, in order. */
  lemma {:induction false} PickAt<T>(xs: seq<T>, pass: seq<bool>)
    requires |pass| == |xs|
    ensures |Pick(xs, pass)| == |Selected(pass)|
    ensures forall k :: 0 <= k < |Selected(pass)| ==> Pick(xs, pass)[k] == xs[Selected(pass)[k]]
  {
    if xs != [] {
      var n := |xs| - 1;
      PickAt(xs[..n], pass[..n]);
      var ps := Selected(pass[..n]);
      assert forall k :: 0 <= k < |ps| ==> xs[..n][ps[k]] == xs[ps[k]];
    }
  }

  /** `Kept` is `Pick` with the filter's verdicts. */
  lemma {:induction false} KeptIsPick(files: seq<StockFile>)
    ensures Kept(files) == Pick(files, Verdicts(files))
  {
    if files != [] {
      var n := |files| - 1;
      var v := Verdicts(files);
      KeptIsPick(files[..n]);
      assert v[..n] == Verdicts(files[..n]);
      assert v[n] == Passes(files[n]);
    }
  }

  /**
   * `Kept` is the filter of the loop at utils.py:22-39: the files at the
   * passing positions, in file order.
   */
  lemma KeptIsFilter(files: seq<StockFile>)
    ensures |Kept(files)| == |Selected(Verdicts(files))|
    ensures forall k :: 0 <= k < |Kept(files)| ==> Kept(files)[k] == files[Selected(Verdicts(files))[k]]
  {
    KeptIsPick(files);
    PickAt(files, Verdicts(files));
  }

  /** A file is kept exactly when it is one of the files and passes the filter. */
  lemma KeptMembers(files: seq<StockFile>)
    ensures forall f :: f in Kept(files) <==> f in files && Passes(f)
  {
    var ks, ps := Kept(files), Selected(Verdicts(files));
    KeptIsFilter(files);
    forall f | f in files && Passes(f)
      ensures f in ks
    {
      var j :| 0 <= j < |files| && files[j] == f;
      assert Verdicts(files)[j];
      var k :| 0 <= k < |ps| && ps[k] == j;
      assert ks[k] == f;
    }
  }

  predicate DistinctNames(fs: seq<StockFile>)
  {
    forall i, j :: 0 <= i < j < |fs| ==> fs[i].name != fs[j].name
  }

  /** One extremum row per kept file, in order. */
  predicate RowsMatch(values: seq<Extremum>, ks: seq<StockFile>)
    requires forall i :: 0 <= i < |ks| ==> |ks[i].rows| > 0
  {
    |values| == |ks| && forall i :: 0 <= i < |ks| ==> values[i] == ExtremumOf(ks[i].rows)
  }

  /**
   * The `stocks` dict has one entry per kept file exactly when no two kept files
   * share a name, and then holds the kept series in order; otherwise it is shorter.
   */
  predicate DictMatch(stocks: Dict<seq<Row>>, ks: seq<StockFile>)
  {
    && |stocks| <= |ks|
    && (|stocks| == |ks| <==> DistinctNames(ks))
    && (DistinctNames(ks) ==> forall i :: 0 <= i < |ks| ==> stocks[i] == Entry(ks[i].name, ks[i].rows))
  }

  lemma RowsStep(values: seq<Extremum>, ks: seq<StockFile>, f: StockFile)
    requires forall i :: 0 <= i < |ks| ==> |ks[i].rows| > 0
    requires |f.rows| > 0 && RowsMatch(values, ks)
    ensures RowsMatch(values + [ExtremumOf(f.rows)], ks + [f])
  {
    var ks', values' := ks + [f], values + [ExtremumOf(f.rows)];
    forall i | 0 <= i < |ks'| ensures values'[i] == ExtremumOf(ks'[i].rows) {
      if i < |ks| { assert values'[i] == values[i] && ks'[i] == ks[i]; }
    }
  }

  lemma DictStep(stocks: Dict<seq<Row>>, ks: seq<StockFile>, f: StockFile)
    requires DistinctKeys(stocks) && DictMatch(stocks, ks)
    ensures DictMatch(Put(stocks, f.name, f.rows), ks + [f])
  {
    var ks', stocks' := ks + [f], Put(stocks, f.name, f.rows);
    if DistinctNames(ks) {
      assert forall j :: 0 <= j < |ks| ==> ks[j].name == stocks[j].key;
      if Has(stocks, f.name) {
        var j := Find(stocks, f.name).value;
        assert ks'[j].name == ks'[|ks|].name;
        assert !DistinctNames(ks');
      } else {
        assert stocks' == stocks + [Entry(f.name, f.rows)];
        assert DistinctNames(ks');
        forall i | 0 <= i < |ks'| ensures stocks'[i] == Entry(ks'[i].name, ks'[i].rows) {
          if i < |ks| { assert stocks'[i] == stocks[i] && ks'[i] == ks[i]; }
        }
      }
    } else {
      var a, b :| 0 <= a < b < |ks| && ks[a].name == ks[b].name;
      assert ks'[a].name == ks'[b].name;
      assert !DistinctNames(ks');
    }
  }

  /** What the loop collects matches the kept files (see `RowsMatch` and `DictMatch`). */
  lemma {:induction false} ScanMatchesKept(files: seq<StockFile>)
    requires ScanFiles(files).Success?
    ensures RowsMatch(ScanFiles(files).value.values, Kept(files))
    ensures DictMatch(ScanFiles(files).value.stocks, Kept(files))
  {
    if files != [] {
      var pre, f := files[..|files| - 1], files[|files| - 1];
      assert ScanFiles(pre).Success?;
      ScanMatchesKept(pre);
      var s, ks := ScanFiles(pre).value, Kept(pre);
      assert ScanFiles(files) == ScanOne(s, f);
      if f.size > 0 && |f.rows| > 0 && Keep(ExtremumOf(f.rows)) {
        assert Kept(files) == ks + [f];
        RowsStep(s.values, ks, f);
        DictStep(s.stocks, ks, f);
      } else {
        assert Kept(files) == ks;
      }
    }
  }

  /**
   * A successful load holds exactly the kept files, in file order, each with its
   * own extremum row; no name twice; and every stock meets the filter.
   */
  lemma LoadedCatalog(files: seq<StockFile>)
    requires Load(files).Success?
    ensures DistinctNames(Kept(files))
    ensures |Load(files).value.catalog| == |Kept(files)| > 0
    ensures forall i :: 0 <= i < |Kept(files)| ==>
              Load(files).value.catalog[i] == Stock(Kept(files)[i].name, Kept(files)[i].rows, ExtremumOf(Kept(files)[i].rows))
    ensures ValidCatalog(Load(files).value.catalog)
    ensures NonEmptySeries(Load(files).value.catalog)
  {
    var s, ks := ScanFiles(files).value, Kept(files);
    ScanMatchesKept(files);
    assert |s.stocks| == |s.values| && s.values != [];
    var cat := Zip(s.stocks, s.values);
    assert NonEmptySeries(cat);
    assert Load(files).value.catalog == cat;
    forall i | 0 <= i < |cat|
      ensures cat[i] == Stock(ks[i].name, ks[i].rows, ExtremumOf(ks[i].rows))
      ensures ValidStock(cat[i])
    {
      ExtremumFacts(ks[i].rows);
    }
  }

  /** A load fails for a repeated stock name, or for an empty selection, exactly when the filter produces one. */
  lemma LoadErrors(files: seq<StockFile>)
    requires ScanFiles(files).Success?
    ensures Load(files) == Failure(ShapeMismatch) <==> !DistinctNames(Kept(files))
    ensures Load(files) == Failure(NoStocks) <==> Kept(files) == []
  {
    ScanMatchesKept(files);
  }

  /**
   * The calendar of a successful load lists every day from the earliest to the
   * latest date of any loaded series, ascending and without gaps, so every row
   * of every loaded series falls on one of its days.
   */
  lemma LoadedCalendar(files: seq<StockFile>)
    requires Load(files).Success?
    ensures var l := Load(files).value;
      && |l.dateRange| > 0
      && (forall k :: 0 <= k < |l.dateRange| ==> l.dateRange[k] == l.dateRange[0] + k)
      && (forall i, j :: 0 <= i < |l.catalog| && 0 <= j < |l.catalog[i].rows| ==>
            l.dateRange[0] <= l.catalog[i].rows[j].date <= l.dateRange[|l.dateRange| - 1])
      && (exists i, j :: 0 <= i < |l.catalog| && 0 <= j < |l.catalog[i].rows| &&
            l.catalog[i].rows[j].date == l.dateRange[0])
      && (exists i, j :: 0 <= i < |l.catalog| && 0 <= j < |l.catalog[i].rows| &&
            l.catalog[i].rows[j].date == l.dateRange[|l.dateRange| - 1])
  {
    var s := ScanFiles(files).value;
    var cat := Zip(s.stocks, s.values);
    assert NonEmptySeries(cat);
    assert Load(files).value == Loaded(cat, DayRange(FirstDate(cat), LastDate(cat)));
    FirstLastBound(cat);
  }

  /** A failure of the loop on a prefix of the files is the failure of the whole loop. */
  lemma {:induction false} ScanFailureStays(files: seq<StockFile>, n: nat)
    requires n <= |files| && ScanFiles(files[..n]).Failure?
    ensures ScanFiles(files) == ScanFiles(files[..n])
    decreases |files| - n
  {
    if n < |files| {
      assert files[..n + 1][..n] == files[..n];
      assert ScanFiles(files[..n + 1]).Failure?;
      ScanFailureStays(files, n + 1);
    } else {
      assert files[..n] == files;
    }
  }

  /** `read_data` (utils.py:20-47) over already-read files: the loop, then the table and the calendar. */
  method ReadData(files: seq<StockFile>) returns (r: Result<Loaded, LoadError>)
    ensures r == Load(files)
  {
    var stocks: Dict<seq<Row>> := [];
    var values: seq<Extremum> := [];
    var i := 0;
    while i < |files|
      invariant 0 <= i <= |files|
      invariant ScanFiles(files[..i]) == Success(Scanned(stocks, values))
    {
      var f := files[i];
      assert files[..i + 1][..i] == files[..i];
      assert ScanFiles(files[..i + 1]) == ScanOne(Scanned(stocks, values), f);
      if f.size > 0 {
        if f.rows == [] {
          ScanFailureStays(files, i + 1);
          return Failure(NoRows(f.name));
        }
        var e := ExtremumOf(f.rows);
        if e.minDate < e.maxDate && e.profit >= 1.0 {
          values := values + [e];
          stocks := Put(stocks, f.name, f.rows);
        }
      }
      i := i + 1;
    }
    assert files[..i] == files;
    if |stocks| != |values| {
      return Failure(ShapeMismatch);
    }
    if values == [] {
      return Failure(NoStocks);
    }
    var catalog := Zip(stocks, values);
    assert NonEmptySeries(catalog);
    r := Success(Loaded(catalog, DayRange(FirstDate(catalog), LastDate(catalog))));
  }
}
