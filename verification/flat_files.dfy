/** The string logic of the flat-file helper: prefix aliases, the listing
    prefix for a date filter, object keys for a trading date, local and
    decompressed paths, and the put/call ratio computed from a loaded file. */
module FlatFiles {
  import opened Wrappers
  import opened Text
  import opened CalendarDate
  import PutCallRatio
  import CustomMetrics

  /** The data-type aliases and the bucket prefixes they stand for, in the
      order the class declares them. */
  const Prefixes: seq<(string, string)> := [
    ("stocks_trades", "us_stocks_sip/trades_v1"),
    ("stocks_quotes", "us_stocks_sip/quotes_v1"),
    ("stocks_minute_agg", "us_stocks_sip/minute_aggs_v1"),
    ("stocks_daily_agg", "us_stocks_sip/day_aggs_v1"),
    ("options_trades", "us_options_opra/trades_v1"),
    ("options_quotes", "us_options_opra/quotes_v1"),
    ("options_minute_agg", "us_options_opra/minute_aggs_v1"),
    ("options_daily_agg", "us_options_opra/day_aggs_v1"),
    ("indices_minute_agg", "us_indices_sip/minute_aggs_v1"),
    ("indices_daily_agg", "us_indices_sip/day_aggs_v1"),
    ("forex_trades", "forex/trades_v1"),
    ("forex_quotes", "forex/quotes_v1"),
    ("crypto_trades", "crypto/trades_v1"),
    ("crypto_quotes", "crypto/quotes_v1")
  ]

  /** Dictionary lookup in an association list: the value of the first
      entry with that key. */
  function Lookup(table: seq<(string, string)>, key: string): (r: Option<string>)
    ensures r.None? <==> forall i :: 0 <= i < |table| ==> table[i].0 != key
    ensures r.Some? ==> exists i :: 0 <= i < |table| && table[i] == (key, r.value)
                          && forall j :: 0 <= j < i ==> table[j].0 != key
  {
    if |table| == 0 then None
    else if table[0].0 == key then Some(table[0].1)
    else
      var r := Lookup(table[1..], key);
      assert forall i :: 1 <= i < |table| ==> table[i] == table[1..][i - 1];
      r
  }

  /** Aliases are bare names; the prefixes they stand for are paths. */
  lemma AliasesAreNotPaths()
    ensures forall i :: 0 <= i < |Prefixes| ==> '/' !in Prefixes[i].0 && '/' in Prefixes[i].1
  {
  }

  /** An alias becomes its prefix; anything else is taken as a path. */
  function ResolvePrefix(prefix: string): (r: string)
    ensures Lookup(Prefixes, prefix).None? ==> r == prefix
    ensures Lookup(Prefixes, prefix).Some? ==> Some(r) == Lookup(Prefixes, prefix)
  {
    match Lookup(Prefixes, prefix)
    case Some(path) => path
    case None => prefix
  }

  /** No prefix is itself an alias, so resolving twice changes nothing. */
  lemma ResolveIdempotent(prefix: string)
    ensures ResolvePrefix(ResolvePrefix(prefix)) == ResolvePrefix(prefix)
  {
    AliasesAreNotPaths();
  }

  /** The date-filter step of a listing: `base` followed by
      `/<part0>/<part1>` of the dash-split filter when the filter is
      non-empty and has at least two parts. */
  function WithDateFilter(base: string, dateFilter: Option<string>): (r: string)
    ensures StartsWith(r, base)
    ensures r == base <==> dateFilter.None? || '-' !in dateFilter.value
    ensures r != base ==> r[|base|] == '/' && '-' !in r[|base|..]
  {
    match dateFilter
    case None => base
    case Some(f) =>
      if f == "" then base
      else
        var parts := Split(f, '-');
        if |parts| >= 2 then
          var r := base + "/" + parts[0] + "/" + parts[1];
          var tail := "/" + parts[0] + "/" + parts[1];
          assert '-' !in tail by {
            assert forall i :: 0 <= i < |tail| ==> tail[i] == '/' || tail[i] in parts[0] || tail[i] in parts[1];
          }
          assert r[|base|..] == tail;
          r
        else base
  }

  /** The prefix `list_files` hands to the listing: the alias resolved,
      then the date filter applied. */
  function ListingPrefix(prefix: string, dateFilter: Option<string>): string {
    WithDateFilter(ResolvePrefix(prefix), dateFilter)
  }

  /** A filter of the form `<y>-<m>[-...]` appends `/<y>/<m>`, whatever
      follows the second field. */
  lemma {:induction false} DateFilterOfParts(base: string, y: string, m: string, more: seq<string>)
    requires '-' !in y && '-' !in m
    requires forall k :: 0 <= k < |more| ==> '-' !in more[k]
    ensures WithDateFilter(base, Some(Join([y, m] + more, '-'))) == base + "/" + y + "/" + m
  {
    var parts := [y, m] + more;
    forall k | 0 <= k < |parts| ensures '-' !in parts[k] {
      if k >= 2 {
        assert parts[k] == more[k - 2];
      }
    }
    SplitJoin(parts, '-');
    var f := Join(parts, '-');
    assert f != "" by {
      assert f == y + ['-'] + Join(parts[1..], '-');
    }
    var sp := Split(f, '-');
    assert sp == parts && |sp| >= 2;
    assert WithDateFilter(base, Some(f)) == base + "/" + sp[0] + "/" + sp[1];
  }

  /** A month filter `2024-11` appends `/2024/11` to any base. */
  lemma FilterForMonth(base: string, f: string)
    requires f == Join(["2024", "11"], '-')
    ensures WithDateFilter(base, Some(f)) == base + "/2024/11"
  {
    var parts: seq<string> := ["2024", "11"];
    assert parts + [] == parts;
    DateFilterOfParts(base, "2024", "11", []);
    assert base + "/" + "2024" + "/" + "11" == base + "/2024/11";
  }

  /** The listing for November 2024 option trades. */
  lemma ListingPrefixExample()
    ensures ListingPrefix("options_trades", Some("2024-11")) == "us_options_opra/trades_v1/2024/11"
  {
    assert Join(["2024", "11"], '-') == "2024-11";
    DatasetRootIsAliasPrefix(Trades);
    FilterForMonth(DatasetRoot(Trades), "2024-11");
    TradesMonthPath();
  }

  lemma TradesMonthPath()
    ensures DatasetRoot(Trades) + "/2024/11" == "us_options_opra/trades_v1/2024/11"
  {
  }

  /** The two option datasets read per date. */
  datatype OptionsDataset = Trades | DayAggregates

  function Alias(ds: OptionsDataset): string {
    match ds
    case Trades => "options_trades"
    case DayAggregates => "options_daily_agg"
  }

  /** The bucket prefix each dataset's per-date keys live under. */
  function DatasetRoot(ds: OptionsDataset): string {
    match ds
    case Trades => "us_options_opra/trades_v1"
    case DayAggregates => "us_options_opra/day_aggs_v1"
  }

  /** The per-date keys hard-code the prefixes of the two option aliases. */
  lemma DatasetRootIsAliasPrefix(ds: OptionsDataset)
    ensures Lookup(Prefixes, Alias(ds)) == Some(DatasetRoot(ds))
    ensures ResolvePrefix(Alias(ds)) == DatasetRoot(ds)
  {
    var key := Alias(ds);
    var i := if ds == Trades then 4 else 7;
    assert Prefixes[i] == (key, DatasetRoot(ds));
    forall j | 0 <= j < i ensures Prefixes[j].0 != key {
      assert Prefixes[j].0[0] != key[0] || |Prefixes[j].0| != |key|;
    }
    LookupAt(Prefixes, key, i);
  }

  /** The lookup finds the first entry carrying the key. */
  lemma {:induction false} LookupAt(table: seq<(string, string)>, key: string, i: nat)
    requires i < |table| && table[i].0 == key
    requires forall j :: 0 <= j < i ==> table[j].0 != key
    ensures Lookup(table, key) == Some(table[i].1)
    decreases i
  {
    if i > 0 {
      assert table[0].0 != key;
      LookupAt(table[1..], key, i - 1);
    }
  }

  /** The column holding traded quantity in each dataset. */
  function VolumeColumn(ds: OptionsDataset): string {
    match ds
    case Trades => "size"
    case DayAggregates => "volume"
  }

  /** Why a flat-file computation gives up. */
  datatype FlatFileError =
    | BadDate(date: string)
    | NoContractTypeColumn(columns: seq<string>)
    | MissingColumn(column: string)
    | NonNumericVolume

  /** The file name of a date's object: the date text plus `.csv.gz`. */
  function FileName(date: string): (r: string)
    requires '/' !in date
    ensures '/' !in r
  {
    assert '/' !in ".csv.gz";
    date + ".csv.gz"
  }

  /** `<root>/<year>/<month:02>/<file name>`. */
  function DateKey(root: string, year: nat, month: nat, date: string): (key: string)
    requires month < 100 && '/' !in date
    ensures StartsWith(key, root + "/")
    ensures LastSegment(key, '/') == FileName(date)
  {
    var dir := root + "/" + NatToString(year) + "/" + Pad2(month);
    var key := dir + "/" + FileName(date);
    LastSegmentOfJoin(dir, FileName(date), '/');
    assert key == dir + ['/'] + FileName(date);
    assert key[..|root| + 1] == root + "/";
    key
  }

  /** The object key for a date: `<root>/<year>/<two-digit month>/<date>.csv.gz`,
      with the year unpadded and the date text copied verbatim; a date the
      `%Y-%m-%d` format rejects is an error. */
  function ObjectKeyForDate(ds: OptionsDataset, date: string): (r: Result<string, FlatFileError>)
    ensures r.Failure? <==> ParseDate(date).None?
    ensures r.Failure? ==> r.error == BadDate(date)
    ensures r.Success? ==> StartsWith(r.value, DatasetRoot(ds) + "/")
    ensures r.Success? ==> LastSegment(r.value, '/') == FileName(date)
  {
    match ParseDate(date)
    case None => Failure(BadDate(date))
    case Some(d) => Success(DateKey(DatasetRoot(ds), d.year, d.month, date))
  }

  /** The key of a date the format accepts, spelled out. */
  lemma KeyOfParsedDate(ds: OptionsDataset, date: string, d: Date)
    requires ParseDate(date) == Some(d)
    ensures '/' !in date
    ensures ObjectKeyForDate(ds, date) ==
      Success(DatasetRoot(ds) + "/" + NatToString(d.year) + "/" + Pad2(d.month) + "/" + FileName(date))
  {
    var root := DatasetRoot(ds);
    assert ObjectKeyForDate(ds, date) == Success(DateKey(root, d.year, d.month, date));
  }

  /** For a date written in ISO form with a four-digit year, the key is the
      listing prefix of that date's month followed by the file name. */
  lemma KeyUnderListingPrefix(ds: OptionsDataset, d: Date)
    requires ValidDate(d) && d.year >= 1000
    ensures ObjectKeyForDate(ds, FormatIsoDate(d)) ==
      Success(ListingPrefix(Alias(ds), Some(FormatIsoDate(d))) + "/" + FileName(FormatIsoDate(d)))
  {
    var date := FormatIsoDate(d);
    ParseFormatted(d);
    KeyOfParsedDate(ds, date, d);
    var y := Pad4(d.year);
    var m := Pad2(d.month);
    var dd := Pad2(d.day);
    NatToStringOfDigits(y);
    assert NatToString(d.year) == y;
    IsoDateJoin(d);
    DateFilterOfParts(DatasetRoot(ds), y, m, [dd]);
    DatasetRootIsAliasPrefix(ds);
  }

  /** The ISO form is the dash-join of its three fields. */
  lemma IsoDateJoin(d: Date)
    requires ValidDate(d)
    ensures FormatIsoDate(d) == Join([Pad4(d.year), Pad2(d.month)] + [Pad2(d.day)], '-')
    ensures '-' !in Pad4(d.year) && '-' !in Pad2(d.month) && '-' !in Pad2(d.day)
  {
    var y := Pad4(d.year);
    var m := Pad2(d.month);
    var dd := Pad2(d.day);
    var parts := [y, m, dd];
    assert [y, m] + [dd] == parts;
    assert parts[1..] == [m, dd] && [m, dd][1..] == [dd];
    assert Join([m, dd], '-') == m + "-" + dd;
    assert Join(parts, '-') == y + "-" + (m + "-" + dd);
  }

  /** Years below 1000 appear unpadded in the directory but padded in the
      file name. */
  lemma ShortYearKey()
    ensures ObjectKeyForDate(Trades, "0999-01-05") == Success("us_options_opra/trades_v1/999/01/0999-01-05.csv.gz")
  {
    var d := Date(999, 1, 5);
    ParsesShortYear();
    KeyOfParsedDate(Trades, "0999-01-05", d);
    ShortYearPieces();
    ShortYearKeyText();
  }

  lemma ParsesShortYear()
    ensures ParseDate("0999-01-05") == Some(Date(999, 1, 5))
  {
    var y, m, d := "0999", "01", "05";
    assert DigitsValue(y) == 999 by {
      Pad4Unique(y);
      assert Pad4(999) == y;
    }
    assert MonthToken(m) && TokenValue(m) == 1;
    assert DayToken(d) && TokenValue(d) == 5;
    assert ValidDate(Date(999, 1, 5));
    ParseDashed(y, m, d);
    assert y + "-" + m + "-" + d == "0999-01-05";
  }

  lemma ShortYearPieces()
    ensures NatToString(999) == "999" && Pad2(1) == "01"
    ensures FileName("0999-01-05") == "0999-01-05.csv.gz"
  {
    assert NatToString(9) == "9";
    assert NatToString(99) == "99";
  }

  lemma ShortYearKeyText()
    ensures "us_options_opra/trades_v1" + "/" + "999" + "/" + "01" + "/" + "0999-01-05.csv.gz"
            == "us_options_opra/trades_v1/999/01/0999-01-05.csv.gz"
  {
  }

  /** The local file name: the given one, or the key's last path segment. */
  function LocalPath(objectKey: string, localPath: Option<string>): (r: string)
    ensures localPath.None? ==> '/' !in r && EndsWith(objectKey, r)
    ensures localPath.None? && '/' in objectKey ==> |r| < |objectKey| && objectKey[|objectKey| - |r| - 1] == '/'
    ensures localPath.None? && '/' !in objectKey ==> r == objectKey
    ensures localPath.Some? ==> r == localPath.value
  {
    match localPath
    case None => LastSegment(objectKey, '/')
    case Some(p) => p
  }

  /** The path `download_file` returns: with decompression on and a `.gz`
      local path, that path minus the suffix; otherwise the local path. */
  function DownloadedPath(objectKey: string, localPath: Option<string>, decompress: bool): (r: string)
    ensures decompress && EndsWith(LocalPath(objectKey, localPath), ".gz") ==>
      r + ".gz" == LocalPath(objectKey, localPath)
    ensures !(decompress && EndsWith(LocalPath(objectKey, localPath), ".gz")) ==>
      r == LocalPath(objectKey, localPath)
  {
    var p := LocalPath(objectKey, localPath);
    if decompress && EndsWith(p, ".gz") then
      assert p == p[..|p| - 3] + ".gz";
      p[..|p| - 3]
    else p
  }

  /** The file a date's key downloads to is `<date>.csv`, or `<date>.csv.gz`
      when left compressed. */
  lemma DownloadedDateFile(ds: OptionsDataset, date: string)
    ensures ObjectKeyForDate(ds, date).Success? ==>
              && DownloadedPath(ObjectKeyForDate(ds, date).value, None, true) == date + ".csv"
              && DownloadedPath(ObjectKeyForDate(ds, date).value, None, false) == FileName(date)
  {
    if ObjectKeyForDate(ds, date).Success? {
      var key := ObjectKeyForDate(ds, date).value;
      assert LocalPath(key, None) == FileName(date);
      CompressedFileName(date);
    }
  }

  /** A date's file name is compressed, and dropping `.gz` leaves `.csv`. */
  lemma CompressedFileName(date: string)
    requires '/' !in date
    ensures EndsWith(FileName(date), ".gz")
    ensures FileName(date)[..|FileName(date)| - 3] == date + ".csv"
  {
    var name := FileName(date);
    assert name == (date + ".csv") + ".gz";
    assert name[|name| - 3..] == ".gz";
    assert name[..|name| - 3] == date + ".csv";
  }

  /** One cell of a loaded CSV: text, a number, or empty (NaN). */
  datatype Cell = Text(text: string) | Number(x: real) | Blank

  /** A row maps column names to cells; a column a row lacks reads as empty. */
  type Row = map<string, Cell>

  datatype Frame = Frame(columns: seq<string>, rows: seq<Row>)

  function CellAt(row: Row, column: string): Cell {
    if column in row then row[column] else Blank
  }

  /** The column names tried, in order, for the option side. */
  const TypeColumns: seq<string> := ["contract_type", "option_type", "put_call"]

  /** The first candidate that is one of the columns. */
  function FirstPresent(candidates: seq<string>, columns: seq<string>): (r: Option<string>)
    ensures r.None? <==> forall k :: 0 <= k < |candidates| ==> candidates[k] !in columns
    ensures r.Some? ==> exists k :: 0 <= k < |candidates| && candidates[k] == r.value
                          && r.value in columns
                          && forall j :: 0 <= j < k ==> candidates[j] !in columns
  {
    if |candidates| == 0 then None
    else if candidates[0] in columns then Some(candidates[0])
    else
      var r := FirstPresent(candidates[1..], columns);
      assert forall k :: 1 <= k < |candidates| ==> candidates[k] == candidates[1..][k - 1];
      r
  }

  /** The column naming the option side, if the frame has one. */
  function ContractTypeColumn(columns: seq<string>): Option<string> {
    FirstPresent(TypeColumns, columns)
  }

  /** `df[df["underlying_symbol"] == symbol]`: rows whose cell is that text. */
  function FilterUnderlying(rows: seq<Row>, symbol: string): (r: seq<Row>)
    ensures |r| <= |rows|
    ensures forall i :: 0 <= i < |r| ==> r[i] in rows && CellAt(r[i], "underlying_symbol") == Text(symbol)
    ensures forall i :: 0 <= i < |rows| && CellAt(rows[i], "underlying_symbol") == Text(symbol) ==> rows[i] in r
  {
    if |rows| == 0 then []
    else
      var rest := FilterUnderlying(rows[1..], symbol);
      assert forall i :: 1 <= i < |rows| ==> rows[i] == rows[1..][i - 1];
      if CellAt(rows[0], "underlying_symbol") == Text(symbol) then [rows[0]] + rest else rest
  }

  /** Filtering distributes over concatenation; with `FilterUnderlyingUnit`
      this fixes the kept rows completely, order and repetitions included. */
  lemma {:induction false} FilterUnderlyingAppend(a: seq<Row>, b: seq<Row>, symbol: string)
    ensures FilterUnderlying(a + b, symbol) == FilterUnderlying(a, symbol) + FilterUnderlying(b, symbol)
    decreases |a|
  {
    if |a| == 0 {
      assert a + b == b;
    } else {
      assert (a + b)[0] == a[0];
      assert (a + b)[1..] == a[1..] + b;
      FilterUnderlyingAppend(a[1..], b, symbol);
    }
  }

  /** A single row is kept iff its `underlying_symbol` is the symbol. */
  lemma FilterUnderlyingUnit(row: Row, symbol: string)
    ensures FilterUnderlying([row], symbol) == if CellAt(row, "underlying_symbol") == Text(symbol) then [row] else []
  {
  }

  /** Whether a row's type cell, lower-cased, is `side`; cells that are not
      text never match. */
  predicate OnSide(row: Row, typeColumn: string, side: string) {
    CellAt(row, typeColumn).Text? && Lower(CellAt(row, typeColumn).text) == side
  }

  /** Whether some row on `side` holds text in the volume column. */
  predicate TextVolumeOnSide(rows: seq<Row>, typeColumn: string, volumeColumn: string, side: string) {
    exists i :: 0 <= i < |rows| && OnSide(rows[i], typeColumn, side) && CellAt(rows[i], volumeColumn).Text?
  }

  /** Reference for the volume sum: the numbers in the volume column of the
      rows on `side`, in row order. */
  function SideNumbers(rows: seq<Row>, typeColumn: string, volumeColumn: string, side: string): seq<real>
    decreases |rows|
  {
    if |rows| == 0 then []
    else
      var last := rows[|rows| - 1];
      SideNumbers(rows[..|rows| - 1], typeColumn, volumeColumn, side)
        + (if OnSide(last, typeColumn, side) && CellAt(last, volumeColumn).Number? then [CellAt(last, volumeColumn).x] else [])
  }

  /** The summed volume of the rows on one side, skipping empty cells;
      text in the volume column is an error. */
  function SideVolume(rows: seq<Row>, typeColumn: string, volumeColumn: string, side: string): (r: Result<real, FlatFileError>)
    ensures r.Failure? <==> TextVolumeOnSide(rows, typeColumn, volumeColumn, side)
    ensures r.Failure? ==> r.error == NonNumericVolume
    ensures r.Success? ==> r.value == CustomMetrics.Sum(SideNumbers(rows, typeColumn, volumeColumn, side))
    ensures (forall i :: 0 <= i < |rows| ==> !OnSide(rows[i], typeColumn, side)) ==> r == Success(0.0)
    decreases |rows|
  {
    if |rows| == 0 then Success(0.0)
    else
      var last := rows[|rows| - 1];
      var init := rows[..|rows| - 1];
      assert forall i :: 0 <= i < |init| ==> init[i] == rows[i];
      var rest := SideVolume(init, typeColumn, volumeColumn, side);
      if !OnSide(last, typeColumn, side) then
        assert SideNumbers(rows, typeColumn, volumeColumn, side) == SideNumbers(init, typeColumn, volumeColumn, side);
        rest
      else
        match CellAt(last, volumeColumn)
        case Text(_) => Failure(NonNumericVolume)
        case Blank =>
          assert SideNumbers(rows, typeColumn, volumeColumn, side) == SideNumbers(init, typeColumn, volumeColumn, side);
          rest
        case Number(x) =>
          CustomMetrics.SumSnoc(SideNumbers(init, typeColumn, volumeColumn, side), x);
          if rest.Success? then Success(rest.value + x) else rest
  }

  /** The on-side numbers of two row blocks are those of each block in
      turn. */
  lemma {:induction false} SideNumbersAppend(a: seq<Row>, b: seq<Row>, typeColumn: string, volumeColumn: string, side: string)
    ensures SideNumbers(a + b, typeColumn, volumeColumn, side) ==
            SideNumbers(a, typeColumn, volumeColumn, side) + SideNumbers(b, typeColumn, volumeColumn, side)
    decreases |b|
  {
    if |b| == 0 {
      assert a + b == a;
    } else {
      var init := b[..|b| - 1];
      var ab := a + b;
      assert ab[..|ab| - 1] == a + init && ab[|ab| - 1] == b[|b| - 1];
      SideNumbersAppend(a, init, typeColumn, volumeColumn, side);
    }
  }

  /** Summing the rows of two frames pieces adds their sums. */
  lemma SideVolumeAppend(a: seq<Row>, b: seq<Row>, typeColumn: string, volumeColumn: string, side: string)
    requires SideVolume(a, typeColumn, volumeColumn, side).Success?
    requires SideVolume(b, typeColumn, volumeColumn, side).Success?
    ensures SideVolume(a + b, typeColumn, volumeColumn, side).Success?
    ensures SideVolume(a + b, typeColumn, volumeColumn, side).value ==
            SideVolume(a, typeColumn, volumeColumn, side).value + SideVolume(b, typeColumn, volumeColumn, side).value
  {
    var ab := a + b;
    assert forall i :: 0 <= i < |ab| ==> ab[i] == if i < |a| then a[i] else b[i - |a|];
    assert !TextVolumeOnSide(ab, typeColumn, volumeColumn, side) by {
      forall i | 0 <= i < |ab| && OnSide(ab[i], typeColumn, side)
        ensures !CellAt(ab[i], volumeColumn).Text?
      {
        if i >= |a| {
          assert ab[i] == b[i - |a|];
        }
      }
    }
    var na, nb := SideNumbers(a, typeColumn, volumeColumn, side), SideNumbers(b, typeColumn, volumeColumn, side);
    SideNumbersAppend(a, b, typeColumn, volumeColumn, side);
    CustomMetrics.SumAppend(na, nb);
    var r := SideVolume(ab, typeColumn, volumeColumn, side);
    assert r.Success?;
    assert r.value == CustomMetrics.Sum(na + nb);
    assert SideVolume(a, typeColumn, volumeColumn, side).value == CustomMetrics.Sum(na);
    assert SideVolume(b, typeColumn, volumeColumn, side).value == CustomMetrics.Sum(nb);
  }

  /** Upper-case spellings of the side in the type cell count the same. */
  lemma SideMatchIgnoresCase(row: Row, typeColumn: string, side: string)
    requires CellAt(row, typeColumn).Text?
    ensures OnSide(row, typeColumn, side) <==>
            OnSide(row[typeColumn := Text(Lower(CellAt(row, typeColumn).text))], typeColumn, side)
  {
    LowerIdempotent(CellAt(row, typeColumn).text);
  }

  /** The file rule: no ratio exactly when the call volume is zero. */
  function FileRatio(put: real, call: real): (r: Option<real>)
    ensures r.None? <==> call == 0.0
    ensures r.Some? ==> r.value * call == put
  {
    if call == 0.0 then None else Some(put / call)
  }

  /** The file rule and the snapshot rule (no ratio when calls <= 0) agree
      except on a negative call volume, where only the file rule divides. */
  lemma RatioRulesDiffer(put: int, call: int)
    ensures FileRatio(put as real, call as real).None? != PutCallRatio.Ratio(put, call).None? <==> call < 0
    ensures call > 0 ==> FileRatio(put as real, call as real) == PutCallRatio.Ratio(put, call)
  {
  }

  /** The dictionary `calculate_put_call_ratio_from_file` returns. */
  datatype FileReport = FileReport(
    date: string, underlyingSymbol: string,
    putVolume: real, callVolume: real, ratio: Option<real>)

  /** The rows the ratio is computed over: filtered by underlying only when
      a non-empty symbol is given and the frame has that column. */
  function SelectRows(frame: Frame, underlying: Option<string>): (r: seq<Row>)
    ensures (underlying.None? || underlying.value == "" || "underlying_symbol" !in frame.columns) ==> r == frame.rows
    ensures underlying.Some? && underlying.value != "" && "underlying_symbol" in frame.columns ==>
              && r == FilterUnderlying(frame.rows, underlying.value)
              && forall i :: 0 <= i < |r| ==> CellAt(r[i], "underlying_symbol") == Text(underlying.value)
  {
    match underlying
    case Some(u) =>
      if u != "" && "underlying_symbol" in frame.columns then FilterUnderlying(frame.rows, u)
      else frame.rows
    case None => frame.rows
  }

  /** The reported symbol: the given one, or `ALL` when none (or an empty
      one) was given. */
  function ReportSymbol(underlying: Option<string>): (r: string)
    ensures r == "ALL" <==> underlying.None? || underlying.value == "" || underlying.value == "ALL"
    ensures underlying.Some? && underlying.value != "" ==> r == underlying.value
  {
    match underlying
    case Some(u) => if u == "" then "ALL" else u
    case None => "ALL"
  }

  /** The report over the selected rows, once both columns are known. */
  function RatioOfRows(date: string, symbol: string, rows: seq<Row>, typeColumn: string, volumeColumn: string)
    : (r: Result<FileReport, FlatFileError>)
    ensures r.Failure? <==> TextVolumeOnSide(rows, typeColumn, volumeColumn, "put")
                            || TextVolumeOnSide(rows, typeColumn, volumeColumn, "call")
    ensures r.Failure? ==> r.error == NonNumericVolume
    ensures r.Success? ==>
              && r.value.date == date && r.value.underlyingSymbol == symbol
              && r.value.putVolume == CustomMetrics.Sum(SideNumbers(rows, typeColumn, volumeColumn, "put"))
              && r.value.callVolume == CustomMetrics.Sum(SideNumbers(rows, typeColumn, volumeColumn, "call"))
              && r.value.ratio == FileRatio(r.value.putVolume, r.value.callVolume)
  {
    var put := SideVolume(rows, typeColumn, volumeColumn, "put");
    var call := SideVolume(rows, typeColumn, volumeColumn, "call");
    if put.Failure? then Failure(put.error)
    else if call.Failure? then Failure(call.error)
    else Success(FileReport(date, symbol, put.value, call.value, FileRatio(put.value, call.value)))
  }

  /** The ratio computed from a loaded frame of dataset `ds`. */
  function RatioFromFrame(date: string, frame: Frame, underlying: Option<string>, ds: OptionsDataset)
    : (r: Result<FileReport, FlatFileError>)
    ensures ContractTypeColumn(frame.columns).None? ==> r == Failure(NoContractTypeColumn(frame.columns))
    ensures ContractTypeColumn(frame.columns).Some? && VolumeColumn(ds) !in frame.columns ==>
              r == Failure(MissingColumn(VolumeColumn(ds)))
    ensures ContractTypeColumn(frame.columns).Some? && VolumeColumn(ds) in frame.columns && r.Failure? ==>
              r.error == NonNumericVolume
    ensures r.Success? ==> r.value.date == date && r.value.underlyingSymbol == ReportSymbol(underlying)
    ensures r.Success? ==> (r.value.ratio.None? <==> r.value.callVolume == 0.0)
    ensures r.Success? ==> r.value.ratio == FileRatio(r.value.putVolume, r.value.callVolume)
    ensures ContractTypeColumn(frame.columns).Some? && VolumeColumn(ds) in frame.columns ==>
              var rows, typeColumn := SelectRows(frame, underlying), ContractTypeColumn(frame.columns).value;
              && (r.Failure? <==> TextVolumeOnSide(rows, typeColumn, VolumeColumn(ds), "put")
                                  || TextVolumeOnSide(rows, typeColumn, VolumeColumn(ds), "call"))
              && (r.Success? ==>
                    && r.value.putVolume == CustomMetrics.Sum(SideNumbers(rows, typeColumn, VolumeColumn(ds), "put"))
                    && r.value.callVolume == CustomMetrics.Sum(SideNumbers(rows, typeColumn, VolumeColumn(ds), "call")))
  {
    match ContractTypeColumn(frame.columns)
    case None => Failure(NoContractTypeColumn(frame.columns))
    case Some(typeColumn) =>
      var volumeColumn := VolumeColumn(ds);
      if volumeColumn !in frame.columns then Failure(MissingColumn(volumeColumn))
      else
        RatioOfRows(date, ReportSymbol(underlying), SelectRows(frame, underlying), typeColumn, volumeColumn)
  }

  /** Put/call ratio for a date from the day-aggregate file (or the trades
      file when `useTrades`); `load` stands for downloading the key and
      reading the CSV. */
  function PutCallRatioFromFile(date: string, underlying: Option<string>, useTrades: bool,
                                load: string -> Frame): (r: Result<FileReport, FlatFileError>)
    ensures ParseDate(date).None? ==> r == Failure(BadDate(date))
    ensures ParseDate(date).Some? ==>
              var ds := if useTrades then Trades else DayAggregates;
              r == RatioFromFrame(date, load(ObjectKeyForDate(ds, date).value), underlying, ds)
  {
    var ds := if useTrades then Trades else DayAggregates;
    var key := ObjectKeyForDate(ds, date);
    if key.Failure? then Failure(key.error)
    else RatioFromFrame(date, load(key.value), underlying, ds)
  }

  /** A frame without an `underlying_symbol` column yields the same volumes
      whatever symbol is asked for. */
  lemma MissingUnderlyingColumnIgnoresSymbol(date: string, frame: Frame, u: string, ds: OptionsDataset)
    requires "underlying_symbol" !in frame.columns
    ensures var a := RatioFromFrame(date, frame, Some(u), ds);
            var b := RatioFromFrame(date, frame, None, ds);
            a.Success? == b.Success?
            && (a.Success? ==> a.value.putVolume == b.value.putVolume
                               && a.value.callVolume == b.value.callVolume
                               && a.value.ratio == b.value.ratio)
  {
  }
}
