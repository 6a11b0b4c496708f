/**
 * The conversion half of fxdata.py's script: choose the archives to convert, learn the
 * instrument universe from the newest one, then stream every archive and append each
 * row of a known instrument to that instrument's output file.
 */
module FxReshape {
  import opened Wrappers
  import opened Strings
  import opened DateTimes
  import opened FxRows
  import opened FxFetch

  // ---------------------------------------------------------------------------
  // sorted(...) over archive names
  // ---------------------------------------------------------------------------

  /** `a <= b <= c` as strings gives `a <= c`. */
  lemma NotLessTransitive(a: string, b: string, c: string)
    requires !StrLess(b, a) && !StrLess(c, b)
    ensures !StrLess(c, a)
  {
    if StrLess(c, a) {
      if a != b {
        StrLessTotal(a, b);
        StrLessTransitive(c, a, b);
      }
    }
  }

  /** One step of sorting: `x` goes in front of the first element that is not less than it. */
  function Insert(s: seq<string>, x: string): (r: seq<string>)
    ensures multiset(r) == multiset(s) + multiset{x}
  {
    if s == [] || !StrLess(s[0], x) then [x] + s
    else
      assert s == [s[0]] + s[1..];
      [s[0]] + Insert(s[1..], x)
  }

  lemma {:induction false} InsertSorted(s: seq<string>, x: string)
    requires Sorted(s)
    ensures Sorted(Insert(s, x))
    decreases |s|
  {
    if s != [] {
      if !StrLess(s[0], x) {
        var r := [x] + s;
        forall j | 0 <= j < |s| ensures !StrLess(s[j], x) {
          if j > 0 {
            NotLessTransitive(x, s[0], s[j]);
          }
        }
        assert forall i, j :: 0 < i < j < |r| ==> r[i] == s[i - 1] && r[j] == s[j - 1];
      } else {
        var tail := Insert(s[1..], x);
        InsertSorted(s[1..], x);
        forall j | 0 <= j < |tail| ensures !StrLess(tail[j], s[0]) {
          assert tail[j] in multiset(tail);
          if tail[j] == x {
            StrLessAsymmetric(s[0], x);
          } else {
            assert tail[j] in multiset(s[1..]);
            var k :| 1 <= k < |s| && s[k] == tail[j];
          }
        }
        var r := [s[0]] + tail;
        assert forall j :: 0 < j < |r| ==> r[j] == tail[j - 1];
      }
    }
  }

  /** `sorted(names)`: the names in ascending order, none lost or added. */
  method SortNames(names: seq<string>) returns (sorted: seq<string>)
    ensures Sorted(sorted) && multiset(sorted) == multiset(names)
  {
    sorted := [];
    for i := 0 to |names|
      invariant Sorted(sorted) && multiset(sorted) == multiset(names[..i])
    {
      InsertSorted(sorted, names[i]);
      sorted := Insert(sorted, names[i]);
      assert names[..i + 1] == names[..i] + [names[i]];
    }
    assert names[..|names|] == names;
  }

  /**
   * What `Path("./forexite/").glob("*.zip")` matches: a file directly in the archive
   * directory ending in ".zip"; pathlib's `*` also matches names starting with a dot.
   */
  predicate ZipName(f: string)
  {
    StartsWith(f, ARCHIVE_DIR) && |f| > |ARCHIVE_DIR| && EndsWith(f, ".zip") && '/' !in f[|ARCHIVE_DIR|..]
  }

  /** Every archive the fetch loop names is one the glob finds. */
  lemma LocalNameIsZip(d: Date)
    requires ValidDate(d)
    ensures ZipName(LocalName(d))
  {
    var f := LocalName(d);
    var y := Pad(d.year, 4);
    var rest := "-" + (Pad(d.month, 2) + ("-" + (Pad(d.day, 2) + ".zip")));
    ConcatCancel(ARCHIVE_DIR, y + rest, f[..|ARCHIVE_DIR|], f[|ARCHIVE_DIR|..]);
    assert '/' !in rest;
    assert f[|f| - 4..] == ".zip";
  }

  predicate Distinct(names: seq<string>)
  {
    forall i, j :: 0 <= i < j < |names| ==> names[i] != names[j]
  }

  /** `Path("./forexite/").glob("*.zip")`, in whatever order the directory lists them. */
  method GlobZips(archives: map<string, Archive>) returns (names: seq<string>)
    ensures forall f :: f in names <==> f in archives && ZipName(f)
    ensures Distinct(names)
  {
    names := [];
    var rest := archives.Keys;
    while rest != {}
      invariant rest <= archives.Keys
      invariant forall f :: f in names <==> f in archives && f !in rest && ZipName(f)
      invariant Distinct(names)
      decreases rest
    {
      var f :| f in rest;
      if ZipName(f) {
        names := names + [f];
      }
      rest := rest - {f};
    }
  }

  /**
   * Lines 108-111: the newly downloaded archives, or every archive on disk when there
   * are none, sorted by name.
   */
  method ChooseArchives(newFiles: seq<string>, archives: map<string, Archive>) returns (files: seq<string>)
    ensures Sorted(files)
    ensures newFiles != [] ==> multiset(files) == multiset(newFiles)
    ensures newFiles == [] ==> Distinct(files) && forall f :: f in files <==> f in archives && ZipName(f)
  {
    if newFiles != [] {
      files := SortNames(newFiles);
    } else {
      var found := GlobZips(archives);
      files := SortNames(found);
      forall f ensures f in files <==> f in found {
        assert f in files <==> f in multiset(files);
      }
      SortedDistinct(found, files);
    }
  }

  /** Sorting a list without repeats gives a list without repeats. */
  lemma SortedDistinct(found: seq<string>, files: seq<string>)
    requires Distinct(found) && multiset(files) == multiset(found)
    ensures Distinct(files)
  {
    forall i, j | 0 <= i < j < |files| ensures files[i] != files[j] {
      if files[i] == files[j] {
        var x := files[i];
        assert multiset(files)[x] >= 2 by {
          assert files == files[..j] + [x] + files[j + 1..];
          assert files[..j] == files[..i] + [x] + files[i + 1..j];
        }
        CountOnce(found, x);
      }
    }
  }

  lemma {:induction false} CountOnce(s: seq<string>, x: string)
    requires Distinct(s)
    ensures multiset(s)[x] <= 1
    decreases |s|
  {
    if s != [] {
      var init := s[..|s| - 1];
      assert s == init + [s[|s| - 1]];
      CountOnce(init, x);
      if s[|s| - 1] == x {
        assert x !in init;
      }
    }
  }

  /**
   * `files[-1]` is the newest archive: when the chosen names are local names of days,
   * no day among them is later than the day of the last name.
   */
  lemma LastArchiveIsNewest(files: seq<string>, d: Date, e: Date)
    requires Sorted(files) && files != []
    requires ValidDate(d) && ValidDate(e)
    requires LocalName(d) in files && LocalName(e) == files[|files| - 1]
    ensures !Before(e, d)
  {
    var i :| 0 <= i < |files| && files[i] == LocalName(d);
    if i < |files| - 1 {
      assert !StrLess(files[|files| - 1], files[i]);
    } else {
      StrLessIrreflexive(LocalName(e));
    }
    LocalNameOrder(e, d);
  }

  // ---------------------------------------------------------------------------
  // Reading the archives
  // ---------------------------------------------------------------------------

  datatype ReshapeError =
    | NoArchives                             // `files[-1]` on an empty list raises IndexError
    | MissingArchive(name: string)           // `zipfile.ZipFile(name)` finds no such file
    | NoHeader(name: string)                 // `next(f)` on an empty member raises StopIteration
    | BadRow(name: string, error: RowError)  // `parse_row` raises on a data line

  /** `parse_row(row.decode("utf-8").strip())`. */
  function ParseLine(line: string): (r: Result<Row, RowError>)
    ensures r.Ok? ==> ValidDateTime(r.value.bar.time)
  {
    ParseRow(Strip(line))
  }

  /** `f` applied to each line, in order. */
  function MapLines(f: string -> Result<Row, RowError>, lines: seq<string>): (results: seq<Result<Row, RowError>>)
    ensures |results| == |lines|
  {
    if lines == [] then [] else MapLines(f, lines[..|lines| - 1]) + [f(lines[|lines| - 1])]
  }

  /** Result `k` is `f` of line `k`. */
  lemma {:induction false} MapLinesIndex(f: string -> Result<Row, RowError>, lines: seq<string>, k: nat)
    requires k < |lines|
    ensures MapLines(f, lines)[k] == f(lines[k])
    decreases |lines|
  {
    var init := lines[..|lines| - 1];
    assert MapLines(f, lines) == MapLines(f, init) + [f(lines[|lines| - 1])];
    if k < |init| {
      MapLinesIndex(f, init, k);
      assert init[k] == lines[k];
    }
  }

  /** What `parse_row` makes of each line, line by line. */
  function ParseAll(lines: seq<string>): (results: seq<Result<Row, RowError>>)
    ensures |results| == |lines|
  {
    MapLines(ParseLine, lines)
  }

  /** `results[k]` is what `parse_row` makes of line `k`. */
  ghost predicate ParsedAt(results: seq<Result<Row, RowError>>, lines: seq<string>, k: int)
    requires 0 <= k < |results| == |lines|
  {
    results[k] == ParseLine(lines[k])
  }

  lemma ParseAllAt(lines: seq<string>)
    ensures forall k :: 0 <= k < |lines| ==> ParsedAt(ParseAll(lines), lines, k)
  {
    forall k | 0 <= k < |lines| ensures ParsedAt(ParseAll(lines), lines, k) {
      MapLinesIndex(ParseLine, lines, k);
    }
  }

  /**
   * The loop over the data lines of archive `name`, given what `parse_row` makes of
   * each: the rows in order, or the first rejection, which stops the script.
   */
  function Collect(name: string, results: seq<Result<Row, RowError>>): (r: Result<seq<Row>, ReshapeError>)
    ensures r.Ok? ==> |r.value| == |results|
    decreases |results|
  {
    if results == [] then Ok([])
    else
      match Collect(name, results[..|results| - 1])
      case Err(e) => Err(e)
      case Ok(rows) =>
        match results[|results| - 1]
        case Err(e) => Err(BadRow(name, e))
        case Ok(row) => Ok(rows + [row])
  }

  /** The rows of a pass that succeeds are what `parse_row` returned, line by line. */
  lemma {:induction false} CollectRows(name: string, results: seq<Result<Row, RowError>>)
    requires Collect(name, results).Ok?
    ensures forall i :: 0 <= i < |results| ==> results[i] == Ok(Collect(name, results).value[i])
    decreases |results|
  {
    if results != [] {
      var init := results[..|results| - 1];
      CollectRows(name, init);
      assert forall i :: 0 <= i < |init| ==> init[i] == results[i];
    }
  }

  /** Line `i` is the first line `parse_row` rejects. */
  predicate FirstBad(results: seq<Result<Row, RowError>>, i: nat)
  {
    i < |results| && results[i].Err? && forall j :: 0 <= j < i ==> results[j].Ok?
  }

  /** The pass over an archive's lines succeeds exactly when `parse_row` accepts every line. */
  lemma {:induction false} CollectOk(name: string, results: seq<Result<Row, RowError>>)
    ensures Collect(name, results).Ok? <==> forall i :: 0 <= i < |results| ==> results[i].Ok?
    decreases |results|
  {
    if results != [] {
      var init := results[..|results| - 1];
      CollectOk(name, init);
      assert forall i :: 0 <= i < |init| ==> init[i] == results[i];
    }
  }

  /** When it fails, it reports the first line `parse_row` rejects, naming the archive. */
  lemma {:induction false} CollectFirst(name: string, results: seq<Result<Row, RowError>>, i: nat)
    requires FirstBad(results, i)
    ensures Collect(name, results) == Err(BadRow(name, results[i].error))
    decreases |results|
  {
    var init := results[..|results| - 1];
    assert forall j :: 0 <= j < |init| ==> init[j] == results[j];
    if i < |init| {
      CollectFirst(name, init, i);
    } else {
      CollectOk(name, init);
    }
  }

  /** Opening archive `name`, skipping its header with `next(f)` and parsing the rest. */
  function ArchiveRows(name: string, archives: map<string, Archive>): Result<seq<Row>, ReshapeError>
  {
    if name !in archives then Err(MissingArchive(name))
    else if archives[name] == [] then Err(NoHeader(name))
    else Collect(name, ParseAll(archives[name][1..]))
  }

  /** The rows of every archive of `files`, archive after archive; the first failure stops the pass. */
  function AllRows(files: seq<string>, archives: map<string, Archive>): Result<seq<Row>, ReshapeError>
  {
    if files == [] then Ok([])
    else
      match AllRows(files[..|files| - 1], archives)
      case Err(e) => Err(e)
      case Ok(rows) =>
        match ArchiveRows(files[|files| - 1], archives)
        case Err(e) => Err(e)
        case Ok(more) => Ok(rows + more)
  }

  /** The tickers that occur in `rows`. */
  function Tickers(rows: seq<Row>): set<string>
  {
    set r | r in rows :: r.ticker
  }

  // ---------------------------------------------------------------------------
  // Writing the per-ticker files
  // ---------------------------------------------------------------------------

  /** The output directory: the lines of `./csv/{ticker}.csv`, by ticker. */
  type Outputs = map<string, seq<string>>

  /**
   * `"{}, {}, {}, {}, {}\n".format(*ohlc)`: the timestamp as `str(dt)` and the four
   * prices, each after a comma and a space; the ticker is not written.
   */
  function OutputLine(b: Bar): (line: string)
    ensures EndsWith(line, "\n")
  {
    JoinEndsWith([IsoFormat(b.time), " " + b.open, " " + b.high, " " + b.low, " " + (b.close + "\n")], ',', "\n");
    Join([IsoFormat(b.time), " " + b.open, " " + b.high, " " + b.low, " " + (b.close + "\n")], ',')
  }

  /** The lines the file of ticker `t` gains from `rows`: one for each row of `t`, in order. */
  function LinesFor(rows: seq<Row>, t: string): seq<string>
  {
    if rows == [] then []
    else
      var last := rows[|rows| - 1];
      LinesFor(rows[..|rows| - 1], t) + (if last.ticker == t then [OutputLine(last.bar)] else [])
  }

  /**
   * `open(f"./csv/{ticker}.csv", "a")` for every ticker of the universe: a file that
   * exists keeps its lines, a missing one is created empty.
   */
  function Open(csv: Outputs, universe: set<string>): (r: Outputs)
    ensures r.Keys == csv.Keys + universe
    ensures forall t :: t in csv ==> r[t] == csv[t]
    ensures forall t :: t in universe && t !in csv ==> r[t] == []
  {
    map t | t in csv.Keys + universe :: if t in csv then csv[t] else []
  }

  /** The bulk pass's writes: a row whose ticker has an open file is appended to it, any other is dropped. */
  function Append(out: Outputs, universe: set<string>, rows: seq<Row>): (r: Outputs)
    requires universe <= out.Keys
    ensures r.Keys == out.Keys
    decreases |rows|
  {
    if rows == [] then out
    else Write(Append(out, universe, rows[..|rows| - 1]), universe, rows[|rows| - 1])
  }

  /** Lines 139-141 for one row: `continue` past a ticker without a file, else write its line. */
  function Write(out: Outputs, universe: set<string>, row: Row): (r: Outputs)
    requires universe <= out.Keys
    ensures r.Keys == out.Keys
    ensures row.ticker in universe ==> r[row.ticker] == out[row.ticker] + [OutputLine(row.bar)]
    ensures forall t :: t in out && (t != row.ticker || row.ticker !in universe) ==> r[t] == out[t]
  {
    if row.ticker in universe then out[row.ticker := out[row.ticker] + [OutputLine(row.bar)]] else out
  }

  lemma AppendSnoc(out: Outputs, universe: set<string>, rows: seq<Row>, row: Row)
    requires universe <= out.Keys
    ensures Append(out, universe, rows + [row]) == Write(Append(out, universe, rows), universe, row)
  {
    assert (rows + [row])[..|rows|] == rows;
  }

  /**
   * What the bulk pass leaves in each file: a ticker of the universe gains exactly the
   * lines of its own rows, in order, after what it held; every other file is untouched.
   */
  lemma {:induction false} AppendContents(out: Outputs, universe: set<string>, rows: seq<Row>, t: string)
    requires universe <= out.Keys && t in out
    ensures Append(out, universe, rows)[t] == if t in universe then out[t] + LinesFor(rows, t) else out[t]
    decreases |rows|
  {
    if rows != [] {
      var init, last := rows[..|rows| - 1], rows[|rows| - 1];
      AppendContents(out, universe, init, t);
      assert Append(out, universe, rows) == Write(Append(out, universe, init), universe, last);
      assert LinesFor(rows, t) == LinesFor(init, t) + (if last.ticker == t then [OutputLine(last.bar)] else []);
    }
  }

  /**
   * Lines 117-141: learn the universe from the newest archive `files[-1]`, open a file
   * for each of its tickers, then append every row of every archive, in order, whose
   * ticker has a file.
   */
  function Reshape(files: seq<string>, archives: map<string, Archive>, csv: Outputs): (r: Result<Outputs, ReshapeError>)
    ensures files == [] ==> r == Err(NoArchives)
    ensures r.Ok? ==> csv.Keys <= r.value.Keys
  {
    if files == [] then Err(NoArchives)
    else
      match ArchiveRows(files[|files| - 1], archives)
      case Err(e) => Err(e)
      case Ok(latest) =>
        var universe := Tickers(latest);
        match AllRows(files, archives)
        case Err(e) => Err(e)
        case Ok(rows) => Ok(Append(Open(csv, universe), universe, rows))
  }

  /** A rejected line after accepted ones stops the pass with that line's error. */
  lemma StopsAt(name: string, results: seq<Result<Row, RowError>>, j: nat)
    requires j < |results| && Collect(name, results[..j]).Ok? && results[j].Err?
    ensures Collect(name, results) == Err(BadRow(name, results[j].error))
  {
    CollectOk(name, results[..j]);
    assert forall k :: 0 <= k < j ==> results[..j][k] == results[k];
    CollectFirst(name, results, j);
  }

  /** An archive that fails stops the bulk pass with its error, whatever follows it. */
  lemma {:induction false} AllRowsStops(files: seq<string>, archives: map<string, Archive>, i: nat)
    requires i < |files| && AllRows(files[..i], archives).Ok? && ArchiveRows(files[i], archives).Err?
    ensures AllRows(files, archives) == Err(ArchiveRows(files[i], archives).error)
    decreases |files|
  {
    var init := files[..|files| - 1];
    if i < |init| {
      assert init[..i] == files[..i] && init[i] == files[i];
      AllRowsStops(init, archives, i);
    } else {
      assert init == files[..i];
    }
  }

  /** Appending two runs of rows one after the other is appending their concatenation. */
  lemma {:induction false} AppendConcat(out: Outputs, universe: set<string>, a: seq<Row>, b: seq<Row>)
    requires universe <= out.Keys
    ensures Append(out, universe, a + b) == Append(Append(out, universe, a), universe, b)
    decreases |b|
  {
    if b == [] {
      assert a + b == a;
    } else {
      var init := b[..|b| - 1];
      assert (a + b)[..|a + b| - 1] == a + init;
      AppendConcat(out, universe, a, init);
    }
  }

  /** The lines of the rows of two runs are the lines of the first, then of the second. */
  lemma {:induction false} LinesForConcat(a: seq<Row>, b: seq<Row>, t: string)
    ensures LinesFor(a + b, t) == LinesFor(a, t) + LinesFor(b, t)
    decreases |b|
  {
    if b == [] {
      assert a + b == a;
    } else {
      var init := b[..|b| - 1];
      assert (a + b)[..|a + b| - 1] == a + init;
      LinesForConcat(a, init, t);
    }
  }

  /** The universe and the output directory as the discovery loop leaves them. */
  datatype Opened = Opened(universe: set<string>, csv: Outputs)

  lemma TickersSnoc(rows: seq<Row>, row: Row)
    ensures Tickers(rows + [row]) == Tickers(rows) + {row.ticker}
  {
    assert forall r :: r in rows + [row] <==> r in rows || r == row;
  }

  /** `if ticker not in file_handles: file_handles[ticker] = open(f"./csv/{ticker}.csv", "a")`. */
  method OpenFile(ticker: string, handles: set<string>, outputs: Outputs, csv: Outputs)
    returns (handles': set<string>, outputs': Outputs)
    requires outputs == Open(csv, handles)
    ensures handles' == handles + {ticker} && outputs' == Open(csv, handles')
  {
    handles', outputs' := handles, outputs;
    if ticker !in handles {
      handles' := handles + {ticker};
      outputs' := outputs[ticker := if ticker in outputs then outputs[ticker] else []];
    }
  }

  /**
   * Lines 121-127: the discovery loop over the data lines of the newest archive opens,
   * in append mode, a file for each ticker it meets, and writes nothing.
   */
  method DiscoverLines(name: string, data: seq<string>, results: seq<Result<Row, RowError>>, csv: Outputs)
    returns (r: Result<Opened, ReshapeError>)
    requires |results| == |data| && forall k :: 0 <= k < |data| ==> ParsedAt(results, data, k)
    ensures Collect(name, results).Err? ==> r == Err(Collect(name, results).error)
    ensures Collect(name, results).Ok? ==> r == Ok(Opened(Tickers(Collect(name, results).value), Open(csv, Tickers(Collect(name, results).value))))
  {
    var handles: set<string> := {};
    var outputs := csv;
    ghost var rows: seq<Row> := [];
    for j := 0 to |data|
      invariant Collect(name, results[..j]) == Ok(rows)
      invariant handles == Tickers(rows)
      invariant outputs == Open(csv, handles)
    {
      assert results[..j + 1][..j] == results[..j];
      var parsed := ParseLine(data[j]);
      assert ParsedAt(results, data, j);
      if parsed.Err? {
        StopsAt(name, results, j);
        return Err(BadRow(name, parsed.error));
      }
      handles, outputs := OpenFile(parsed.value.ticker, handles, outputs, csv);
      TickersSnoc(rows, parsed.value);
      rows := rows + [parsed.value];
    }
    assert results[..|data|] == results;
    r := Ok(Opened(handles, outputs));
  }

  /** Lines 118-127: open the newest archive, skip its header, discover its tickers. */
  method Discover(name: string, archives: map<string, Archive>, csv: Outputs) returns (r: Result<Opened, ReshapeError>)
    ensures ArchiveRows(name, archives).Err? ==> r == Err(ArchiveRows(name, archives).error)
    ensures ArchiveRows(name, archives).Ok? ==> r == Ok(Opened(Tickers(ArchiveRows(name, archives).value), Open(csv, Tickers(ArchiveRows(name, archives).value))))
  {
    if name !in archives {
      return Err(MissingArchive(name));
    }
    var lines := archives[name];
    if lines == [] {
      return Err(NoHeader(name));
    }
    ParseAllAt(lines[1..]);
    r := DiscoverLines(name, lines[1..], ParseAll(lines[1..]), csv);
  }

  /** Lines 139-141 for a parsed row: append its line to its ticker's file if that is open, or drop it. */
  method WriteRow(row: Row, universe: set<string>, written: Outputs) returns (r: Outputs)
    requires universe <= written.Keys
    ensures r.Keys == written.Keys
    ensures row.ticker in universe ==> r[row.ticker] == written[row.ticker] + [OutputLine(row.bar)]
    ensures forall t :: t in written && (t != row.ticker || row.ticker !in universe) ==> r[t] == written[t]
  {
    r := written;
    if row.ticker in universe {
      r := written[row.ticker := written[row.ticker] + [OutputLine(row.bar)]];
    }
  }

  /** The file contents `WriteRow` promises leave no other choice than `Write`'s. */
  lemma WriteDetermined(out: Outputs, universe: set<string>, row: Row, r: Outputs)
    requires universe <= out.Keys && r.Keys == out.Keys
    requires row.ticker in universe ==> r[row.ticker] == out[row.ticker] + [OutputLine(row.bar)]
    requires forall t :: t in out && (t != row.ticker || row.ticker !in universe) ==> r[t] == out[t]
    ensures r == Write(out, universe, row)
  {
  }

  /** Lines 136-141: every data line of archive `name`, in order, until one is rejected. */
  method AppendLines(name: string, data: seq<string>, results: seq<Result<Row, RowError>>, universe: set<string>, out: Outputs)
    returns (r: Result<Outputs, ReshapeError>)
    requires |results| == |data| && forall k :: 0 <= k < |data| ==> ParsedAt(results, data, k)
    requires universe <= out.Keys
    ensures Collect(name, results).Err? ==> r == Err(Collect(name, results).error)
    ensures Collect(name, results).Ok? ==> r == Ok(Append(out, universe, Collect(name, results).value))
  {
    var written := out;
    ghost var rows: seq<Row> := [];
    for j := 0 to |data|
      invariant Collect(name, results[..j]) == Ok(rows)
      invariant written == Append(out, universe, rows)
    {
      assert results[..j + 1][..j] == results[..j];
      var parsed := ParseLine(data[j]);
      assert ParsedAt(results, data, j);
      if parsed.Err? {
        StopsAt(name, results, j);
        return Err(BadRow(name, parsed.error));
      }
      AppendSnoc(out, universe, rows, parsed.value);
      var before := written;
      written := WriteRow(parsed.value, universe, written);
      WriteDetermined(before, universe, parsed.value, written);
      rows := rows + [parsed.value];
    }
    assert results[..|data|] == results;
    r := Ok(written);
  }

  /** Lines 131-141 for one archive: open it, skip the header, append its lines. */
  method AppendArchive(name: string, archives: map<string, Archive>, universe: set<string>, out: Outputs)
    returns (r: Result<Outputs, ReshapeError>)
    requires universe <= out.Keys
    ensures ArchiveRows(name, archives).Err? ==> r == Err(ArchiveRows(name, archives).error)
    ensures ArchiveRows(name, archives).Ok? ==> r == Ok(Append(out, universe, ArchiveRows(name, archives).value))
  {
    if name !in archives {
      return Err(MissingArchive(name));
    }
    var lines := archives[name];
    if lines == [] {
      return Err(NoHeader(name));
    }
    ParseAllAt(lines[1..]);
    r := AppendLines(name, lines[1..], ParseAll(lines[1..]), universe, out);
  }

  /** Lines 129-141: the bulk pass over every archive, in the sorted order of `files`. */
  method BulkPass(files: seq<string>, archives: map<string, Archive>, universe: set<string>, start: Outputs)
    returns (r: Result<Outputs, ReshapeError>)
    requires universe <= start.Keys
    ensures AllRows(files, archives).Err? ==> r == Err(AllRows(files, archives).error)
    ensures AllRows(files, archives).Ok? ==> r == Ok(Append(start, universe, AllRows(files, archives).value))
  {
    var out := start;
    ghost var rows: seq<Row> := [];
    for i := 0 to |files|
      invariant AllRows(files[..i], archives) == Ok(rows)
      invariant out == Append(start, universe, rows)
    {
      assert files[..i + 1][..i] == files[..i];
      var step := AppendArchive(files[i], archives, universe, out);
      if step.Err? {
        AllRowsStops(files, archives, i);
        return step;
      }
      ghost var more := ArchiveRows(files[i], archives).value;
      AppendConcat(start, universe, rows, more);
      rows := rows + more;
      out := step.value;
    }
    assert files[..|files|] == files;
    r := Ok(out);
  }

  /** Lines 117-141: discovery over `files[-1]`, then the bulk pass. */
  method Convert(files: seq<string>, archives: map<string, Archive>, csv: Outputs) returns (r: Result<Outputs, ReshapeError>)
    ensures r == Reshape(files, archives, csv)
  {
    if |files| == 0 {
      return Err(NoArchives);
    }
    var discovered := Discover(files[|files| - 1], archives, csv);
    if discovered.Err? {
      return Err(discovered.error);
    }
    r := BulkPass(files, archives, discovered.value.universe, discovered.value.csv);
  }

  // ---------------------------------------------------------------------------
  // What a conversion does to the output directory
  // ---------------------------------------------------------------------------

  /**
   * The files a successful conversion leaves: one for every ticker that had one and
   * every ticker of the newest archive; a ticker of the newest archive gains exactly
   * the lines of its own rows from all archives, in archive-then-line order, after
   * what its file held (append mode); every other file, including that of a ticker
   * seen only in older archives, is left as it was.
   */
  lemma ReshapeOutputs(files: seq<string>, archives: map<string, Archive>, csv: Outputs)
    requires files != [] && Reshape(files, archives, csv).Ok?
    ensures var latest := ArchiveRows(files[|files| - 1], archives).value;
            var rows := AllRows(files, archives).value;
            var out := Reshape(files, archives, csv).value;
            && out.Keys == csv.Keys + Tickers(latest)
            && (forall t :: t in Tickers(latest) ==> out[t] == (if t in csv then csv[t] else []) + LinesFor(rows, t))
            && (forall t :: t in csv && t !in Tickers(latest) ==> out[t] == csv[t])
  {
    var universe := Tickers(ArchiveRows(files[|files| - 1], archives).value);
    var rows := AllRows(files, archives).value;
    var start := Open(csv, universe);
    forall t | t in start
      ensures Append(start, universe, rows)[t] == if t in universe then start[t] + LinesFor(rows, t) else start[t]
    {
      AppendContents(start, universe, rows, t);
    }
  }

  /** A successful pass over `files` is a successful pass over all but the last, then the last. */
  lemma AllRowsSnoc(files: seq<string>, archives: map<string, Archive>)
    requires files != [] && AllRows(files, archives).Ok?
    ensures AllRows(files[..|files| - 1], archives).Ok? && ArchiveRows(files[|files| - 1], archives).Ok?
    ensures AllRows(files, archives).value
            == AllRows(files[..|files| - 1], archives).value + ArchiveRows(files[|files| - 1], archives).value
  {
  }

  /**
   * `files[-1]` is read twice, by the discovery loop and by the bulk pass, but its rows
   * are written once: a ticker's file ends with the lines of the older archives'
   * rows, then those of the newest archive's rows, each once.
   */
  lemma LastArchiveOnce(files: seq<string>, archives: map<string, Archive>, csv: Outputs, t: string)
    requires files != [] && Reshape(files, archives, csv).Ok?
    requires t in Tickers(ArchiveRows(files[|files| - 1], archives).value)
    ensures AllRows(files[..|files| - 1], archives).Ok?
    ensures var latest := ArchiveRows(files[|files| - 1], archives).value;
            var older := AllRows(files[..|files| - 1], archives).value;
            Reshape(files, archives, csv).value[t]
            == (if t in csv then csv[t] else []) + LinesFor(older, t) + LinesFor(latest, t)
  {
    AllRowsSnoc(files, archives);
    var latest := ArchiveRows(files[|files| - 1], archives).value;
    var older := AllRows(files[..|files| - 1], archives).value;
    TwoPasses(csv, Tickers(latest), older, latest, t);
  }

  /** Writing `older + latest` writes the lines of `older`, then those of `latest`. */
  lemma TwoPasses(csv: Outputs, universe: set<string>, older: seq<Row>, latest: seq<Row>, t: string)
    requires t in universe
    ensures Append(Open(csv, universe), universe, older + latest)[t]
            == (if t in csv then csv[t] else []) + LinesFor(older, t) + LinesFor(latest, t)
  {
    var start := Open(csv, universe);
    AppendContents(start, universe, older + latest, t);
    LinesForConcat(older, latest, t);
    assert start[t] + (LinesFor(older, t) + LinesFor(latest, t)) == start[t] + LinesFor(older, t) + LinesFor(latest, t);
  }

  /**
   * How a conversion fails: with no archive at all; with the newest archive's error,
   * found by the discovery loop before any older archive is read; or with the first
   * error of the bulk pass.
   */
  lemma ReshapeErrors(files: seq<string>, archives: map<string, Archive>, csv: Outputs)
    ensures files == [] ==> Reshape(files, archives, csv) == Err(NoArchives)
    ensures files != [] && ArchiveRows(files[|files| - 1], archives).Err? ==>
              Reshape(files, archives, csv) == Err(ArchiveRows(files[|files| - 1], archives).error)
    ensures files != [] && ArchiveRows(files[|files| - 1], archives).Ok? && AllRows(files, archives).Err? ==>
              Reshape(files, archives, csv) == Err(AllRows(files, archives).error)
    ensures Reshape(files, archives, csv).Ok? <==> files != [] && AllRows(files, archives).Ok?
  {
    if files != [] && AllRows(files, archives).Ok? {
      AllRowsSnoc(files, archives);
    }
  }

  /** The tickers of a successful pass are exactly those of its accepted results. */
  lemma CollectTickers(name: string, results: seq<Result<Row, RowError>>, t: string)
    requires Collect(name, results).Ok?
    ensures t in Tickers(Collect(name, results).value)
            <==> exists i :: 0 <= i < |results| && results[i].Ok? && results[i].value.ticker == t
  {
    var rows := Collect(name, results).value;
    CollectRows(name, results);
    if t in Tickers(rows) {
      var r :| r in rows && r.ticker == t;
      var i :| 0 <= i < |rows| && rows[i] == r;
      assert results[i] == Ok(r);
    }
    if exists i :: 0 <= i < |results| && results[i].Ok? && results[i].value.ticker == t {
      var i :| 0 <= i < |results| && results[i].Ok? && results[i].value.ticker == t;
      assert rows[i] in rows;
    }
  }

  /** The universe is exactly the tickers of the newest archive's data lines. */
  lemma UniverseOfNewest(name: string, archives: map<string, Archive>, t: string)
    requires ArchiveRows(name, archives).Ok?
    ensures var data := archives[name][1..];
            t in Tickers(ArchiveRows(name, archives).value)
            <==> exists i :: 0 <= i < |data| && ParseLine(data[i]).Ok? && ParseLine(data[i]).value.ticker == t
  {
    var data := archives[name][1..];
    var results := ParseAll(data);
    CollectTickers(name, results, t);
    ParseAllAt(data);
    if exists i :: 0 <= i < |results| && results[i].Ok? && results[i].value.ticker == t {
      var i :| 0 <= i < |results| && results[i].Ok? && results[i].value.ticker == t;
      assert ParsedAt(results, data, i);
    }
    if exists i :: 0 <= i < |data| && ParseLine(data[i]).Ok? && ParseLine(data[i]).value.ticker == t {
      var i :| 0 <= i < |data| && ParseLine(data[i]).Ok? && ParseLine(data[i]).value.ticker == t;
      assert ParsedAt(results, data, i);
    }
  }

  /** `str(dt)` holds no comma. */
  lemma IsoFormatNoComma(t: DateTime)
    ensures ',' !in IsoFormat(t)
  {
    var parts := [Pad(t.date.year, 4), Pad(t.date.month, 2), Pad(t.date.day, 2), Pad(t.hour, 2), Pad(t.minute, 2), Pad(t.second, 2)];
    forall k | 0 <= k < |parts| ensures ',' !in parts[k] {
      assert AllDigits(parts[k]);
    }
  }

  /** `str(dt)` holds no line break. */
  lemma IsoFormatNoNewline(t: DateTime)
    ensures '\n' !in IsoFormat(t)
  {
    var parts := [Pad(t.date.year, 4), Pad(t.date.month, 2), Pad(t.date.day, 2), Pad(t.hour, 2), Pad(t.minute, 2), Pad(t.second, 2)];
    forall k | 0 <= k < |parts| ensures '\n' !in parts[k] {
      assert AllDigits(parts[k]);
    }
  }

  /**
   * A row whose prices hold no line break is written as exactly one line: its only
   * newline is the last character.
   */
  lemma OutputLineOneLine(b: Bar)
    requires '\n' !in b.open && '\n' !in b.high && '\n' !in b.low && '\n' !in b.close
    ensures var line := OutputLine(b);
            |line| > 0 && line[|line| - 1] == '\n' && '\n' !in line[..|line| - 1]
  {
    IsoFormatNoNewline(b.time);
    var parts := [IsoFormat(b.time), " " + b.open, " " + b.high, " " + b.low, " " + (b.close + "\n")];
    var line := OutputLine(b);
    assert Join(parts[4..], ',') == " " + (b.close + "\n");
    assert Join(parts[3..], ',') == " " + b.low + [','] + Join(parts[4..], ',');
    assert Join(parts[2..], ',') == " " + b.high + [','] + Join(parts[3..], ',');
    assert Join(parts[1..], ',') == " " + b.open + [','] + Join(parts[2..], ',');
    assert line == IsoFormat(b.time) + [','] + Join(parts[1..], ',');
    var body := IsoFormat(b.time) + [','] + (" " + b.open + [','] + (" " + b.high + [','] + (" " + b.low + [','] + (" " + b.close))));
    assert line == body + "\n";
    assert line[..|line| - 1] == body;
  }

  /**
   * A written line splits on commas into five fields: the timestamp, then each price
   * after one space (the last with the newline); no field holds the ticker.
   */
  lemma OutputLineFields(b: Bar)
    requires ',' !in b.open && ',' !in b.high && ',' !in b.low && ',' !in b.close
    ensures Split(OutputLine(b), ',') == [IsoFormat(b.time), " " + b.open, " " + b.high, " " + b.low, " " + (b.close + "\n")]
  {
    IsoFormatNoComma(b.time);
    SplitJoin([IsoFormat(b.time), " " + b.open, " " + b.high, " " + b.low, " " + (b.close + "\n")], ',');
  }

  // ---------------------------------------------------------------------------
  // The whole script
  // ---------------------------------------------------------------------------

  datatype ScriptError =
    | FetchFailed(fetch: FetchError)
    | ConvertFailed(convert: ReshapeError)

  /**
   * What a run of the script leaves: the archive directory, the output directory,
   * the archives it converted, and the error that stopped it, if any.
   */
  datatype ScriptRun = ScriptRun(archives: map<string, Archive>, csv: Outputs, files: seq<string>, failure: Option<ScriptError>)

  /**
   * Lines 80-145: fetch the missing days of the window, then convert the new archives
   * (or, when there are none, every archive on disk) in name order.
   */
  method RunScript(today: Date, archives: map<string, Archive>, remote: map<string, Archive>, csv: Outputs)
    returns (run: ScriptRun)
    requires ValidDate(today)
    ensures var fetched := FetchUpTo(today, WINDOW_END - 1, archives, remote);
            && run.archives == fetched.archives
            && (fetched.failure.Some? ==> run == ScriptRun(fetched.archives, csv, [], Some(FetchFailed(fetched.failure.value))))
    ensures var fetched := FetchUpTo(today, WINDOW_END - 1, archives, remote);
            fetched.failure.None? ==>
              && Sorted(run.files)
              && (fetched.newFiles != [] ==> multiset(run.files) == multiset(fetched.newFiles))
              && (fetched.newFiles == [] ==> Distinct(run.files) && forall f :: f in run.files <==> f in fetched.archives && ZipName(f))
              && (var converted := Reshape(run.files, fetched.archives, csv);
                  && (converted.Ok? ==> run.csv == converted.value && run.failure.None?)
                  && (converted.Err? ==> run.csv == csv && run.failure == Some(ConvertFailed(converted.error))))
  {
    var fetched := FetchMissing(today, archives, remote);
    if fetched.failure.Some? {
      return ScriptRun(fetched.archives, csv, [], Some(FetchFailed(fetched.failure.value)));
    }
    var files := ChooseArchives(fetched.newFiles, fetched.archives);
    var converted := Convert(files, fetched.archives, csv);
    match converted
    case Ok(out) => run := ScriptRun(fetched.archives, out, files, None);
    case Err(e) => run := ScriptRun(fetched.archives, csv, files, Some(ConvertFailed(e)));
  }
}
