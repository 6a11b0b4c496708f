/**
 * The download half of fxdata.py's script: the remote URL and the local archive name
 * of a day, and the loop that fetches every day of the seven-year window whose
 * archive is not yet on disk.
 */
module FxFetch {
  import opened Wrappers
  import opened Strings
  import opened DateTimes

  /** One daily archive: the lines of the single file inside the zip, header first. */
  type Archive = seq<string>

  const URL_PREFIX := "https://www.forexite.com/free_forex_quotes/"
  const ARCHIVE_DIR := "./forexite/"

  /** `range(1, 7 * 365)` walks the offsets 1 .. WINDOW_END - 1 days back from today. */
  const WINDOW_END := 7 * 365

  // ---------------------------------------------------------------------------
  // Naming a day
  // ---------------------------------------------------------------------------

  /** `"./forexite/{:04d}-{:02d}-{:02d}.zip"`. */
  function LocalName(d: Date): (f: string)
    requires ValidDate(d)
    ensures StartsWith(f, ARCHIVE_DIR) && EndsWith(f, ".zip")
  {
    ARCHIVE_DIR + (Pad(d.year, 4) + ("-" + (Pad(d.month, 2) + ("-" + (Pad(d.day, 2) + ".zip")))))
  }

  /** `int(str(year)[-2:])`. */
  function ShortYear(year: nat): nat
  {
    DigitsValue(LastTwo(Decimal(year)))
  }

  lemma ShortYearIsMod(year: nat)
    ensures ShortYear(year) == year % 100
  {
    LastTwoDigits(year);
  }

  /** The part of the URL after the year. */
  function UrlTail(d: Date): string
    requires ValidDate(d)
  {
    "/" + (Pad(d.month, 2) + ("/" + (Pad(d.day, 2) + (Pad(d.month, 2) + (Pad(d.year % 100, 2) + ".zip")))))
  }

  /**
   * `".../free_forex_quotes/{}/{:02d}/{:02d}{:02d}{:02d}.zip"` filled with year, month,
   * day, month and `year_2`, written here as `year % 100` (equal to `ShortYear` by
   * `ShortYearIsMod`).
   */
  function Url(d: Date): (u: string)
    requires ValidDate(d)
    ensures StartsWith(u, URL_PREFIX) && EndsWith(u, ".zip")
  {
    URL_PREFIX + (Decimal(d.year) + UrlTail(d))
  }

  /** A common prefix does not decide the order. */
  lemma SamePrefixOrder(p: string, r1: string, r2: string)
    ensures StrLess(p + r1, p + r2) <==> StrLess(r1, r2)
  {
    StrLessConcat(p, r1, p, r2);
    StrLessIrreflexive(p);
  }

  /** A zero-padded field compares as its number; on a tie the rest decides. */
  lemma PaddedFieldOrder(n1: nat, n2: nat, w: nat, r1: string, r2: string)
    requires n1 < Pow10(w) && n2 < Pow10(w)
    ensures StrLess(Pad(n1, w) + r1, Pad(n2, w) + r2) <==> n1 < n2 || (n1 == n2 && StrLess(r1, r2))
  {
    StrLessConcat(Pad(n1, w), r1, Pad(n2, w), r2);
    PadOrder(n1, n2, w);
    if Pad(n1, w) == Pad(n2, w) {
      PadInjective(n1, n2, w);
    }
  }

  /** Sorting local names as text sorts the days chronologically. */
  lemma LocalNameOrder(a: Date, b: Date)
    requires ValidDate(a) && ValidDate(b)
    ensures StrLess(LocalName(a), LocalName(b)) <==> Before(a, b)
  {
    assert Pow10(2) == 100 && Pow10(4) == 10000;
    var ta, tb := Pad(a.day, 2) + ".zip", Pad(b.day, 2) + ".zip";
    var sa, sb := Pad(a.month, 2) + ("-" + ta), Pad(b.month, 2) + ("-" + tb);
    var ra, rb := Pad(a.year, 4) + ("-" + sa), Pad(b.year, 4) + ("-" + sb);
    SamePrefixOrder(ARCHIVE_DIR, ra, rb);
    PaddedFieldOrder(a.year, b.year, 4, "-" + sa, "-" + sb);
    SamePrefixOrder("-", sa, sb);
    PaddedFieldOrder(a.month, b.month, 2, "-" + ta, "-" + tb);
    SamePrefixOrder("-", ta, tb);
    PaddedFieldOrder(a.day, b.day, 2, ".zip", ".zip");
    StrLessIrreflexive(".zip");
  }

  /** Distinct days never share a local archive. */
  lemma LocalNameInjective(a: Date, b: Date)
    requires ValidDate(a) && ValidDate(b) && LocalName(a) == LocalName(b)
    ensures a == b
  {
    LocalNameOrder(a, b);
    LocalNameOrder(b, a);
    StrLessIrreflexive(LocalName(a));
  }

  /** Distinct days never share a download URL either: the year field ends at the first '/'. */
  lemma UrlInjective(a: Date, b: Date)
    requires ValidDate(a) && ValidDate(b)
    requires Url(a) == Url(b)
    ensures a == b
  {
    assert Pow10(2) == 100;
    ConcatCancel(URL_PREFIX, Decimal(a.year) + UrlTail(a), URL_PREFIX, Decimal(b.year) + UrlTail(b));
    assert '/' !in Decimal(a.year) && '/' !in Decimal(b.year) by {
      assert forall i :: 0 <= i < |Decimal(a.year)| ==> IsDigit(Decimal(a.year)[i]);
      assert forall i :: 0 <= i < |Decimal(b.year)| ==> IsDigit(Decimal(b.year)[i]);
    }
    FieldCancel(Decimal(a.year), UrlTail(a), Decimal(b.year), UrlTail(b), '/');
    DecimalValue(a.year);
    DecimalValue(b.year);
    ConcatCancel("/", Pad(a.month, 2) + ("/" + (Pad(a.day, 2) + (Pad(a.month, 2) + (Pad(a.year % 100, 2) + ".zip")))),
                 "/", Pad(b.month, 2) + ("/" + (Pad(b.day, 2) + (Pad(b.month, 2) + (Pad(b.year % 100, 2) + ".zip")))));
    ConcatCancel(Pad(a.month, 2), "/" + (Pad(a.day, 2) + (Pad(a.month, 2) + (Pad(a.year % 100, 2) + ".zip"))),
                 Pad(b.month, 2), "/" + (Pad(b.day, 2) + (Pad(b.month, 2) + (Pad(b.year % 100, 2) + ".zip"))));
    ConcatCancel("/", Pad(a.day, 2) + (Pad(a.month, 2) + (Pad(a.year % 100, 2) + ".zip")),
                 "/", Pad(b.day, 2) + (Pad(b.month, 2) + (Pad(b.year % 100, 2) + ".zip")));
    ConcatCancel(Pad(a.day, 2), Pad(a.month, 2) + (Pad(a.year % 100, 2) + ".zip"),
                 Pad(b.day, 2), Pad(b.month, 2) + (Pad(b.year % 100, 2) + ".zip"));
    PadInjective(a.month, b.month, 2);
    PadInjective(a.day, b.day, 2);
  }

  // ---------------------------------------------------------------------------
  // Fetching the window
  // ---------------------------------------------------------------------------

  datatype FetchError =
    | DateOverflow(offset: nat)   // `date - timedelta(days=x)` leaves year 1
    | DownloadFailed(url: string) // `urlretrieve` raises; the script stops

  /**
   * The state a fetch run leaves: the local archives by name, `new_files` in the
   * order they were appended, and what stopped the run early, if anything.
   */
  datatype FetchRun = FetchRun(archives: map<string, Archive>, newFiles: seq<string>, failure: Option<FetchError>)

  /** The days the loop visits, `date - timedelta(days=x)` for x = 1 .. n, in loop order. */
  function WindowDays(today: Date, n: nat): (days: seq<Option<Date>>)
    requires ValidDate(today)
    ensures |days| == n
    ensures forall i :: 0 <= i < n ==> days[i] == DaysBefore(today, i + 1)
  {
    if n == 0 then [] else WindowDays(today, n - 1) + [DaysBefore(today, n)]
  }

  /** One turn of the loop, for the `x`-th day: skip a day already on disk, otherwise download it. */
  function FetchDay(x: nat, day: Option<Date>, run: FetchRun, remote: map<string, Archive>): (next: FetchRun)
    requires day.Some? ==> ValidDate(day.value)
    ensures forall f :: f in run.archives ==> f in next.archives && next.archives[f] == run.archives[f]
    ensures next.newFiles == run.newFiles || (day.Some? && next.newFiles == run.newFiles + [LocalName(day.value)] && LocalName(day.value) !in run.archives)
    ensures next.archives.Keys == run.archives.Keys + (set f | f in next.newFiles[|run.newFiles|..])
    ensures next.failure.None? ==> day.Some? && LocalName(day.value) in next.archives
  {
    match day
    case None => run.(failure := Some(DateOverflow(x)))
    case Some(d) =>
      var file := LocalName(d);
      if file in run.archives then run
      else if Url(d) in remote then FetchRun(run.archives[file := remote[Url(d)]], run.newFiles + [file], None)
      else run.(failure := Some(DownloadFailed(Url(d))))
  }

  predicate ValidDays(days: seq<Option<Date>>)
  {
    forall i :: 0 <= i < |days| && days[i].Some? ==> ValidDate(days[i].value)
  }

  /** The loop over a sequence of days, stopping at the first failure. */
  function FetchOver(days: seq<Option<Date>>, archives: map<string, Archive>, remote: map<string, Archive>): FetchRun
    requires ValidDays(days)
  {
    if days == [] then FetchRun(archives, [], None)
    else
      var run := FetchOver(days[..|days| - 1], archives, remote);
      if run.failure.Some? then run else FetchDay(|days|, days[|days| - 1], run, remote)
  }

  /** The loop over offsets 1 .. n back from today. */
  function FetchUpTo(today: Date, n: nat, archives: map<string, Archive>, remote: map<string, Archive>): FetchRun
    requires ValidDate(today)
  {
    FetchOver(WindowDays(today, n), archives, remote)
  }

  /** One turn of the script's download loop: the `x`-th day back from `today`. */
  method FetchDayOf(x: nat, today: Date, local: map<string, Archive>, newFiles: seq<string>, remote: map<string, Archive>)
    returns (next: FetchRun)
    requires ValidDate(today)
    ensures next == FetchDay(x, DaysBefore(today, x), FetchRun(local, newFiles, None), remote)
    ensures DaysBefore(today, x).None? ==> next == FetchRun(local, newFiles, Some(DateOverflow(x)))
    ensures DaysBefore(today, x).Some? ==>
              var d := DaysBefore(today, x).value;
              && (LocalName(d) in local ==> next == FetchRun(local, newFiles, None))
              && (LocalName(d) !in local && Url(d) in remote ==>
                    next == FetchRun(local[LocalName(d) := remote[Url(d)]], newFiles + [LocalName(d)], None))
              && (LocalName(d) !in local && Url(d) !in remote ==>
                    next == FetchRun(local, newFiles, Some(DownloadFailed(Url(d)))))
  {
    var day := DaysBefore(today, x);
    if day.None? {
      return FetchRun(local, newFiles, Some(DateOverflow(x)));
    }
    var date := day.value;
    var download := Url(date);
    var file := LocalName(date);
    if file in local {
      return FetchRun(local, newFiles, None);
    }
    if download !in remote {
      return FetchRun(local, newFiles, Some(DownloadFailed(download)));
    }
    next := FetchRun(local[file := remote[download]], newFiles + [file], None);
  }

  /** The script's download loop, against a local directory and a remote server. */
  method FetchMissing(today: Date, archives: map<string, Archive>, remote: map<string, Archive>)
    returns (run: FetchRun)
    requires ValidDate(today)
    ensures run == FetchUpTo(today, WINDOW_END - 1, archives, remote)
  {
    var local := archives;
    var newFiles: seq<string> := [];
    for x := 1 to WINDOW_END
      invariant FetchUpTo(today, x - 1, archives, remote) == FetchRun(local, newFiles, None)
    {
      WindowStep(today, x, archives, remote);
      var next := FetchDayOf(x, today, local, newFiles, remote);
      if next.failure.Some? {
        StopsAtFailure(today, x, WINDOW_END - 1, archives, remote);
        return next;
      }
      local, newFiles := next.archives, next.newFiles;
    }
    run := FetchRun(local, newFiles, None);
  }

  /** Visiting the window of `x` days is visiting the window of `x - 1` days, then day `x`. */
  lemma WindowStep(today: Date, x: nat, archives: map<string, Archive>, remote: map<string, Archive>)
    requires ValidDate(today) && x >= 1
    ensures var run := FetchUpTo(today, x - 1, archives, remote);
            FetchUpTo(today, x, archives, remote)
            == if run.failure.Some? then run else FetchDay(x, DaysBefore(today, x), run, remote)
  {
    assert WindowDays(today, x)[..x - 1] == WindowDays(today, x - 1);
  }

  /** Once a run has failed on a prefix of the days, the remaining days change nothing. */
  lemma {:induction false} FailureIsFinal(days: seq<Option<Date>>, k: nat, archives: map<string, Archive>, remote: map<string, Archive>)
    requires ValidDays(days) && k <= |days|
    requires FetchOver(days[..k], archives, remote).failure.Some?
    ensures FetchOver(days, archives, remote) == FetchOver(days[..k], archives, remote)
    decreases |days|
  {
    if k < |days| {
      var init := days[..|days| - 1];
      assert init[..k] == days[..k];
      FailureIsFinal(init, k, archives, remote);
      assert FetchOver(init, archives, remote).failure.Some?;
    } else {
      assert days[..k] == days;
    }
  }

  /** A run that fails at day `x` of the window ends there, however long the window. */
  lemma StopsAtFailure(today: Date, x: nat, n: nat, archives: map<string, Archive>, remote: map<string, Archive>)
    requires ValidDate(today) && x <= n
    requires FetchUpTo(today, x, archives, remote).failure.Some?
    ensures FetchUpTo(today, n, archives, remote) == FetchUpTo(today, x, archives, remote)
  {
    assert WindowDays(today, n)[..x] == WindowDays(today, x);
    FailureIsFinal(WindowDays(today, n), x, archives, remote);
  }

  /** `f` is the local name of one of `days`. */
  ghost predicate NameOf(days: seq<Option<Date>>, f: string)
    requires ValidDays(days)
  {
    exists i :: 0 <= i < |days| && days[i].Some? && f == LocalName(days[i].value)
  }

  /** Later days in the sequence are strictly earlier in the calendar. */
  ghost predicate GoingBack(days: seq<Option<Date>>)
  {
    forall i, j :: 0 <= i < j < |days| && days[i].Some? && days[j].Some? ==> Before(days[j].value, days[i].value)
  }

  /** Names appended newer day first: each one sorts strictly before the previous. */
  predicate NewestFirst(names: seq<string>)
  {
    forall i, j :: 0 <= i < j < |names| ==> StrLess(names[j], names[i])
  }

  /** Every archive that was on disk is still there, unchanged. */
  ghost predicate KeepsArchives(archives: map<string, Archive>, local: map<string, Archive>)
  {
    forall f :: f in archives ==> f in local && local[f] == archives[f]
  }

  /** The names on disk are the old ones and the appended ones. */
  ghost predicate RecordsNames(archives: map<string, Archive>, local: map<string, Archive>, names: seq<string>)
  {
    local.Keys == archives.Keys + (set f | f in names)
  }

  /** Every appended name is a name of `days` that was not on disk. */
  ghost predicate NamesFrom(days: seq<Option<Date>>, archives: map<string, Archive>, names: seq<string>)
    requires ValidDays(days)
  {
    forall i :: 0 <= i < |names| ==> names[i] !in archives && NameOf(days, names[i])
  }

  /** What the loop keeps true over `days`, whether or not it has failed. */
  ghost predicate FetchShape(days: seq<Option<Date>>, archives: map<string, Archive>, run: FetchRun)
    requires ValidDays(days)
  {
    && KeepsArchives(archives, run.archives)
    && RecordsNames(archives, run.archives, run.newFiles)
    && NamesFrom(days, archives, run.newFiles)
    && NewestFirst(run.newFiles)
  }

  /** What the loop keeps true over `days` while nothing has failed. */
  ghost predicate FetchComplete(days: seq<Option<Date>>, archives: map<string, Archive>, run: FetchRun)
    requires ValidDays(days)
  {
    && (forall i :: 0 <= i < |days| ==> days[i].Some? && LocalName(days[i].value) in run.archives)
    && (forall f :: NameOf(days, f) && f !in archives ==> f in run.newFiles)
  }

  lemma NameOfGrows(days: seq<Option<Date>>, day: Option<Date>, f: string)
    requires ValidDays(days) && (day.Some? ==> ValidDate(day.value)) && ValidDays(days + [day]) && NameOf(days, f)
    ensures NameOf(days + [day], f)
  {
    var i :| 0 <= i < |days| && days[i].Some? && f == LocalName(days[i].value);
    assert (days + [day])[i] == days[i];
  }

  /** A name of `days + [day]` is a name of `days` or the new day's name. */
  lemma NameOfStep(days: seq<Option<Date>>, day: Option<Date>, f: string)
    requires ValidDays(days) && (day.Some? ==> ValidDate(day.value)) && ValidDays(days + [day]) && NameOf(days + [day], f)
    ensures NameOf(days, f) || (day.Some? && f == LocalName(day.value))
  {
    var all := days + [day];
    var i :| 0 <= i < |all| && all[i].Some? && f == LocalName(all[i].value);
    if i < |days| {
      assert days[i] == all[i];
      assert 0 <= i < |days| && days[i].Some? && f == LocalName(days[i].value);
    }
  }

  /** The newest day's name sorts before the name of every earlier entry of a sequence going back. */
  lemma LastSortsFirst(days: seq<Option<Date>>, day: Option<Date>, f: string)
    requires ValidDays(days) && (day.Some? ==> ValidDate(day.value)) && ValidDays(days + [day]) && GoingBack(days + [day]) && day.Some?
    requires NameOf(days, f)
    ensures StrLess(LocalName(day.value), f)
  {
    var all := days + [day];
    var i :| 0 <= i < |days| && days[i].Some? && f == LocalName(days[i].value);
    assert all[i] == days[i] && all[|days|] == day;
    LocalNameOrder(day.value, days[i].value);
  }

  /** A step that leaves archives and names as they were keeps the shape over the longer sequence. */
  lemma ShapeWidens(days: seq<Option<Date>>, day: Option<Date>, archives: map<string, Archive>, run: FetchRun, run': FetchRun)
    requires ValidDays(days) && (day.Some? ==> ValidDate(day.value)) && ValidDays(days + [day]) && FetchShape(days, archives, run)
    requires run'.archives == run.archives && run'.newFiles == run.newFiles
    ensures FetchShape(days + [day], archives, run')
  {
    forall i | 0 <= i < |run.newFiles| ensures NameOf(days + [day], run.newFiles[i]) {
      NameOfGrows(days, day, run.newFiles[i]);
    }
  }

  /** The new day already on disk: the run is unchanged and stays complete. */
  lemma StepSkips(days: seq<Option<Date>>, day: Option<Date>, archives: map<string, Archive>, run: FetchRun)
    requires ValidDays(days) && (day.Some? ==> ValidDate(day.value)) && ValidDays(days + [day]) && day.Some? && LocalName(day.value) in run.archives
    requires FetchShape(days, archives, run) && FetchComplete(days, archives, run)
    ensures FetchComplete(days + [day], archives, run)
  {
    var all := days + [day];
    forall i | 0 <= i < |all| ensures all[i].Some? && LocalName(all[i].value) in run.archives {
      if i < |days| {
        assert all[i] == days[i];
      }
    }
    forall f | NameOf(all, f) && f !in archives ensures f in run.newFiles {
      NameOfStep(days, day, f);
    }
  }

  /** Appending a name that sorts before all the others keeps the names newest first. */
  lemma AppendNewest(names: seq<string>, file: string)
    requires NewestFirst(names)
    requires forall i :: 0 <= i < |names| ==> StrLess(file, names[i])
    ensures NewestFirst(names + [file])
  {
  }

  /** Adding a new archive under a new name keeps the old archives and records the name. */
  lemma AddArchive(archives: map<string, Archive>, local: map<string, Archive>, names: seq<string>,
                   file: string, content: Archive)
    requires KeepsArchives(archives, local) && RecordsNames(archives, local, names)
    requires file !in local
    ensures KeepsArchives(archives, local[file := content])
    ensures RecordsNames(archives, local[file := content], names + [file])
  {
    assert (set f | f in names + [file]) == (set f | f in names) + {file};
  }

  /** Every name appended so far, and the new day's, is a name of the longer sequence and was not on disk. */
  lemma NamesAfterDownload(days: seq<Option<Date>>, day: Option<Date>, archives: map<string, Archive>, names: seq<string>)
    requires ValidDays(days) && (day.Some? ==> ValidDate(day.value)) && ValidDays(days + [day])
    requires day.Some? && LocalName(day.value) !in archives
    requires NamesFrom(days, archives, names)
    ensures NamesFrom(days + [day], archives, names + [LocalName(day.value)])
  {
    var all := days + [day];
    var file := LocalName(day.value);
    var names' := names + [file];
    forall i | 0 <= i < |names'| ensures names'[i] !in archives && NameOf(all, names'[i]) {
      if i < |names| {
        assert names'[i] == names[i];
        NameOfGrows(days, day, names[i]);
      } else {
        assert all[|days|] == day;
      }
    }
  }

  /** The new day's name sorts before every name taken from the earlier days. */
  lemma NewestAfterDownload(days: seq<Option<Date>>, day: Option<Date>, names: seq<string>)
    requires ValidDays(days) && (day.Some? ==> ValidDate(day.value)) && ValidDays(days + [day])
    requires GoingBack(days + [day]) && day.Some?
    requires forall i :: 0 <= i < |names| ==> NameOf(days, names[i])
    requires NewestFirst(names)
    ensures NewestFirst(names + [LocalName(day.value)])
  {
    var file := LocalName(day.value);
    forall i | 0 <= i < |names| ensures StrLess(file, names[i]) {
      LastSortsFirst(days, day, names[i]);
    }
    AppendNewest(names, file);
  }

  /** The new day downloaded: its name joins the archives and the end of `new_files`, newest first. */
  lemma DownloadShape(days: seq<Option<Date>>, day: Option<Date>, archives: map<string, Archive>,
                      run: FetchRun, content: Archive)
    requires ValidDays(days) && (day.Some? ==> ValidDate(day.value)) && ValidDays(days + [day])
    requires GoingBack(days + [day]) && day.Some? && LocalName(day.value) !in run.archives
    requires FetchShape(days, archives, run)
    ensures var file := LocalName(day.value);
            FetchShape(days + [day], archives, FetchRun(run.archives[file := content], run.newFiles + [file], None))
  {
    var file := LocalName(day.value);
    NewestAfterDownload(days, day, run.newFiles);
    AddArchive(archives, run.archives, run.newFiles, file, content);
    NamesAfterDownload(days, day, archives, run.newFiles);
  }

  /** The new day downloaded: every day so far is on disk and every missing name was appended. */
  lemma DownloadComplete(days: seq<Option<Date>>, day: Option<Date>, archives: map<string, Archive>,
                         run: FetchRun, content: Archive)
    requires ValidDays(days) && (day.Some? ==> ValidDate(day.value)) && ValidDays(days + [day])
    requires day.Some? && FetchComplete(days, archives, run)
    ensures var file := LocalName(day.value);
            FetchComplete(days + [day], archives, FetchRun(run.archives[file := content], run.newFiles + [file], None))
  {
    var all := days + [day];
    var file := LocalName(day.value);
    var next := FetchRun(run.archives[file := content], run.newFiles + [file], None);
    forall i | 0 <= i < |all| ensures all[i].Some? && LocalName(all[i].value) in next.archives {
      if i < |days| {
        assert all[i] == days[i];
      }
    }
    forall f | NameOf(all, f) && f !in archives ensures f in next.newFiles {
      NameOfStep(days, day, f);
    }
  }

  lemma {:induction false} FetchOverInvariant(days: seq<Option<Date>>, archives: map<string, Archive>, remote: map<string, Archive>)
    requires ValidDays(days) && GoingBack(days)
    ensures var run := FetchOver(days, archives, remote);
            FetchShape(days, archives, run) && (run.failure.None? ==> FetchComplete(days, archives, run))
    decreases |days|
  {
    if days != [] {
      var init, day := days[..|days| - 1], days[|days| - 1];
      assert days == init + [day];
      FetchOverInvariant(init, archives, remote);
      var run := FetchOver(init, archives, remote);
      var next := FetchOver(days, archives, remote);
      assert init[..|init|] == init;
      if run.failure.Some? || day.None? {
        ShapeWidens(init, day, archives, run, next);
      } else if LocalName(day.value) in run.archives {
        ShapeWidens(init, day, archives, run, next);
        StepSkips(init, day, archives, run);
      } else if Url(day.value) in remote {
        DownloadShape(init, day, archives, run, remote[Url(day.value)]);
        DownloadComplete(init, day, archives, run, remote[Url(day.value)]);
      } else {
        ShapeWidens(init, day, archives, run, next);
      }
    }
  }

  /** `f` is the local name of one of the days 1 .. n back from today. */
  ghost predicate InWindow(today: Date, n: nat, f: string)
    requires ValidDate(today)
  {
    exists x :: 1 <= x <= n && DaysBefore(today, x).Some? && f == LocalName(DaysBefore(today, x).value)
  }

  lemma WindowGoingBack(today: Date, n: nat)
    requires ValidDate(today)
    ensures ValidDays(WindowDays(today, n)) && GoingBack(WindowDays(today, n))
  {
    var days := WindowDays(today, n);
    forall i | 0 <= i < |days| && days[i].Some? ensures ValidDate(days[i].value) {
      assert days[i] == DaysBefore(today, i + 1);
    }
    forall i, j | 0 <= i < j < |days| && days[i].Some? && days[j].Some?
      ensures Before(days[j].value, days[i].value)
    {
      assert days[i] == DaysBefore(today, i + 1) && days[j] == DaysBefore(today, j + 1);
      DaysBeforeDecreasing(today, i + 1, j + 1);
    }
  }

  lemma WindowNames(today: Date, n: nat, f: string)
    requires ValidDate(today) && ValidDays(WindowDays(today, n))
    ensures NameOf(WindowDays(today, n), f) <==> InWindow(today, n, f)
  {
    var days := WindowDays(today, n);
    if NameOf(days, f) {
      var i :| 0 <= i < |days| && days[i].Some? && f == LocalName(days[i].value);
      assert 1 <= i + 1 <= n && DaysBefore(today, i + 1).Some? && f == LocalName(DaysBefore(today, i + 1).value);
    }
    if InWindow(today, n, f) {
      var x :| 1 <= x <= n && DaysBefore(today, x).Some? && f == LocalName(DaysBefore(today, x).value);
      assert days[x - 1].Some? && f == LocalName(days[x - 1].value);
    }
  }

  /**
   * The selection the loop makes: the archives already there are untouched, the new
   * ones are exactly `new_files`, which are newest first and all names of the window's
   * days that were not on disk; and when no download fails,
   * `new_files` holds exactly the names of the days 1 .. n back that were not on disk.
   */
  lemma FetchSelection(today: Date, n: nat, archives: map<string, Archive>, remote: map<string, Archive>)
    requires ValidDate(today)
    ensures var run := FetchUpTo(today, n, archives, remote);
            && (forall f :: f in archives ==> f in run.archives && run.archives[f] == archives[f])
            && run.archives.Keys == archives.Keys + (set f | f in run.newFiles)
            && NewestFirst(run.newFiles)
            && (forall f :: f in run.newFiles ==> f !in archives && InWindow(today, n, f))
            && (run.failure.None? ==> forall f :: f in run.newFiles <==> f !in archives && InWindow(today, n, f))
  {
    WindowGoingBack(today, n);
    FetchOverInvariant(WindowDays(today, n), archives, remote);
    forall f ensures NameOf(WindowDays(today, n), f) <==> InWindow(today, n, f) {
      WindowNames(today, n, f);
    }
  }

  /** A second run with the same day, after one in which every download succeeded, selects nothing. */
  lemma FetchAgainSelectsNothing(today: Date, n: nat, archives: map<string, Archive>, remote: map<string, Archive>)
    requires ValidDate(today)
    requires FetchUpTo(today, n, archives, remote).failure.None?
    ensures var after := FetchUpTo(today, n, archives, remote).archives;
            FetchUpTo(today, n, after, remote) == FetchRun(after, [], None)
  {
    var days := WindowDays(today, n);
    WindowGoingBack(today, n);
    FetchOverInvariant(days, archives, remote);
    var after := FetchUpTo(today, n, archives, remote).archives;
    NothingMissing(days, after, remote);
  }

  lemma {:induction false} NothingMissing(days: seq<Option<Date>>, archives: map<string, Archive>, remote: map<string, Archive>)
    requires ValidDays(days)
    requires forall i :: 0 <= i < |days| ==> days[i].Some? && LocalName(days[i].value) in archives
    ensures FetchOver(days, archives, remote) == FetchRun(archives, [], None)
    decreases |days|
  {
    if days != [] {
      NothingMissing(days[..|days| - 1], archives, remote);
    }
  }
}
