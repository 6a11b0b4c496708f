# FX data pipeline — a verified model

This project models the core of a small foreign-exchange data pipeline written in
Python. It has two modules.

- `fxdata.py`:
  - downloads one-day archives of one-minute quotes for every pair, going back seven
    years from today and skipping days already on disk;
  - reshapes them into one append-only CSV file per ticker, keeping only the tickers in
    the newest archive;
  - loads such a file into a time series, shifted one hour back, sorted and optionally
    resampled, through a memo cache;
  - holds the `parse_row` and `pip_factor` helpers.
- `signals.py`:
  - a `Signal` class (entry, stop loss, take profit, BUY/SELL) whose stops can be
    re-set in pips;
  - `load_beta_trades`, which turns a CSV of trade ideas into three lists of signals,
    one per take-profit level;
  - a second, simpler ticker loader with its own cache.

The Dafny modules follow that structure:

| module | file | what it holds |
|---|---|---|
| `Wrappers` | `wrappers.dfy` | `Option`, `Result` |
| `Strings` | `strings.dfy` | Python's `str` operations the code relies on: `<`, `split`, `','.join`, `strip`, `in`, zero-padded `format`, `str(int)`, `s[-2:]` |
| `DateTimes` | `datetimes.dfy` | civil dates; `date - timedelta(days=1)`; `strptime` with `%Y%m%d%H%M%S` and `%Y-%m-%d %H:%M`; `str(datetime)` |
| `FxRows` | `fxrows.dfy` | `parse_row`, `pip_factor` |
| `FxFetch` | `fxfetch.dfy` | archive names and URLs; the download loop as a `method` proved against a fold |
| `FxReshape` | `fxreshape.dfy` | the list of archives to process; ticker discovery; the bulk append; the whole `__main__` block |
| `Series` | `series.dfy` | the one-hour shift and the sort by time |
| `FxLoader` | `fxloader.dfy` | `load_ticker` of `fxdata.py`, with its cache as a class over a `map` |
| `Signals` | `signals.dfy` | `Signal` as a class; `set_stop_loss_pips`, `set_take_profit_pips`; `pip_factor`; `load_beta_trades`; `load_ticker` of `signals.py` |

How the outside world is modelled:

- The file system and the network are values:
  - the archive directory is a `map` from a file name to the lines of the CSV inside the archive;
  - the remote server is a `map` from a URL to such lines;
  - the output directory is a `map` from a ticker to the lines of its CSV file.
- The current time is a parameter.
- `pd.read_csv`, `resample` and `float(...)` are function parameters, treated as oracles.

The code handles errors in these ways, and each is modelled as a `Result`/`Option` value:

- an `assert` that fails;
- `strptime` rejecting a string;
- a date before year 1;
- a missing download;
- a short line in the trades file;
- an empty trades file;
- `read_csv` raising.

Points about the code that are easy to misread:

- `new_files` comes out newest first, because the loop walks back from yesterday. It is
  sorted into ascending name order before use.
- The window covers offsets 1 .. 2554, because `range(1, 7 * 365)` stops before 2555.
- The loader sorts by timestamp but does not remove duplicate timestamps.
- The script's banner (fxdata.py:76) announces the last 10 years, but the loop fetches
  about 7 years (`7 * 365` days); the model follows the loop.

## Model

| member | source | states |
|---|---|---|
| `Strings.JoinSplit` | fxdata.py:60 | `','.join(s.split(','))` gives back `s`: splitting loses nothing |
| `Strings.SplitJoin` | fxdata.py:60 | splitting the join of comma-free parts gives back those parts |
| `Strings.StripIdempotent` | fxdata.py:66-70 | stripping a stripped field changes nothing |
| `Strings.DecimalValue` | fxdata.py:93 | `str(year)` read back as a number is the year, so the URL's year field determines the year |
| `Strings.LastTwoDigits` | fxdata.py:90 | `int(str(year)[-2:])` is `year % 100` for every year |
| `DateTimes.PrevDay` | fxdata.py:88 | the day before a valid date is a valid, earlier date, and there is none exactly at 0001-01-01 (where Python overflows) |
| `DateTimes.PrevDayImmediate` | fxdata.py:88 | no valid date lies strictly between a day and the day before it |
| `DateTimes.DaysBeforeDecreasing` | fxdata.py:87-88 | going further back gives a strictly earlier day; an existing far day implies every nearer one exists |
| `DateTimes.DaysBeforeInjective` | fxdata.py:87-88 | two offsets give the same day only if they are equal, so the loop visits each day once |
| `DateTimes.CompactRoundTrip` | fxdata.py:63-64 | `strptime(s, "%Y%m%d%H%M%S")` accepts `s` and gives `t` exactly when `t` is a valid timestamp whose 14-digit form is `s` |
| `DateTimes.IsoFormatInjective` | fxdata.py:141 | the written timestamp `str(dt)` determines the timestamp |
| `DateTimes.MinuteRoundTrip` | signals.py:29-31 | `strptime(s, '%Y-%m-%d %H:%M')` gives `t` exactly when `t` is a valid minute whose `YYYY-MM-DD HH:MM` form is `s` |
| `DateTimes.MinuteRejects` | signals.py:31 | the parse fails exactly when no valid minute is written as `s` |
| `FxRows.ParseRow` | fxdata.py:57-61 | a row without exactly seven comma-separated tokens is rejected with its token count, and exactly those are; a parsed timestamp is valid |
| `FxRows.ParseRowTimestamp` | fxdata.py:63-64 | a parsed row's timestamp is the one written by tokens 1 and 2 concatenated; a timestamp error means no valid timestamp is written so |
| `FxRows.ParseRowClean` | fxdata.py:57-72 | an accepted row has seven tokens; its ticker is token 0 and its prices are tokens 3 to 6, each trimmed; its fields hold no comma and nothing to strip, and re-formatting and re-parsing it gives the same result |
| `FxRows.ParseFormatRow` | fxdata.py:57-72 | every clean row survives formatting as a forexite line and parsing back |
| `FxRows.PipFactor` | fxdata.py:44-50 | the factor is 10, 100 or 10000; it is 10 iff the ticker contains "XAU", and 100 iff it contains "JPY" but not "XAU" |
| `FxRows.PipFactorYen` | fxdata.py:46-47 | USDJPY is quoted in hundredths |
| `FxRows.PipFactorMajor` | fxdata.py:45 | EURUSD is quoted in ten-thousandths |
| `FxRows.PipFactorGold` | fxdata.py:48-49 | gold wins over yen: XAUUSD and XAUJPY both give 10 |
| `FxFetch.LocalName` | fxdata.py:84-94 | a day's archive name lies in `./forexite/` and ends in `.zip` |
| `FxFetch.Url` | fxdata.py:83-93 | a day's download URL starts with the server's quote directory and ends in `.zip` |
| `FxFetch.FetchDay` | fxdata.py:88-101 | a step keeps every archive on disk; `new_files` either stays or gains the day's local name, which was not on disk; the archives on disk are the old ones and the names appended; a step that does not fail leaves the day's archive on disk |
| `FxFetch.ShortYearIsMod` | fxdata.py:90 | the two-digit year in the URL is `year % 100` |
| `FxFetch.LocalNameOrder` | fxdata.py:84-94 | sorting `YYYY-MM-DD.zip` names as strings sorts them by date, in both directions |
| `FxFetch.LocalNameInjective` | fxdata.py:84-94 | distinct days have distinct local file names |
| `FxFetch.UrlInjective` | fxdata.py:83-93 | distinct days have distinct download URLs, for every valid year: the year field ends at the first `/` |
| `FxFetch.FetchDayOf` | fxdata.py:88-101 | one turn of the loop: a date before year 1 fails with the offset; a day whose archive is on disk leaves the archives and `new_files` unchanged; a missing day the server has gains its archive under its local name, appended to `new_files`; a missing day the server lacks fails with its URL and changes nothing |
| `FxFetch.FetchMissing` | fxdata.py:85-101 | the download loop over offsets 1 .. 2554 ends in the state the fold over the window gives |
| `FxFetch.StopsAtFailure` | fxdata.py:87-100 | once a download fails (or the date overflows) nothing later in the loop happens |
| `FxFetch.FetchSelection` | fxdata.py:87-101 | archives on disk are kept unchanged; the new archives are exactly `new_files`; `new_files` is newest first and, even in a failed run, holds only names of the window's days that were not on disk; a completed run fetched exactly the window's days that were missing |
| `FxFetch.FetchAgainSelectsNothing` | fxdata.py:87-101 | after a completed run, running again on the same day downloads nothing and changes nothing |
| `FxReshape.InsertSorted` | fxdata.py:111 | inserting a name into a list sorted as strings keeps it sorted |
| `FxReshape.SortNames` | fxdata.py:111 | `sorted(...)` returns the names in ascending string order, none lost or added |
| `FxReshape.GlobZips` | fxdata.py:110 | the glob lists exactly the `.zip` files directly in the archive directory, names starting with a dot included, each once |
| `FxReshape.LocalNameIsZip` | fxdata.py:110 | every archive the download loop names is one the glob finds |
| `FxReshape.SortedDistinct` | fxdata.py:110-111 | sorting a list without repeats gives a list without repeats |
| `FxReshape.ChooseArchives` | fxdata.py:108-111 | the list is sorted; it holds the new archives when there are any, else every archive on disk, each once |
| `FxReshape.LastArchiveIsNewest` | fxdata.py:111-118 | in the sorted list of day archives, `files[-1]` is the latest day |
| `FxReshape.CollectRows` | fxdata.py:123-125 | when every line parses, the rows are the parsed lines, in order |
| `FxReshape.CollectOk` | fxdata.py:123-125 | a pass over an archive's lines succeeds exactly when `parse_row` accepts every line |
| `FxReshape.CollectFirst` | fxdata.py:123-125 | a failing pass reports the first rejected line's error, with the archive's name |
| `FxReshape.StopsAt` | fxdata.py:123-125 | a rejected line after accepted ones stops the pass with its error |
| `FxReshape.AllRowsStops` | fxdata.py:130-138 | an archive that fails stops the bulk pass with its error, whatever archives follow |
| `FxReshape.Open` | fxdata.py:126-127 | opening in append mode keeps every existing file's lines and creates each missing universe file empty |
| `FxReshape.OpenFile` | fxdata.py:126-127 | the universe gains the ticker, and the output directory is the one opening the new universe gives |
| `FxReshape.DiscoverLines` | fxdata.py:123-127 | the discovery loop opens a file for exactly the tickers of the lines, writes nothing, and stops on the first rejected line |
| `FxReshape.Discover` | fxdata.py:118-127 | a missing newest archive or one without a header fails; otherwise the universe is the tickers of its rows |
| `FxReshape.ParseLine` | fxdata.py:124-125 | a line that parses has a valid timestamp |
| `FxReshape.OutputLine` | fxdata.py:141 | every written line ends with a newline |
| `FxReshape.Write` | fxdata.py:139-141 | the files stay the same set; a row of an open ticker adds exactly its line at the end of that file; nothing else changes |
| `FxReshape.WriteDetermined` | fxdata.py:139-141 | those three facts about the files determine the result of the write completely |
| `FxReshape.Reshape` | fxdata.py:117-141 | no archive to process is the `files[-1]` error; a successful conversion keeps every existing output file |
| `FxReshape.WriteRow` | fxdata.py:139-141 | the files stay the same set; a row of an open ticker adds exactly its one output line at the end of that ticker's file; every other file, and every file when the ticker has none open, is unchanged |
| `FxReshape.AppendContents` | fxdata.py:136-141 | a universe ticker's file gains exactly the lines of its own rows, in order; every other file is untouched |
| `FxReshape.AppendConcat` | fxdata.py:130-141 | appending two runs of rows one after the other is appending their concatenation |
| `FxReshape.LinesForConcat` | fxdata.py:130-141 | a ticker's lines from two runs are those of the first, then those of the second |
| `FxReshape.AppendLines` | fxdata.py:136-141 | the loop over one archive's lines writes what the specification of the pass writes, or stops with the first rejected line |
| `FxReshape.AppendArchive` | fxdata.py:131-141 | one archive of the bulk pass: a missing or headerless archive fails, otherwise its rows are appended |
| `FxReshape.BulkPass` | fxdata.py:130-141 | the bulk pass over the sorted archives appends every row of every archive, archive after archive, or stops with the first failure |
| `FxReshape.Convert` | fxdata.py:117-141 | discovery then the bulk pass leave the output directory the specification gives, or its error |
| `FxReshape.ReshapeOutputs` | fxdata.py:117-141 | files exist for the old tickers and the universe; a universe ticker gains exactly its own rows' lines from all archives, in archive-then-line order, after its old lines; every other file, including one for a ticker seen only in older archives, is unchanged |
| `FxReshape.LastArchiveOnce` | fxdata.py:118-141 | the newest archive is read twice but written once: a ticker's file ends with the older archives' lines, then the newest archive's lines, each once |
| `FxReshape.ReshapeErrors` | fxdata.py:118-138 | no archive fails; the newest archive's error wins over the older archives' errors, since discovery runs first; a conversion succeeds exactly when there are archives and every archive reads |
| `FxReshape.CollectTickers` | fxdata.py:123-127 | the tickers of a successful pass are exactly those of its accepted lines |
| `FxReshape.UniverseOfNewest` | fxdata.py:118-127 | a ticker is in the universe exactly when some data line of the newest archive parses to it |
| `FxReshape.IsoFormatNoComma` | fxdata.py:141 | `str(dt)` contains no comma |
| `FxReshape.OutputLineFields` | fxdata.py:141 | a written line splits on commas into the timestamp and the four prices, each after a space; it has no ticker field |
| `FxReshape.OutputLineOneLine` | fxdata.py:141 | when the prices hold no line break, the written line's only newline is its last character, so each row is one line of the file |
| `FxReshape.RunScript` | fxdata.py:80-141 | a download failure stops the script before any conversion; otherwise it converts the chosen archives in name order and keeps the conversion's result or error |
| `Series.ShiftHour` | fxdata.py:33 | the shifted series has as many rows as the original |
| `Series.ShiftHourAt` | fxdata.py:33 | each row's timestamp moves one hour back; its prices and its place stay |
| `Series.ShiftRoundTrip` | fxdata.py:33 | moving every timestamp one hour forward again gives back the series |
| `Series.ShiftKeepsOrder` | fxdata.py:33 | the shifted series is in time order exactly when the original is |
| `Series.InsertKeepsRows` | fxdata.py:34 | one insertion step adds exactly the inserted row |
| `Series.InsertKeepsSorted` | fxdata.py:34 | one insertion step keeps a time-ordered series in time order |
| `Series.SortByTime` | fxdata.py:34 | the sorted series is in non-decreasing time order and holds exactly the original rows, as a multiset |
| `Series.SortIdempotent` | fxdata.py:34 | sorting a series already in time order changes nothing |
| `Series.ShiftInsert` | fxdata.py:33-34 | shifting commutes with one insertion step |
| `Series.ShiftSortCommute` | fxdata.py:33-34 | shifting then sorting gives the same series as sorting then shifting |
| `FxLoader.Fresh` | fxdata.py:19-39 | a failed read gives `None`; without resampling, a read series has as many rows as the file |
| `FxLoader.Load` | fxdata.py:15-41 | a returned series is the one cached under the key; a failure leaves the cache as it was |
| `FxLoader.DefaultCsvFile` | fxdata.py:12-19 | with the default `csv_path` the file name is `./csv//{ticker}.csv`, a different text from the `./csv` form |
| `FxLoader.FrameCache.constructor` | fxdata.py:10 | the cache starts empty |
| `FxLoader.FrameCache.LoadTicker` | fxdata.py:15-41 | a call returns and leaves in the cache what one step of the cache specification gives |
| `FxLoader.HitReadsNothing` | fxdata.py:16-17 | a hit on `(ticker, sample_mins)` returns the stored series and changes nothing, whatever `csv_path`, reader and resampler are |
| `FxLoader.MissStores` | fxdata.py:19-41 | a miss stores the returned series under its key and nothing else; a failure returns `None` and stores nothing |
| `FxLoader.CacheOnlyGrows` | fxdata.py:15-41 | a call never removes or changes a cached entry, and adds at most its own key |
| `FxLoader.SecondCallHits` | fxdata.py:16-38 | after a successful call, the same key hits and returns the same series, with any path or reader |
| `FxLoader.FreshSeries` | fxdata.py:19-39 | without resampling, a read file gives its rows an hour earlier, none lost or added, sorted by time; a failed read gives `None` |
| `FxLoader.NoneAndZero` | fxdata.py:16-38 | `sample_mins` of `None` and of `0` both skip resampling and load the same series, but they are distinct keys |
| `FxLoader.ResampledSeries` | fxdata.py:35-36 | with a non-zero `sample_mins` the resampler gets the shifted, sorted series, and a resampling failure is the call's failure |
| `Signals.PipFactor` | signals.py:57-64 | the copy of `pip_factor` returns the same factor as the one in `fxdata.py`, for every ticker |
| `Signals.DirectionOf` | signals.py:35 | SELL exactly when the take-profit text equals or sorts before the stop-loss text |
| `Signals.DirectionSwap` | signals.py:35 | equal take-profit and stop-loss texts give SELL; otherwise swapping them swaps BUY and SELL |
| `Signals.TextualDirection` | signals.py:35 | the type compares texts, not numbers: take profit "100.20" over stop loss "99.50" gives SELL |
| `Signals.MakeSignal` | signals.py:28-36 | a built signal keeps the ticker and the time text, and its type is the text comparison of take profit with stop loss |
| `Signals.MakeSignalSpec` | signals.py:28-36 | the time text is read before any price; a signal is built exactly when the time parses and the three prices read as floats, and it holds that minute and those floats |
| `Signals.StopLossFor` | signals.py:41-46 | the new stop loss lies `pips / pip_factor` below the entry for a BUY and above it for a SELL |
| `Signals.TakeProfitFor` | signals.py:49-54 | the new take profit lies `pips / pip_factor` above the entry for a BUY and below it for a SELL |
| `Signals.Bracket` | signals.py:41-54 | with positive pip distances, the entry lies strictly between the new stop loss and take profit, on the side the type says |
| `Signals.SettersCommute` | signals.py:41-54 | neither setter reads what the other writes, so they commute |
| `Signals.Signal.constructor` | signals.py:28-36 | the object holds the fields of the value `Signal.__init__` computes |
| `Signals.Signal.SetStopLossPips` | signals.py:41-46 | only `stop_loss` changes, to the value `StopLossFor` gives |
| `Signals.Signal.SetTakeProfitPips` | signals.py:49-54 | only `take_profit` changes, to the value `TakeProfitFor` gives |
| `Signals.NewSignal` | signals.py:28-36 | a new object with the computed fields, or the error `__init__` raises |
| `Signals.ReadTokens` | signals.py:72-80 | reading a line's tokens fails exactly when it has fewer than 11 |
| `Signals.FanShares` | signals.py:81-83 | the TP1, TP2 and TP3 signals of a line share every field but the take profit and the type it decides |
| `Signals.IgnoredTokens` | signals.py:72-80 | tokens 2, 5, 7, 9 and any after token 10 never affect what a line reads as |
| `Signals.ShortLineFails` | signals.py:72-80 | a line with fewer than 11 comma-separated tokens fails, reporting its token count |
| `Signals.GatherAt` | signals.py:71-83 | when every line succeeds, line `i`'s signals are at place `i` |
| `Signals.GatherOk` | signals.py:71-83 | the loop succeeds exactly when every line does |
| `Signals.GatherStops` | signals.py:71-83 | a failing line after successful ones stops the loop with its error |
| `Signals.BookSnoc` | signals.py:81-83 | the three appends of a line add its three signals at the end of TP1, TP2 and TP3 |
| `Signals.BookColumns` | signals.py:68-83 | no line, no key; otherwise the keys are TP1, TP2 and TP3, all of the same length, and place `i` of each holds line `i`'s signal |
| `Signals.AddLines` | signals.py:71-83 | the loop over the data lines builds the dict the specification gives, or stops with the first error |
| `Signals.BetaTrades` | signals.py:67-84 | an empty file is an error; a loaded dict has no keys, or exactly TP1, TP2 and TP3 |
| `Signals.LoadBetaTrades` | signals.py:67-84 | the method returns what `load_beta_trades` returns, including the error for an empty file |
| `Signals.TradesColumns` | signals.py:67-84 | after the header, `n` data lines give TP1, TP2 and TP3 of length `n` each, in line order; a header alone gives a dict without keys |
| `Signals.TradesOk` | signals.py:70-84 | the file loads exactly when every data line gives its three signals |
| `Signals.LineFields` | signals.py:72-83 | a line that yields its signals has at least 11 tokens; each signal's time is token 0, ticker token 1, entry token 3 and stop loss token 10, each trimmed (the prices read as floats); TP1, TP2 and TP3 take their take profit and type from tokens 4, 6 and 8 |
| `Signals.TradeFields` | signals.py:67-84 | place `i` of TP1, TP2 and TP3 in the loaded dict is the signal of data line `i`, each field read from its trimmed token as above |
| `Signals.LoadBy` | signals.py:7-24 | the cache keeps every entry and adds at most the ticker; a returned series is the one cached under the ticker; a failed read raises the file's error and leaves the cache as it was |
| `Signals.TickerCache.constructor` | signals.py:5 | the cache starts empty |
| `Signals.TickerCache.LoadTicker` | signals.py:7-24 | a call returns the series, or raises the read error, and leaves in the cache what one step of the cache specification gives |
| `Signals.TickerHitReadsNothing` | signals.py:8-9 | a hit, keyed by ticker alone, returns the stored series without reading |
| `Signals.TickerMiss` | signals.py:10-24 | a miss stores and returns the file's rows an hour earlier, sorted and none lost; a read error is raised and stores nothing; the next call hits |
| `Signals.SameSeriesAsFxData` | signals.py:10-22 | this loader reads the file that `fxdata.py`'s loader reads with `csv_path="./csv"`; it succeeds exactly when that one returns a series, and then returns the same series; on a failed read it raises where that one returns `None` |

## Left out

- Network and disk I/O: `urlretrieve`, `zipfile`, `open`/`write`/`close`, `mkdir`, `Path.exists`, and the `print`s are not modelled. The directories are `map` values, and an archive is the list of lines of its single CSV member.
- `glob` order is arbitrary; the model only uses that the glob lists each `.zip` once.
- `Signals.LoadBy`: `load_ticker` of `signals.py` has no `try`, so a failed `read_csv` propagates to the caller; the model returns it as an `Err` value, while `fxdata.py`'s loader returns `None`. What the caller does with the exception is not modelled.
- A download that raises aborts the script. The model keeps the state at that point, but does not model a partially written file.
- A parse error during conversion aborts it. The model returns the error, not the partially appended output files. The output handles are not closed explicitly.
- UTF-8 decoding of archive lines is not modelled; lines are already strings, and `next(f)` drops the header.
- `datetime.now()` is a parameter; the time of day plays no part in the loop.
- `strptime` is modelled for the strict fixed-width forms only. Python also accepts non-strict forms such as unpadded or space-padded fields, extra whitespace where the format has a space, and non-ASCII digits.
- File names are compared as text. With the default `csv_path`, `fxdata.py` reads `./csv//{ticker}.csv`, which is the same file on disk as `signals.py`'s `./csv/{ticker}.csv`; the model equates the two loaders only for `csv_path="./csv"`.
- `pd.read_csv` is an oracle returning a frame or failing. Its date parsing and column inference are not modelled.
- `resample(...).apply(ohlc_dict).dropna()` is an oracle with no bucket semantics.
- `float(...)` is an oracle. Pip arithmetic is in `real`, without floating-point rounding.
- `Signal.__str__` is not modelled (pure formatting).
- Loader caches return frames as values; pandas object identity and aliasing between a cached frame and its callers are not modelled.
- `Series.SortByTime` is a stable insertion sort. pandas' `sort_index` need not be stable, so for equal timestamps the model fixes one order.
- The lists `load_beta_trades` fills hold `SignalValue` values rather than `Signal` objects. Each object there is freshly built and never shared, so its fields are all there is to it.
- `Signal(...)` is modelled with text prices, as `load_beta_trades` passes them. Called with numbers, the BUY/SELL rule would compare numbers; that use is not modelled.
- A `Signal.__init__` that raises leaves no object; `NewSignal` returns the error instead.
- `sample_mins` is `None` or an integer; other Python values (floats, strings) are not modelled.
- pandas timestamps are unbounded integers of nanoseconds; the `datetime64[ns]` range and its overflow are not modelled.
- The lines of the trades file are given without their line ends. Token 10 and any later token absorb a trailing newline, and `strip()` removes it, so nothing read depends on it.
- Indicator helpers and other scripts that use these modules are not part of this model.
