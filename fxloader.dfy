/**
 * `load_ticker` of `fxdata.py`: read a ticker's CSV file into a series, move it one hour
 * back, sort it, resample it on request, and remember the result under
 * `(ticker, sample_mins)`.
 */
module FxLoader {
  import opened Wrappers
  import opened Series

  /** The default `csv_path`. */
  const FULL_DATA_PATH := "./csv/"

  /** The cache key: the ticker and `sample_mins`, where `None` is Python's `None`. */
  datatype CacheKey = CacheKey(ticker: string, sampleMins: Option<int>)

  /** `pd.read_csv` on a file name; `None` when it raises. */
  type Reader = string -> Option<Frame>

  /** `df.resample(f"{n}Min").apply(ohlc_dict).dropna()`; `None` when it raises. */
  type Resampler = (Frame, int) -> Option<Frame>

  /** `f"{csv_path}/{ticker}.csv"`. */
  function CsvFile(csvPath: string, ticker: string): string
  {
    csvPath + "/" + ticker + ".csv"
  }

  /**
   * With the default `csv_path` the file name has a doubled slash, `./csv//{ticker}.csv`:
   * the same file on disk as `./csv/{ticker}.csv`, but a different text.
   */
  lemma DefaultCsvFile(ticker: string)
    ensures CsvFile(FULL_DATA_PATH, ticker) == "./csv//" + ticker + ".csv"
    ensures CsvFile(FULL_DATA_PATH, ticker) != CsvFile("./csv", ticker)
  {
    assert |CsvFile(FULL_DATA_PATH, ticker)| == |CsvFile("./csv", ticker)| + 1;
  }

  /** `if sample_mins:` is true for a number other than zero; `None` and `0` are false. */
  predicate Resamples(key: CacheKey)
  {
    key.sampleMins.Some? && key.sampleMins.value != 0
  }

  /** The body of the `try` block without the cache: `None` stands for the bare `except`. */
  function Fresh(key: CacheKey, csvPath: string, read: Reader, resample: Resampler): (r: Option<Frame>)
    ensures read(CsvFile(csvPath, key.ticker)).None? ==> r.None?
    ensures !Resamples(key) && r.Some? ==> |r.value| == |read(CsvFile(csvPath, key.ticker)).value|
  {
    match read(CsvFile(csvPath, key.ticker))
    case None => None
    case Some(df) =>
      var sorted := SortByTime(ShiftHour(df));
      if Resamples(key) then resample(sorted, key.sampleMins.value) else Some(sorted)
  }

  /** What a call returns, and the cache it leaves. */
  datatype Loaded = Loaded(frame: Option<Frame>, cache: map<CacheKey, Frame>)

  /** One call of `load_ticker` against the cache `loaded`. */
  function Load(loaded: map<CacheKey, Frame>, key: CacheKey, csvPath: string, read: Reader, resample: Resampler): (r: Loaded)
    ensures r.frame.Some? ==> key in r.cache && r.cache[key] == r.frame.value
    ensures r.frame.None? ==> r.cache == loaded
  {
    if key in loaded then Loaded(Some(loaded[key]), loaded)
    else
      match Fresh(key, csvPath, read, resample)
      case None => Loaded(None, loaded)
      case Some(df) => Loaded(Some(df), loaded[key := df])
  }

  /** The module-level dict `loaded` and the function that fills it. */
  class FrameCache {
    var loaded: map<CacheKey, Frame>

    constructor ()
      ensures loaded == map[]
    {
      loaded := map[];
    }

    method LoadTicker(ticker: string, sampleMins: Option<int>, csvPath: string, read: Reader, resample: Resampler)
      returns (df: Option<Frame>)
      modifies this
      ensures Loaded(df, loaded) == Load(old(loaded), CacheKey(ticker, sampleMins), csvPath, read, resample)
    {
      var key := CacheKey(ticker, sampleMins);
      if key in loaded {
        return Some(loaded[key]);
      }
      df := Fresh(key, csvPath, read, resample);
      if df.Some? {
        loaded := loaded[key := df.value];
      }
    }
  }

  /**
   * A hit returns the stored series and changes nothing, whatever the path, the reader
   * and the resampler: nothing is read.
   */
  lemma HitReadsNothing(loaded: map<CacheKey, Frame>, key: CacheKey,
                        path1: string, read1: Reader, resample1: Resampler,
                        path2: string, read2: Reader, resample2: Resampler)
    requires key in loaded
    ensures Load(loaded, key, path1, read1, resample1) == Load(loaded, key, path2, read2, resample2)
    ensures Load(loaded, key, path1, read1, resample1) == Loaded(Some(loaded[key]), loaded)
  {
  }

  /** A miss stores what it returns under its key and nothing else; a failure stores nothing. */
  lemma MissStores(loaded: map<CacheKey, Frame>, key: CacheKey, csvPath: string, read: Reader, resample: Resampler)
    requires key !in loaded
    ensures var r := Load(loaded, key, csvPath, read, resample);
            && (r.frame.Some? ==> r.cache == loaded[key := r.frame.value])
            && (r.frame.None? ==> r.cache == loaded)
  {
  }

  /** A call never forgets nor changes what was cached before it. */
  lemma CacheOnlyGrows(loaded: map<CacheKey, Frame>, key: CacheKey, csvPath: string, read: Reader, resample: Resampler)
    ensures var r := Load(loaded, key, csvPath, read, resample);
            && loaded.Keys <= r.cache.Keys
            && (forall k :: k in loaded ==> r.cache[k] == loaded[k])
            && (r.cache.Keys <= loaded.Keys + {key})
  {
  }

  /** The second call with the same key returns what the first returned, and changes nothing. */
  lemma SecondCallHits(loaded: map<CacheKey, Frame>, key: CacheKey,
                       path1: string, read1: Reader, resample1: Resampler,
                       path2: string, read2: Reader, resample2: Resampler)
    requires Load(loaded, key, path1, read1, resample1).frame.Some?
    ensures var first := Load(loaded, key, path1, read1, resample1);
            Load(first.cache, key, path2, read2, resample2) == first
  {
  }

  /**
   * Without resampling, the series loaded is the file's rows, every one an hour earlier
   * and none lost or added, in time order.
   */
  lemma FreshSeries(key: CacheKey, csvPath: string, read: Reader, resample: Resampler)
    requires !Resamples(key)
    ensures var r := Fresh(key, csvPath, read, resample);
            var file := read(CsvFile(csvPath, key.ticker));
            && (r.Some? <==> file.Some?)
            && (r.Some? ==> SortedByTime(r.value)
                            && multiset(r.value) == multiset(ShiftHour(file.value))
                            && UnshiftHour(SortByTime(r.value)) == SortByTime(file.value))
  {
    var file := read(CsvFile(csvPath, key.ticker));
    if file.Some? {
      var df := file.value;
      SortIdempotent(SortByTime(ShiftHour(df)));
      ShiftSortCommute(df);
      ShiftRoundTrip(SortByTime(df));
    }
  }

  /**
   * `None` and `0` both skip resampling and load the same series, but they are two
   * keys: loading one leaves the other a miss.
   */
  lemma NoneAndZero(loaded: map<CacheKey, Frame>, ticker: string, csvPath: string, read: Reader, resample: Resampler)
    requires CacheKey(ticker, Some(0)) !in loaded
    ensures Fresh(CacheKey(ticker, None), csvPath, read, resample) == Fresh(CacheKey(ticker, Some(0)), csvPath, read, resample)
    ensures CacheKey(ticker, Some(0)) !in Load(loaded, CacheKey(ticker, None), csvPath, read, resample).cache
  {
  }

  /** With resampling, the resampler gets the shifted, sorted series, and its failure is the call's failure. */
  lemma ResampledSeries(key: CacheKey, csvPath: string, read: Reader, resample: Resampler)
    requires Resamples(key)
    ensures var file := read(CsvFile(csvPath, key.ticker));
            Fresh(key, csvPath, read, resample)
            == if file.None? then None else resample(SortByTime(ShiftHour(file.value)), key.sampleMins.value)
  {
  }
}
