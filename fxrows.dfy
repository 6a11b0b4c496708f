/**
 * fxdata.py's per-row logic: `parse_row`, which turns one line of a daily archive
 * (`TICKER,YYYYMMDD,HHMMSS,OPEN,HIGH,LOW,CLOSE`) into a ticker and a bar, and
 * `pip_factor`, which scales a price difference into pips for an instrument.
 */
module FxRows {
  import opened Wrappers
  import opened Strings
  import opened DateTimes

  /** The `(dt, open, high, low, close)` tuple; prices stay the trimmed text of the row. */
  datatype Bar = Bar(time: DateTime, open: string, high: string, low: string, close: string)

  /** What `parse_row` returns: `ticker, ohlc`. */
  datatype Row = Row(ticker: string, bar: Bar)

  datatype RowError =
    | WrongTokenCount(count: nat)   // the `assert len(tokens) == 7` fails
    | BadTimestamp(text: string)    // `strptime` raises ValueError

  const TOKENS_PER_ROW := 7

  /**
   * `parse_row`: split on commas; exactly seven tokens are required; the timestamp is
   * tokens 1 and 2 concatenated as they are (not trimmed) and read as `%Y%m%d%H%M%S`;
   * the ticker and the four prices are the other tokens, trimmed.
   */
  function ParseRow(row: string): (r: Result<Row, RowError>)
    ensures Count(row, ',') != TOKENS_PER_ROW - 1 <==> r == Err(WrongTokenCount(Count(row, ',') + 1))
    ensures r.Ok? ==> ValidDateTime(r.value.bar.time)
  {
    var tokens := Split(row, ',');
    if |tokens| != TOKENS_PER_ROW then Err(WrongTokenCount(|tokens|))
    else
      var stamp := tokens[1] + tokens[2];
      match ParseCompact(stamp)
      case None => Err(BadTimestamp(stamp))
      case Some(dt) =>
        Ok(Row(Strip(tokens[0]), Bar(dt, Strip(tokens[3]), Strip(tokens[4]), Strip(tokens[5]), Strip(tokens[6]))))
  }

  /**
   * The timestamp `parse_row` accepts is exactly the one whose `%Y%m%d%H%M%S` rendering is
   * tokens 1 and 2 joined; when it rejects them, no valid time renders that way.
   */
  lemma ParseRowTimestamp(row: string)
    ensures ParseRow(row).Ok? ==> FormatCompact(ParseRow(row).value.bar.time) == Split(row, ',')[1] + Split(row, ',')[2]
    ensures ParseRow(row).Err? && ParseRow(row).error.BadTimestamp? ==>
              var tokens := Split(row, ',');
              |tokens| == TOKENS_PER_ROW && ParseRow(row).error.text == tokens[1] + tokens[2]
              && forall t :: !(ValidDateTime(t) && FormatCompact(t) == tokens[1] + tokens[2])
  {
    var tokens := Split(row, ',');
    if |tokens| == TOKENS_PER_ROW {
      var stamp := tokens[1] + tokens[2];
      if ParseRow(row).Ok? {
        CompactRoundTrip(stamp, ParseRow(row).value.bar.time);
      } else {
        forall t | ValidDateTime(t) && FormatCompact(t) == stamp ensures false {
          CompactRoundTrip(stamp, t);
        }
      }
    }
  }

  /** A text field as `parse_row` leaves it: no comma inside, nothing to strip. */
  predicate CleanField(s: string)
  {
    ',' !in s && NoSpaceAtEnds(s)
  }

  predicate CleanRow(r: Row)
  {
    && ValidDateTime(r.bar.time)
    && CleanField(r.ticker) && CleanField(r.bar.open) && CleanField(r.bar.high)
    && CleanField(r.bar.low) && CleanField(r.bar.close)
  }

  /** The seven comma-separated fields of a row in archive layout. */
  function RowFields(r: Row): seq<string>
    requires ValidDateTime(r.bar.time)
  {
    var t := r.bar.time;
    [r.ticker,
     Pad(t.date.year, 4) + (Pad(t.date.month, 2) + Pad(t.date.day, 2)),
     Pad(t.hour, 2) + (Pad(t.minute, 2) + Pad(t.second, 2)),
     r.bar.open, r.bar.high, r.bar.low, r.bar.close]
  }

  /** The archive's own row layout, `TICKER,YYYYMMDD,HHMMSS,OPEN,HIGH,LOW,CLOSE`: the inverse of `ParseRow`. */
  function FormatRow(r: Row): string
    requires ValidDateTime(r.bar.time)
  {
    Join(RowFields(r), ',')
  }

  lemma SplitFormatRow(r: Row)
    requires CleanRow(r)
    ensures Split(FormatRow(r), ',') == RowFields(r)
  {
    var parts := RowFields(r);
    assert AllDigits(parts[1]) && AllDigits(parts[2]);
    assert forall i :: 0 <= i < |parts| ==> ',' !in parts[i];
    SplitJoin(parts, ',');
  }

  /** Writing a clean row in archive layout and parsing it back gives the same row. */
  lemma ParseFormatRow(r: Row)
    requires CleanRow(r)
    ensures ParseRow(FormatRow(r)) == Ok(r)
  {
    var t := r.bar.time;
    SplitFormatRow(r);
    var parts := RowFields(r);
    var y, mo, d := Pad(t.date.year, 4), Pad(t.date.month, 2), Pad(t.date.day, 2);
    ConcatAssoc(y, mo + d, parts[2]);
    ConcatAssoc(mo, d, parts[2]);
    assert parts[1] + parts[2] == FormatCompact(t);
    CompactRoundTrip(FormatCompact(t), t);
    StripFixedPoint(r.ticker);
    StripFixedPoint(r.bar.open);
    StripFixedPoint(r.bar.high);
    StripFixedPoint(r.bar.low);
    StripFixedPoint(r.bar.close);
  }

  /**
   * Whatever `parse_row` accepts, it returns a clean row: re-writing and re-parsing it
   * changes nothing. The ticker is token 0 and the prices are tokens 3 to 6, each trimmed.
   */
  lemma ParseRowClean(row: string)
    requires ParseRow(row).Ok?
    ensures CleanRow(ParseRow(row).value)
    ensures ParseRow(FormatRow(ParseRow(row).value)) == ParseRow(row)
    ensures var tokens := Split(row, ','); var r := ParseRow(row).value;
            && |tokens| == TOKENS_PER_ROW
            && r.ticker == Strip(tokens[0])
            && r.bar.open == Strip(tokens[3]) && r.bar.high == Strip(tokens[4])
            && r.bar.low == Strip(tokens[5]) && r.bar.close == Strip(tokens[6])
  {
    var tokens := Split(row, ',');
    var r := ParseRow(row).value;
    StripKeepsOut(tokens[0], ',');
    StripKeepsOut(tokens[3], ',');
    StripKeepsOut(tokens[4], ',');
    StripKeepsOut(tokens[5], ',');
    StripKeepsOut(tokens[6], ',');
    assert CleanRow(r);
    ParseFormatRow(r);
  }

  /** `pip_factor`: 10 for gold (checked last, so it wins over "JPY"), 100 for yen pairs, else 10000. */
  function PipFactor(ticker: string): (factor: nat)
    ensures factor in {10, 100, 10000}
    ensures factor == 10 <==> Contains(ticker, "XAU")
    ensures factor == 100 <==> !Contains(ticker, "XAU") && Contains(ticker, "JPY")
  {
    var factor := 10000;
    var factor := if Contains(ticker, "JPY") then 100 else factor;
    if Contains(ticker, "XAU") then 10 else factor
  }

  lemma PipFactorYen()
    ensures PipFactor("USDJPY") == 100
  {
    assert Contains("USDJPY", "JPY") by {
      assert StartsWith("JPY", "JPY");
      assert Contains("DJPY", "JPY");
      assert Contains("SDJPY", "JPY");
    }
    assert !Contains("USDJPY", "XAU") by {
      assert !Contains("", "XAU");
      assert !Contains("Y", "XAU");
      assert !Contains("PY", "XAU");
      assert !StartsWith("JPY", "XAU") by { assert "JPY"[0] != "XAU"[0]; }
      assert !StartsWith("DJPY", "XAU") by { assert "DJPY"[0] != "XAU"[0]; }
      assert !StartsWith("SDJPY", "XAU") by { assert "SDJPY"[0] != "XAU"[0]; }
      assert !StartsWith("USDJPY", "XAU") by { assert "USDJPY"[0] != "XAU"[0]; }
    }
  }

  lemma PipFactorMajor()
    ensures PipFactor("EURUSD") == 10000
  {
    assert !Contains("EURUSD", "XAU") && !Contains("EURUSD", "JPY") by {
      assert !Contains("", "XAU") && !Contains("", "JPY");
      assert !Contains("D", "XAU") && !Contains("D", "JPY");
      assert !Contains("SD", "XAU") && !Contains("SD", "JPY");
      assert !StartsWith("USD", "XAU") && !StartsWith("USD", "JPY") by { assert "USD"[0] != 'X' && "USD"[0] != 'J'; }
      assert !StartsWith("RUSD", "XAU") && !StartsWith("RUSD", "JPY") by { assert "RUSD"[0] != 'X' && "RUSD"[0] != 'J'; }
      assert !StartsWith("URUSD", "XAU") && !StartsWith("URUSD", "JPY") by { assert "URUSD"[0] != 'X' && "URUSD"[0] != 'J'; }
      assert !StartsWith("EURUSD", "XAU") && !StartsWith("EURUSD", "JPY") by { assert "EURUSD"[0] != 'X' && "EURUSD"[0] != 'J'; }
    }
  }

  /** Gold is priced in tenths even against the yen: the "XAU" test runs last. */
  lemma PipFactorGold()
    ensures PipFactor("XAUUSD") == 10
    ensures PipFactor("XAUJPY") == 10
  {
    assert StartsWith("XAUUSD", "XAU");
    assert StartsWith("XAUJPY", "XAU");
  }
}
