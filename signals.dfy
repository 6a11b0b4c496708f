/**
 * `signals.py`: trade signals with an entry, a stop loss and a take profit, read from a
 * CSV file of trade ideas, and a second loader of ticker series with its own cache.
 */
module Signals {
  import opened Wrappers
  import opened Strings
  import opened DateTimes
  import opened Series
  import FxRows
  import FxLoader

  // ---------------------------------------------------------------------------
  // pip_factor, second copy
  // ---------------------------------------------------------------------------

  /** The copy of `pip_factor` in this file; it agrees with the one in `fxdata.py` on every ticker. */
  function PipFactor(ticker: string): (factor: nat)
    ensures factor == FxRows.PipFactor(ticker)
  {
    var factor := if Contains(ticker, "JPY") then 100 else 10000;
    if Contains(ticker, "XAU") then 10 else factor
  }

  // ---------------------------------------------------------------------------
  // Signal
  // ---------------------------------------------------------------------------

  /** `self.type`: "BUY" or "SELL". */
  datatype Direction = Buy | Sell

  /**
   * `"BUY" if take_profit > stop_loss else "SELL"` on the constructor's own arguments.
   * `load_beta_trades` passes the prices as text, so this is Python's order on strings.
   */
  function DirectionOf(takeProfit: string, stopLoss: string): (d: Direction)
    ensures d == Sell <==> takeProfit == stopLoss || StrLess(takeProfit, stopLoss)
  {
    StrLessIrreflexive(takeProfit);
    if StrLess(stopLoss, takeProfit) then
      StrLessAsymmetric(stopLoss, takeProfit);
      Buy
    else
      if takeProfit != stopLoss then StrLessTotal(takeProfit, stopLoss); Sell else Sell
  }

  /** Equal texts make a SELL; otherwise swapping the two prices swaps the direction. */
  lemma DirectionSwap(a: string, b: string)
    ensures DirectionOf(a, a) == Sell
    ensures a != b ==> DirectionOf(a, b) != DirectionOf(b, a)
  {
    StrLessIrreflexive(a);
    if a != b {
      StrLessTotal(a, b);
      if StrLess(a, b) {
        StrLessAsymmetric(a, b);
      } else {
        StrLessAsymmetric(b, a);
      }
    }
  }

  /**
   * The comparison is on text, not on numbers: a take profit of "100.20" above a stop
   * loss of "99.50" makes a SELL, because '1' sorts before '9'.
   */
  lemma TextualDirection()
    ensures DirectionOf("100.20", "99.50") == Sell
  {
    assert "100.20"[0] == '1' && "99.50"[0] == '9';
    assert !StrLess("99.50", "100.20");
  }

  /** Why a `Signal` could not be built: `strptime` or `float` raised. */
  datatype SignalError = BadTime(text: string) | BadPrice(text: string)

  /** `float(s)` on a text; `None` when it raises `ValueError`. */
  type Floats = string -> Option<real>

  /** The fields of a `Signal`. */
  datatype SignalValue = SignalValue(
    ticker: string,
    datetimeStr: string,
    signalTime: DateTime,
    entryPrice: real,
    stopLoss: real,
    takeProfit: real,
    kind: Direction)

  /**
   * `Signal.__init__`: the time is parsed first, then the entry, the stop loss and the
   * take profit, and the first that fails is the error.
   */
  function MakeSignal(ticker: string, datetimeStr: string, entry: string, stopLoss: string, takeProfit: string,
                      toFloat: Floats): (r: Result<SignalValue, SignalError>)
    ensures r.Ok? ==> r.value.ticker == ticker && r.value.datetimeStr == datetimeStr
                      && r.value.kind == DirectionOf(takeProfit, stopLoss)
  {
    match ParseMinute(datetimeStr)
    case None => Err(BadTime(datetimeStr))
    case Some(time) =>
      if toFloat(entry).None? then Err(BadPrice(entry))
      else if toFloat(stopLoss).None? then Err(BadPrice(stopLoss))
      else if toFloat(takeProfit).None? then Err(BadPrice(takeProfit))
      else
        Ok(SignalValue(ticker, datetimeStr, time, toFloat(entry).value, toFloat(stopLoss).value,
                       toFloat(takeProfit).value, DirectionOf(takeProfit, stopLoss)))
  }

  /**
   * The time is read before any price: the call fails on the time text exactly when
   * `strptime` rejects it, and otherwise a signal is built exactly when the three prices
   * read as floats. A built signal holds the parsed minute and those floats.
   * (`DateTimes.MinuteRejects` and `DateTimes.MinuteRoundTrip` say which texts parse, and to what.)
   */
  lemma MakeSignalSpec(ticker: string, datetimeStr: string, entry: string, stopLoss: string, takeProfit: string,
                       toFloat: Floats)
    ensures var r := MakeSignal(ticker, datetimeStr, entry, stopLoss, takeProfit, toFloat);
            && (r == Err(BadTime(datetimeStr)) <==> ParseMinute(datetimeStr).None?)
            && (r.Ok? <==> ParseMinute(datetimeStr).Some? && toFloat(entry).Some? && toFloat(stopLoss).Some? && toFloat(takeProfit).Some?)
            && (r.Ok? ==>
                  && ParseMinute(datetimeStr) == Some(r.value.signalTime)
                  && toFloat(entry) == Some(r.value.entryPrice)
                  && toFloat(stopLoss) == Some(r.value.stopLoss)
                  && toFloat(takeProfit) == Some(r.value.takeProfit))
  {
  }

  /** `set_stop_loss_pips`: `pips` pips below the entry for a BUY, above it for a SELL. */
  function StopLossFor(v: SignalValue, pips: real): (stop: real)
    ensures (if v.kind == Buy then v.entryPrice - stop else stop - v.entryPrice) * (PipFactor(v.ticker) as real) == pips
  {
    var distance := pips / (PipFactor(v.ticker) as real);
    if v.kind == Buy then v.entryPrice - distance else v.entryPrice + distance
  }

  /** `set_take_profit_pips`: `pips` pips above the entry for a BUY, below it for a SELL. */
  function TakeProfitFor(v: SignalValue, pips: real): (target: real)
    ensures (if v.kind == Buy then target - v.entryPrice else v.entryPrice - target) * (PipFactor(v.ticker) as real) == pips
  {
    var distance := pips / (PipFactor(v.ticker) as real);
    if v.kind == Buy then v.entryPrice + distance else v.entryPrice - distance
  }

  /** After both setters with positive distances, the entry lies strictly between the stop and the target, on the side its direction says. */
  lemma Bracket(v: SignalValue, stopPips: real, targetPips: real)
    requires stopPips > 0.0 && targetPips > 0.0
    ensures var stop, target := StopLossFor(v, stopPips), TakeProfitFor(v, targetPips);
            if v.kind == Buy then stop < v.entryPrice < target else target < v.entryPrice < stop
  {
    var f := PipFactor(v.ticker) as real;
    var stop, target := StopLossFor(v, stopPips), TakeProfitFor(v, targetPips);
    if v.kind == Buy {
      assert (v.entryPrice - stop) * f > 0.0;
      assert (target - v.entryPrice) * f > 0.0;
    } else {
      assert (stop - v.entryPrice) * f > 0.0;
      assert (v.entryPrice - target) * f > 0.0;
    }
  }

  /** Neither setter reads what the other writes, so they can be applied in either order. */
  lemma SettersCommute(v: SignalValue, stopPips: real, targetPips: real)
    ensures var both := v.(stopLoss := StopLossFor(v, stopPips), takeProfit := TakeProfitFor(v, targetPips));
            && v.(stopLoss := StopLossFor(v, stopPips)).(takeProfit := TakeProfitFor(v.(stopLoss := StopLossFor(v, stopPips)), targetPips)) == both
            && v.(takeProfit := TakeProfitFor(v, targetPips)).(stopLoss := StopLossFor(v.(takeProfit := TakeProfitFor(v, targetPips)), stopPips)) == both
  {
  }

  /** A `Signal` object; its fields are updated in place by the two setters. */
  class Signal {
    var ticker: string
    var datetimeStr: string
    var signalTime: DateTime
    var entryPrice: real
    var stopLoss: real
    var takeProfit: real
    var kind: Direction

    /** The object's fields as a value. */
    function Value(): SignalValue
      reads this
    {
      SignalValue(ticker, datetimeStr, signalTime, entryPrice, stopLoss, takeProfit, kind)
    }

    /** Sets every field from a value `MakeSignal` built. */
    constructor (v: SignalValue)
      ensures Value() == v
    {
      ticker := v.ticker;
      datetimeStr := v.datetimeStr;
      signalTime := v.signalTime;
      entryPrice := v.entryPrice;
      stopLoss := v.stopLoss;
      takeProfit := v.takeProfit;
      kind := v.kind;
    }

    method SetStopLossPips(pips: real)
      modifies this`stopLoss
      ensures Value() == old(Value()).(stopLoss := StopLossFor(old(Value()), pips))
    {
      var distance := pips / (PipFactor(ticker) as real);
      if kind == Buy {
        stopLoss := entryPrice - distance;
      }
      if kind == Sell {
        stopLoss := entryPrice + distance;
      }
    }

    method SetTakeProfitPips(pips: real)
      modifies this`takeProfit
      ensures Value() == old(Value()).(takeProfit := TakeProfitFor(old(Value()), pips))
    {
      var distance := pips / (PipFactor(ticker) as real);
      if kind == Buy {
        takeProfit := entryPrice + distance;
      }
      if kind == Sell {
        takeProfit := entryPrice - distance;
      }
    }
  }

  /** `Signal(ticker, datetime_str, entry_price, stop_loss, take_profit)`: a new object, or the exception. */
  method NewSignal(ticker: string, datetimeStr: string, entry: string, stopLoss: string, takeProfit: string, toFloat: Floats)
    returns (r: Result<Signal, SignalError>)
    ensures var v := MakeSignal(ticker, datetimeStr, entry, stopLoss, takeProfit, toFloat);
            && (r.Ok? <==> v.Ok?)
            && (r.Ok? ==> fresh(r.value) && r.value.Value() == v.value)
            && (r.Err? ==> v == Err(r.error))
  {
    match MakeSignal(ticker, datetimeStr, entry, stopLoss, takeProfit, toFloat)
    case Err(e) => r := Err(e);
    case Ok(v) =>
      var s := new Signal(v);
      r := Ok(s);
  }

  // ---------------------------------------------------------------------------
  // load_beta_trades
  // ---------------------------------------------------------------------------

  /** The smallest number of comma-separated tokens a data line needs: token 10 is read. */
  const TOKENS_NEEDED := 11

  datatype TradesError =
    | EmptyFile                      // `next(f)` on an empty file
    | ShortLine(count: nat)          // `tokens[10]` on a shorter line
    | BadSignal(error: SignalError)  // `Signal(...)` raised

  /** The three signals one data line fans out into, for TP1, TP2 and TP3. */
  datatype Fan = Fan(tp1: SignalValue, tp2: SignalValue, tp3: SignalValue)

  /** The fields a data line is read into, each token stripped. */
  datatype TradeLine = TradeLine(datetimeStr: string, ticker: string, entry: string,
                                 tp1: string, tp2: string, tp3: string, stopLoss: string)

  /** Tokens 0, 1, 3, 4, 6, 8 and 10 of a data line; tokens 2, 5, 7 and 9 are read past. */
  function ReadTokens(tokens: seq<string>): (r: Result<TradeLine, TradesError>)
    ensures r.Err? <==> |tokens| < TOKENS_NEEDED
  {
    if |tokens| < TOKENS_NEEDED then Err(ShortLine(|tokens|))
    else Ok(TradeLine(Strip(tokens[0]), Strip(tokens[1]), Strip(tokens[3]), Strip(tokens[4]),
                      Strip(tokens[6]), Strip(tokens[8]), Strip(tokens[10])))
  }

  /** The three `Signal(...)` calls of one line, in order; they differ only in the take profit. */
  function FanOut(t: TradeLine, toFloat: Floats): Result<Fan, TradesError>
  {
    match MakeSignal(t.ticker, t.datetimeStr, t.entry, t.stopLoss, t.tp1, toFloat)
    case Err(e) => Err(BadSignal(e))
    case Ok(s1) =>
      match MakeSignal(t.ticker, t.datetimeStr, t.entry, t.stopLoss, t.tp2, toFloat)
      case Err(e) => Err(BadSignal(e))
      case Ok(s2) =>
        match MakeSignal(t.ticker, t.datetimeStr, t.entry, t.stopLoss, t.tp3, toFloat)
        case Err(e) => Err(BadSignal(e))
        case Ok(s3) => Ok(Fan(s1, s2, s3))
  }

  /** One iteration of the loop: split the line, read its tokens, build its three signals. */
  function LineSignals(line: string, toFloat: Floats): Result<Fan, TradesError>
  {
    match ReadTokens(Split(line, ','))
    case Err(e) => Err(e)
    case Ok(t) => FanOut(t, toFloat)
  }

  /** The three signals of a line share all but the take profit, and each is the `Signal` its take-profit token builds. */
  lemma FanShares(t: TradeLine, toFloat: Floats)
    requires FanOut(t, toFloat).Ok?
    ensures var f := FanOut(t, toFloat).value;
            && f.tp1 == MakeSignal(t.ticker, t.datetimeStr, t.entry, t.stopLoss, t.tp1, toFloat).value
            && f.tp2 == f.tp1.(takeProfit := f.tp2.takeProfit, kind := DirectionOf(t.tp2, t.stopLoss))
            && f.tp3 == f.tp1.(takeProfit := f.tp3.takeProfit, kind := DirectionOf(t.tp3, t.stopLoss))
            && toFloat(t.tp2) == Some(f.tp2.takeProfit) && toFloat(t.tp3) == Some(f.tp3.takeProfit)
  {
    var s1 := MakeSignal(t.ticker, t.datetimeStr, t.entry, t.stopLoss, t.tp1, toFloat);
    var s2 := MakeSignal(t.ticker, t.datetimeStr, t.entry, t.stopLoss, t.tp2, toFloat);
    var s3 := MakeSignal(t.ticker, t.datetimeStr, t.entry, t.stopLoss, t.tp3, toFloat);
    assert s1.Ok? && s2.Ok? && s3.Ok?;
    assert FanOut(t, toFloat).value == Fan(s1.value, s2.value, s3.value);
    MakeSignalSpec(t.ticker, t.datetimeStr, t.entry, t.stopLoss, t.tp1, toFloat);
    MakeSignalSpec(t.ticker, t.datetimeStr, t.entry, t.stopLoss, t.tp2, toFloat);
    MakeSignalSpec(t.ticker, t.datetimeStr, t.entry, t.stopLoss, t.tp3, toFloat);
  }

  /** Tokens 2, 5, 7, 9 and any after token 10 never matter. */
  lemma IgnoredTokens(a: seq<string>, b: seq<string>)
    requires |a| >= TOKENS_NEEDED && |b| >= TOKENS_NEEDED
    requires a[0] == b[0] && a[1] == b[1] && a[3] == b[3] && a[4] == b[4]
    requires a[6] == b[6] && a[8] == b[8] && a[10] == b[10]
    ensures ReadTokens(a) == ReadTokens(b)
  {
  }

  /** The text of a data line after `split(",")`: a line with fewer than 11 tokens fails. */
  lemma ShortLineFails(line: string, toFloat: Floats)
    requires Count(line, ',') < TOKENS_NEEDED - 1
    ensures LineSignals(line, toFloat) == Err(ShortLine(Count(line, ',') + 1))
  {
  }

  /** The results of the data lines, one per line, in order. */
  function FanAll(lines: seq<string>, toFloat: Floats): (results: seq<Result<Fan, TradesError>>)
    ensures |results| == |lines|
  {
    if lines == [] then [] else FanAll(lines[..|lines| - 1], toFloat) + [LineSignals(lines[|lines| - 1], toFloat)]
  }

  ghost predicate FannedAt(results: seq<Result<Fan, TradesError>>, lines: seq<string>, toFloat: Floats, k: int)
    requires 0 <= k < |results| == |lines|
  {
    results[k] == LineSignals(lines[k], toFloat)
  }

  lemma {:induction false} FanAllAt(lines: seq<string>, toFloat: Floats)
    ensures forall k :: 0 <= k < |lines| ==> FannedAt(FanAll(lines, toFloat), lines, toFloat, k)
    decreases |lines|
  {
    if lines != [] {
      var init, last := lines[..|lines| - 1], LineSignals(lines[|lines| - 1], toFloat);
      FanAllAt(init, toFloat);
      assert FanAll(lines, toFloat) == FanAll(init, toFloat) + [last];
      forall k | 0 <= k < |lines| ensures FannedAt(FanAll(lines, toFloat), lines, toFloat, k) {
        if k < |init| {
          assert FannedAt(FanAll(init, toFloat), init, toFloat, k);
        } else {
          assert lines[k] == lines[|lines| - 1];
        }
      }
    }
  }

  /** The loop over the results: every line's fan in order, or the first failure. */
  function Gather(results: seq<Result<Fan, TradesError>>): (r: Result<seq<Fan>, TradesError>)
    ensures r.Ok? ==> |r.value| == |results|
  {
    if results == [] then Ok([])
    else
      match Gather(results[..|results| - 1])
      case Err(e) => Err(e)
      case Ok(fans) =>
        match results[|results| - 1]
        case Err(e) => Err(e)
        case Ok(f) => Ok(fans + [f])
  }

  /** A successful pass keeps each line's fan at the line's place. */
  lemma {:induction false} GatherAt(results: seq<Result<Fan, TradesError>>)
    requires Gather(results).Ok?
    ensures forall i :: 0 <= i < |results| ==> results[i] == Ok(Gather(results).value[i])
  {
    if results != [] {
      var init := results[..|results| - 1];
      GatherAt(init);
      forall i | 0 <= i < |results| ensures results[i] == Ok(Gather(results).value[i]) {
        if i < |init| {
          assert results[i] == init[i];
        }
      }
    }
  }

  /** The pass succeeds exactly when every line does. */
  lemma {:induction false} GatherOk(results: seq<Result<Fan, TradesError>>)
    ensures Gather(results).Ok? <==> forall i :: 0 <= i < |results| ==> results[i].Ok?
  {
    if results != [] {
      var init := results[..|results| - 1];
      GatherOk(init);
      if forall i :: 0 <= i < |results| ==> results[i].Ok? {
        assert forall i :: 0 <= i < |init| ==> init[i].Ok? by {
          forall i | 0 <= i < |init| ensures init[i].Ok? {
            assert init[i] == results[i];
          }
        }
      } else {
        var j :| 0 <= j < |results| && !results[j].Ok?;
        if j < |init| {
          assert init[j] == results[j];
        }
      }
    }
  }

  /** A successful line after successful lines extends the pass by its fan. */
  lemma GatherSnoc(results: seq<Result<Fan, TradesError>>, j: nat, fans: seq<Fan>, f: Fan)
    requires j < |results| && Gather(results[..j]) == Ok(fans) && results[j] == Ok(f)
    ensures Gather(results[..j + 1]) == Ok(fans + [f])
  {
    assert results[..j + 1][..j] == results[..j];
  }

  /** A failure after successful lines stops the pass with that failure. */
  lemma {:induction false} GatherStops(results: seq<Result<Fan, TradesError>>, j: nat)
    requires j < |results| && Gather(results[..j]).Ok? && results[j].Err?
    ensures Gather(results) == Err(results[j].error)
    decreases |results|
  {
    if j == |results| - 1 {
      assert results[..|results| - 1] == results[..j];
    } else {
      var init := results[..|results| - 1];
      assert init[..j] == results[..j] && init[j] == results[j];
      GatherStops(init, j);
    }
  }

  /** The signal of a fan for take-profit level 1, 2 or 3. */
  function Level(f: Fan, level: nat): SignalValue
  {
    if level == 1 then f.tp1 else if level == 2 then f.tp2 else f.tp3
  }

  /** `signals[f"TP{level}"]`: the level's signal of every fan, in order. */
  function Targets(fans: seq<Fan>, level: nat): (list: seq<SignalValue>)
    ensures |list| == |fans|
  {
    if fans == [] then [] else Targets(fans[..|fans| - 1], level) + [Level(fans[|fans| - 1], level)]
  }

  lemma {:induction false} TargetsAt(fans: seq<Fan>, level: nat, i: nat)
    requires i < |fans|
    ensures Targets(fans, level)[i] == Level(fans[i], level)
    decreases |fans|
  {
    if i < |fans| - 1 {
      TargetsAt(fans[..|fans| - 1], level, i);
    }
  }

  /** `signals`: TP1, TP2 and TP3 each hold one signal per line, and no key exists before the first append. */
  function Book(fans: seq<Fan>): map<string, seq<SignalValue>>
  {
    if fans == [] then map[]
    else map["TP1" := Targets(fans, 1), "TP2" := Targets(fans, 2), "TP3" := Targets(fans, 3)]
  }

  /** `load_beta_trades(filename)` on the lines of the file. */
  function BetaTrades(lines: seq<string>, toFloat: Floats): (r: Result<map<string, seq<SignalValue>>, TradesError>)
    ensures lines == [] ==> r == Err(EmptyFile)
    ensures r.Ok? ==> r.value == map[] || r.value.Keys == {"TP1", "TP2", "TP3"}
  {
    if lines == [] then Err(EmptyFile)
    else
      match Gather(FanAll(lines[1..], toFloat))
      case Err(e) => Err(e)
      case Ok(fans) => Ok(Book(fans))
  }

  /** `signals[key].append(s)` on a `defaultdict(list)`. */
  function Append(signals: map<string, seq<SignalValue>>, key: string, s: SignalValue): (r: map<string, seq<SignalValue>>)
    ensures r.Keys == signals.Keys + {key}
  {
    signals[key := (if key in signals then signals[key] else []) + [s]]
  }

  lemma BookSnoc(fans: seq<Fan>, f: Fan)
    ensures Append(Append(Append(Book(fans), "TP1", f.tp1), "TP2", f.tp2), "TP3", f.tp3) == Book(fans + [f])
  {
    assert (fans + [f])[..|fans|] == fans;
    assert Targets(fans + [f], 1) == Targets(fans, 1) + [f.tp1];
    assert Targets(fans + [f], 2) == Targets(fans, 2) + [f.tp2];
    assert Targets(fans + [f], 3) == Targets(fans, 3) + [f.tp3];
  }

  /** The line at `j`, read and fanned out: the `j`-th result. */
  method LineAt(data: seq<string>, j: nat, results: seq<Result<Fan, TradesError>>, toFloat: Floats)
    returns (line: Result<Fan, TradesError>)
    requires j < |results| == |data|
    requires forall k :: 0 <= k < |data| ==> FannedAt(results, data, toFloat, k)
    ensures line == results[j]
  {
    line := LineSignals(data[j], toFloat);
    assert FannedAt(results, data, toFloat, j);
  }

  /** The three appends of one line. */
  method AddFan(signals: map<string, seq<SignalValue>>, fans: seq<Fan>, f: Fan)
    returns (next: map<string, seq<SignalValue>>)
    requires signals == Book(fans)
    ensures next == Book(fans + [f])
  {
    BookSnoc(fans, f);
    next := Append(signals, "TP1", f.tp1);
    next := Append(next, "TP2", f.tp2);
    next := Append(next, "TP3", f.tp3);
  }

  /** The loop of `load_beta_trades` over the data lines. */
  method AddLines(data: seq<string>, results: seq<Result<Fan, TradesError>>, toFloat: Floats)
    returns (r: Result<map<string, seq<SignalValue>>, TradesError>)
    requires |results| == |data|
    requires forall k :: 0 <= k < |data| ==> FannedAt(results, data, toFloat, k)
    ensures Gather(results).Err? ==> r == Err(Gather(results).error)
    ensures Gather(results).Ok? ==> r == Ok(Book(Gather(results).value))
  {
    var signals: map<string, seq<SignalValue>> := map[];
    var fans: seq<Fan> := [];
    for j := 0 to |data|
      invariant Gather(results[..j]) == Ok(fans)
      invariant signals == Book(fans)
    {
      var line := LineAt(data, j, results, toFloat);
      if line.Err? {
        GatherStops(results, j);
        return Err(line.error);
      }
      var f := line.value;
      GatherSnoc(results, j, fans, f);
      signals := AddFan(signals, fans, f);
      fans := fans + [f];
    }
    assert results[..|data|] == results;
    return Ok(signals);
  }

  method LoadBetaTrades(lines: seq<string>, toFloat: Floats) returns (r: Result<map<string, seq<SignalValue>>, TradesError>)
    ensures r == BetaTrades(lines, toFloat)
  {
    if lines == [] {
      return Err(EmptyFile);
    }
    var data := lines[1..];
    FanAllAt(data, toFloat);
    r := AddLines(data, FanAll(data, toFloat), toFloat);
  }

  /** Each list has one signal per fan, in the fans' order; no fan, no key. */
  lemma BookColumns(fans: seq<Fan>, i: nat)
    ensures var m := Book(fans);
            && (fans == [] <==> m == map[])
            && (fans != [] ==> m.Keys == {"TP1", "TP2", "TP3"} && |m["TP1"]| == |m["TP2"]| == |m["TP3"]| == |fans|)
            && (i < |fans| ==> fans[i] == Fan(m["TP1"][i], m["TP2"][i], m["TP3"][i]))
  {
    if fans != [] {
      assert "TP1" in Book(fans);
    }
    if i < |fans| {
      TargetsAt(fans, 1, i);
      TargetsAt(fans, 2, i);
      TargetsAt(fans, 3, i);
    }
  }

  /**
   * After a header and `n` data lines, TP1, TP2 and TP3 each hold `n` signals, the one at
   * place `i` built from data line `i`; with no data line there is no key at all.
   */
  lemma TradesColumns(lines: seq<string>, toFloat: Floats, i: nat)
    requires BetaTrades(lines, toFloat).Ok?
    ensures var m := BetaTrades(lines, toFloat).value;
            && (|lines| == 1 <==> m == map[])
            && (|lines| > 1 ==> m.Keys == {"TP1", "TP2", "TP3"}
                                && |m["TP1"]| == |m["TP2"]| == |m["TP3"]| == |lines| - 1)
            && (|lines| > 1 && i < |lines| - 1 ==>
                  LineSignals(lines[i + 1], toFloat) == Ok(Fan(m["TP1"][i], m["TP2"][i], m["TP3"][i])))
  {
    var data := lines[1..];
    var results := FanAll(data, toFloat);
    var fans := Gather(results).value;
    BookColumns(fans, i);
    if i < |data| {
      GatherAt(results);
      FanAllAt(data, toFloat);
      assert FannedAt(results, data, toFloat, i);
      assert data[i] == lines[i + 1];
    }
  }

  /** The file is read in full only when every data line yields its three signals. */
  lemma TradesOk(lines: seq<string>, toFloat: Floats)
    requires lines != []
    ensures BetaTrades(lines, toFloat).Ok? <==> forall i :: 1 <= i < |lines| ==> LineSignals(lines[i], toFloat).Ok?
  {
    var data := lines[1..];
    var results := FanAll(data, toFloat);
    GatherOk(results);
    FanAllAt(data, toFloat);
    if forall i :: 1 <= i < |lines| ==> LineSignals(lines[i], toFloat).Ok? {
      forall k | 0 <= k < |data| ensures results[k].Ok? {
        assert FannedAt(results, data, toFloat, k);
        assert data[k] == lines[k + 1];
      }
    }
    if BetaTrades(lines, toFloat).Ok? {
      forall i | 1 <= i < |lines| ensures LineSignals(lines[i], toFloat).Ok? {
        assert FannedAt(results, data, toFloat, i - 1);
        assert data[i - 1] == lines[i];
      }
    }
  }

  /**
   * `s` is the `Signal` of a line split into `tokens` whose take profit is token `tp`: the
   * time is token 0 trimmed, the ticker token 1, the entry token 3, the stop loss token 10,
   * each trimmed and read as a float, and the type compares the two trimmed texts.
   */
  ghost predicate SignalFrom(s: SignalValue, tokens: seq<string>, tp: nat, toFloat: Floats)
    requires |tokens| >= TOKENS_NEEDED && tp < |tokens|
  {
    && s.datetimeStr == Strip(tokens[0]) && ParseMinute(Strip(tokens[0])) == Some(s.signalTime)
    && s.ticker == Strip(tokens[1])
    && toFloat(Strip(tokens[3])) == Some(s.entryPrice)
    && toFloat(Strip(tokens[10])) == Some(s.stopLoss)
    && toFloat(Strip(tokens[tp])) == Some(s.takeProfit)
    && s.kind == DirectionOf(Strip(tokens[tp]), Strip(tokens[10]))
  }

  /** A line that yields its three signals has at least 11 tokens, and TP1, TP2 and TP3 take their take profit from tokens 4, 6 and 8. */
  lemma LineFields(line: string, toFloat: Floats)
    requires LineSignals(line, toFloat).Ok?
    ensures var tokens := Split(line, ',');
            var f := LineSignals(line, toFloat).value;
            && |tokens| >= TOKENS_NEEDED
            && SignalFrom(f.tp1, tokens, 4, toFloat)
            && SignalFrom(f.tp2, tokens, 6, toFloat)
            && SignalFrom(f.tp3, tokens, 8, toFloat)
  {
    var tokens := Split(line, ',');
    var t := ReadTokens(tokens).value;
    FanShares(t, toFloat);
    MakeSignalSpec(t.ticker, t.datetimeStr, t.entry, t.stopLoss, t.tp1, toFloat);
    MakeSignalSpec(t.ticker, t.datetimeStr, t.entry, t.stopLoss, t.tp2, toFloat);
    MakeSignalSpec(t.ticker, t.datetimeStr, t.entry, t.stopLoss, t.tp3, toFloat);
  }

  /**
   * End to end: place `i` of `signals["TP1"]`, `["TP2"]` and `["TP3"]` is the signal built
   * from data line `i` (line `i + 1` of the file), with each field read from its token.
   */
  lemma TradeFields(lines: seq<string>, toFloat: Floats, i: nat)
    requires BetaTrades(lines, toFloat).Ok? && i < |lines| - 1
    ensures var m := BetaTrades(lines, toFloat).value;
            var tokens := Split(lines[i + 1], ',');
            && m.Keys == {"TP1", "TP2", "TP3"} && i < |m["TP1"]| && i < |m["TP2"]| && i < |m["TP3"]|
            && |tokens| >= TOKENS_NEEDED
            && SignalFrom(m["TP1"][i], tokens, 4, toFloat)
            && SignalFrom(m["TP2"][i], tokens, 6, toFloat)
            && SignalFrom(m["TP3"][i], tokens, 8, toFloat)
  {
    TradesColumns(lines, toFloat, i);
    LineFields(lines[i + 1], toFloat);
  }

  // ---------------------------------------------------------------------------
  // load_ticker of signals.py
  // ---------------------------------------------------------------------------

  /** `f"./csv/{ticker}.csv"`. */
  function TickerFile(ticker: string): string
  {
    "./csv/" + ticker + ".csv"
  }

  /** `pd.read_csv` raised on the file: `load_ticker` has no `try`, so the error reaches its caller. */
  datatype ReadFailed = ReadFailed(file: string)

  /** What a call returns or raises, and the cache it leaves. */
  datatype TickerLoaded = TickerLoaded(frame: Result<Frame, ReadFailed>, cache: map<string, Frame>)

  /** One call against the cache, keyed by the ticker alone. */
  function LoadBy(loaded: map<string, Frame>, ticker: string, read: FxLoader.Reader): (r: TickerLoaded)
    ensures loaded.Keys <= r.cache.Keys && r.cache.Keys <= loaded.Keys + {ticker}
    ensures forall t :: t in loaded ==> r.cache[t] == loaded[t]
    ensures r.frame.Ok? ==> ticker in r.cache && r.cache[ticker] == r.frame.value
    ensures r.frame.Err? ==> r.cache == loaded && r.frame.error == ReadFailed(TickerFile(ticker))
  {
    if ticker in loaded then TickerLoaded(Ok(loaded[ticker]), loaded)
    else
      match read(TickerFile(ticker))
      case None => TickerLoaded(Err(ReadFailed(TickerFile(ticker))), loaded)
      case Some(df) =>
        var series := SortByTime(ShiftHour(df));
        TickerLoaded(Ok(series), loaded[ticker := series])
  }

  /** The module-level dict `loaded` of `signals.py` and its loader. */
  class TickerCache {
    var loaded: map<string, Frame>

    constructor ()
      ensures loaded == map[]
    {
      loaded := map[];
    }

    method LoadTicker(ticker: string, read: FxLoader.Reader) returns (df: Result<Frame, ReadFailed>)
      modifies this
      ensures TickerLoaded(df, loaded) == LoadBy(old(loaded), ticker, read)
    {
      if ticker in loaded {
        return Ok(loaded[ticker]);
      }
      var filename := TickerFile(ticker);
      var file := read(filename);
      if file.None? {
        return Err(ReadFailed(filename));
      }
      var series := SortByTime(ShiftHour(file.value));
      loaded := loaded[ticker := series];
      return Ok(series);
    }
  }

  /** A hit reads nothing: the result and the cache do not depend on the reader. */
  lemma TickerHitReadsNothing(loaded: map<string, Frame>, ticker: string, read1: FxLoader.Reader, read2: FxLoader.Reader)
    requires ticker in loaded
    ensures LoadBy(loaded, ticker, read1) == LoadBy(loaded, ticker, read2) == TickerLoaded(Ok(loaded[ticker]), loaded)
  {
  }

  /**
   * A miss stores and returns the file's rows an hour earlier, sorted by time, none lost
   * or added; a read error is raised and stores nothing. A second call then hits.
   */
  lemma TickerMiss(loaded: map<string, Frame>, ticker: string, read: FxLoader.Reader, again: FxLoader.Reader)
    requires ticker !in loaded
    ensures var r := LoadBy(loaded, ticker, read);
            var file := read(TickerFile(ticker));
            && (file.None? ==> r == TickerLoaded(Err(ReadFailed(TickerFile(ticker))), loaded))
            && (file.Some? ==> r.cache == loaded[ticker := r.frame.value]
                               && SortedByTime(r.frame.value)
                               && multiset(r.frame.value) == multiset(ShiftHour(file.value))
                               && LoadBy(r.cache, ticker, again) == r)
  {
  }

  /**
   * On a miss this loader reads the file `fxdata.py`'s loader reads for the same ticker
   * with `csv_path="./csv"` and no resampling, and builds the same series from it. When
   * the read fails this loader raises where that one returns `None`.
   */
  lemma SameSeriesAsFxData(ticker: string, read: FxLoader.Reader, resample: FxLoader.Resampler)
    ensures FxLoader.CsvFile("./csv", ticker) == TickerFile(ticker)
    ensures var other := FxLoader.Fresh(FxLoader.CacheKey(ticker, None), "./csv", read, resample);
            var r := LoadBy(map[], ticker, read);
            && (r.frame.Ok? <==> other.Some?)
            && (r.frame.Ok? ==> r.frame.value == other.value)
            && (read(TickerFile(ticker)).None? ==> r.frame == Err(ReadFailed(TickerFile(ticker))) && other == None)
  {
    assert FxLoader.CsvFile("./csv", ticker) == TickerFile(ticker);
  }
}
