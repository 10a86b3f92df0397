/** The older polling checker: look-back windows for the indicator service,
    the price-signal and EMA-band tests, and one polling pass that keeps the
    tickets that did not alert. The quote and indicator services, the clock
    and the webhook are parameters, and each service may raise. */
module Checker {
  import opened Common

  // ---------------------------------------------------------------------
  // Look-back window
  // ---------------------------------------------------------------------

  /** Python's `int()` on a float: truncation toward zero. */
  function Trunc(x: real): int
  {
    if x >= 0.0 then x.Floor else -((-x).Floor)
  }

  lemma TruncMonotone(x: real, y: real)
    requires x <= y
    ensures Trunc(x) <= Trunc(y)
  {
    if x < 0.0 && y < 0.0 {
      assert (-y).Floor <= (-x).Floor;
    } else if x < 0.0 {
      assert -((-x).Floor) <= 0;
    }
  }

  /** The intervals the indicator service is asked about. */
  predicate IsInterval(interval: string)
  {
    interval in {"1", "5", "15", "60", "D", "W", "M"}
  }

  /** Seconds subtracted from the clock for an interval and a period count;
      nothing for an interval not listed. */
  function LookBack(interval: string, timePeriod: int): real
  {
    var candles := (timePeriod + 100) as real;
    if interval == "1" then 60.0 * candles
    else if interval == "5" then 300.0 * candles
    else if interval == "15" then 900.0 * candles
    else if interval == "60" then 3600.0 * candles
    else if interval == "D" then 86400.0 * ((timePeriod as real / 5.0) * 7.0 + 9.0)
    else if interval == "W" then 604800.0 * candles
    else if interval == "M" then 2419200.0 * candles
    else 0.0
  }

  datatype Window = Window(fromTime: int, toTime: int)

  /** The request window: `now` minus the look-back, and `now`, each
      truncated to whole seconds. Both ends read the clock; here they read
      the same `now`. */
  function CalculateTimePeriod(interval: string, timePeriod: int, now: real): (w: Window)
    ensures w.toTime == Trunc(now)
    ensures w.fromTime == Trunc(now - LookBack(interval, timePeriod))
    ensures !IsInterval(interval) ==> w.fromTime == w.toTime
  {
    var fromTime := now - LookBack(interval, timePeriod);
    Window(Trunc(fromTime), Trunc(now))
  }

  /** A window with a non-negative look-back never ends before it starts. */
  lemma WindowIsOrdered(interval: string, timePeriod: int, now: real)
    requires LookBack(interval, timePeriod) >= 0.0
    ensures CalculateTimePeriod(interval, timePeriod, now).fromTime
         <= CalculateTimePeriod(interval, timePeriod, now).toTime
  {
    TruncMonotone(now - LookBack(interval, timePeriod), now);
  }

  /** Width in seconds of one candle of each interval (a month as four
      weeks). */
  function IntervalSeconds(interval: string): real
  {
    match interval
    case "1" => 60.0
    case "5" => 300.0
    case "15" => 900.0
    case "60" => 3600.0
    case "D" => 86400.0
    case "W" => 604800.0
    case "M" => 2419200.0
    case _ => 0.0
  }

  /** For a non-negative period count the window holds at least that many
      candles: 100 spare candles for the intraday, weekly and monthly
      intervals, and for daily candles 7 calendar days per 5 trading days
      plus 9 spare days. */
  lemma {:induction false} LookBackCoversPeriods(interval: string, timePeriod: int)
    requires IsInterval(interval) && timePeriod >= 0
    ensures LookBack(interval, timePeriod) >= IntervalSeconds(interval) * timePeriod as real
    ensures interval != "D" ==>
      LookBack(interval, timePeriod) == IntervalSeconds(interval) * (timePeriod + 100) as real
    ensures interval == "D" ==>
      LookBack(interval, timePeriod) == 86400.0 * (timePeriod as real * 7.0 / 5.0 + 9.0)
  {
    var p := timePeriod as real;
    if interval == "D" {
      assert (p / 5.0) * 7.0 == p * 7.0 / 5.0;
      assert p * 7.0 / 5.0 + 9.0 >= p;
      MulMonotoneReal(86400.0, p, p * 7.0 / 5.0 + 9.0);
    } else {
      MulMonotoneReal(IntervalSeconds(interval), p, (timePeriod + 100) as real);
    }
  }

  /** Truncation moves a value by less than one. */
  lemma TruncClose(x: real)
    ensures x - 1.0 < Trunc(x) as real < x + 1.0
  {
  }

  /** For a listed interval and a non-negative period count the window, once
      both ends are truncated, still spans at least that many candles: the
      spare candles more than cover the two truncations. */
  lemma WindowCoversPeriods(interval: string, timePeriod: int, now: real)
    requires IsInterval(interval) && timePeriod >= 0
    ensures var w := CalculateTimePeriod(interval, timePeriod, now);
      (w.toTime - w.fromTime) as real >= IntervalSeconds(interval) * timePeriod as real
  {
    var back, width, p := LookBack(interval, timePeriod), IntervalSeconds(interval), timePeriod as real;
    LookBackCoversPeriods(interval, timePeriod);
    if interval == "D" {
      assert back - width * p == 86400.0 * (p * 2.0 / 5.0 + 9.0);
    } else {
      assert width >= 60.0;
      assert back - width * p == width * 100.0;
    }
    TruncClose(now);
    TruncClose(now - back);
  }

  lemma MulMonotoneReal(w: real, x: real, y: real)
    requires w >= 0.0 && x <= y
    ensures w * x <= w * y
  {
    assert w * y - w * x == w * (y - x);
  }

  // ---------------------------------------------------------------------
  // Signal tests
  // ---------------------------------------------------------------------

  /** "ABOVE" alerts at or above the signal price, "BELOW" at or below it;
      any other signal gives no answer, which callers read as no alert. */
  function EvalPriceSignal(price: real, signal: string, signalPrice: real): (r: Option<bool>)
    ensures r.Some? <==> signal == "ABOVE" || signal == "BELOW"
    ensures signal == "ABOVE" ==> r == Some(price >= signalPrice)
    ensures signal == "BELOW" ==> r == Some(price <= signalPrice)
  {
    if signal == "ABOVE" then Some(price == signalPrice || price > signalPrice)
    else if signal == "BELOW" then Some(price == signalPrice || price < signalPrice)
    else None
  }

  /** The price is within 5% of the EMA, both ends included: for a
      non-negative EMA a closed band of radius 5% of the EMA around it, for a
      negative EMA an empty band. */
  function EvalEma(currentPrice: real, ema: real): (r: bool)
    ensures ema >= 0.0 ==> (r <==> -(0.05 * ema) <= currentPrice - ema <= 0.05 * ema)
    ensures ema < 0.0 ==> !r
  {
    currentPrice <= ema * 1.05 && currentPrice >= ema * 0.95
  }

  // ---------------------------------------------------------------------
  // One polling pass
  // ---------------------------------------------------------------------

  /** A ticket as the dict the poller receives; a key the dict may lack is an
      `Option`, and reading a missing key raises. */
  datatype PollTicket = PollTicket(
    kind: string, symbol: string,
    signal: Option<string>, price: Option<real>, interval: Option<string>)

  /** What the outside world answers during a pass: the quote service, the
      indicator service (the last close and last EMA when its status is
      "ok", nothing otherwise), the webhook (whether the message went out or
      the send raised), the clock and the way a float is printed. Each
      service may raise instead of answering. */
  datatype Feeds = Feeds(
    quote: string -> Reply<real>,
    indicator: (string, Window) -> Reply<Option<(real, real)>>,
    deliver: string -> bool,
    now: real,
    show: real -> string)

  datatype Handled = Failed | Alerted(message: string) | NotAlerted

  /** Names of the intervals in EMA alert messages. */
  const IntervalNames: map<string, string> := map[
    "1" := "1 Minute", "5" := "5 Minutes", "15" := "15 Minutes", "30" := "30 Minutes",
    "60" := "60 Minutes", "D" := "Daily", "W" := "Weekly", "M" := "Monthly", "Y" := "Yearly"]

  /** Whether a quote meets a signal: "ABOVE" at or over the signal price,
      "BELOW" at or under it, and nothing else ever. */
  predicate Meets(current: real, signal: string, price: real)
  {
    (signal == "ABOVE" && current >= price) || (signal == "BELOW" && current <= price)
  }

  /** The webhook message of a price-level hit. */
  function PriceMessage(symbol: string, signal: string, price: real, current: real,
                        show: real -> string): string
  {
    symbol + " hit signal of " + signal + " " + show(price) + " at " + show(current)
  }

  /** A price-level ticket: quote the symbol, test the signal and, on a hit,
      send the message. A raising quote, a missing signal or price, or a
      send that raises fails the ticket; a quote that does not meet the
      signal leaves it quiet. */
  function HandlePriceLevel(t: PollTicket, f: Feeds): (h: Handled)
    ensures f.quote(t.symbol).Raises? || t.signal.None? || t.price.None? ==> h == Failed
    ensures f.quote(t.symbol).Answers? && t.signal.Some? && t.price.Some? ==>
      var current := f.quote(t.symbol).value;
      var m := PriceMessage(t.symbol, t.signal.value, t.price.value, current, f.show);
      (h.Alerted? <==> Meets(current, t.signal.value, t.price.value) && f.deliver(m)) &&
      (h.Failed? <==> Meets(current, t.signal.value, t.price.value) && !f.deliver(m)) &&
      (h.Alerted? ==> h.message == m)
  {
    match f.quote(t.symbol)
    case Raises => Failed
    case Answers(current) =>
      match (t.signal, t.price)
      case (Some(signal), Some(price)) =>
        (match EvalPriceSignal(current, signal, price)
         case Some(true) =>
           var m := PriceMessage(t.symbol, signal, price, current, f.show);
           if f.deliver(m) then Alerted(m) else Failed
         case _ => NotAlerted)
      case _ => Failed
  }

  /** The webhook message of an EMA hit on an interval known by name. */
  function EmaMessage(symbol: string, interval: string): string
    requires interval in IntervalNames
  {
    symbol + " hit EMA level on the " + IntervalNames[interval] + ".\n"
  }

  /** An EMA ticket: the daily 10-period EMA is always asked for, whatever the
      ticket's interval. A raising request fails the ticket; a status other
      than "ok" or a close outside the band leaves it quiet; on a hit the
      ticket's interval is named in the message, and a missing or unknown
      interval, or a send that raises, fails the ticket. */
  function HandleEma(t: PollTicket, f: Feeds): (h: Handled)
    ensures f.indicator(t.symbol, CalculateTimePeriod("D", 10, f.now)).Raises? ==> h == Failed
    ensures f.indicator(t.symbol, CalculateTimePeriod("D", 10, f.now)) == Answers(None) ==> h == NotAlerted
    ensures f.indicator(t.symbol, CalculateTimePeriod("D", 10, f.now)).Answers? ==>
      match f.indicator(t.symbol, CalculateTimePeriod("D", 10, f.now)).value
      case None => true
      case Some((close, ema)) =>
        (h.NotAlerted? <==> !EvalEma(close, ema)) &&
        (h.Alerted? <==> EvalEma(close, ema) && t.interval.Some? && t.interval.value in IntervalNames
                         && f.deliver(EmaMessage(t.symbol, t.interval.value))) &&
        (h.Alerted? ==> t.interval.Some? && t.interval.value in IntervalNames &&
                        h.message == EmaMessage(t.symbol, t.interval.value))
  {
    match f.indicator(t.symbol, CalculateTimePeriod("D", 10, f.now))
    case Raises => Failed
    case Answers(Some((close, ema))) =>
      if EvalEma(close, ema) then
        match t.interval
        case Some(interval) =>
          if interval in IntervalNames then
            var m := EmaMessage(t.symbol, interval);
            if f.deliver(m) then Alerted(m) else Failed
          else Failed
        case None => Failed
      else NotAlerted
    case Answers(None) => NotAlerted
  }

  /** Dispatch on the ticket type; a ticket of any other type is never
      alerted. */
  function Handle(t: PollTicket, f: Feeds): (h: Handled)
    ensures t.kind != "price_level" && t.kind != "ema" ==> h == NotAlerted
    ensures t.kind == "price_level" ==> h == HandlePriceLevel(t, f)
    ensures t.kind == "ema" ==> h == HandleEma(t, f)
  {
    if t.kind == "price_level" then HandlePriceLevel(t, f)
    else if t.kind == "ema" then HandleEma(t, f)
    else NotAlerted
  }

  datatype Pass = Pass(kept: seq<PollTicket>, sent: seq<string>, failed: bool)

  /** The pass over the first tickets, one at a time: a quiet ticket is kept,
      an alerting one sends its message, and a failing one ends the pass. */
  function PollSpec(ts: seq<PollTicket>, f: Feeds): Pass
    decreases |ts|
  {
    if |ts| == 0 then Pass([], [], false)
    else
      var prev := PollSpec(ts[..|ts| - 1], f);
      if prev.failed then prev
      else match Handle(ts[|ts| - 1], f)
        case Failed => Pass(prev.kept, prev.sent, true)
        case Alerted(m) => Pass(prev.kept, prev.sent + [m], false)
        case NotAlerted => Pass(prev.kept + [ts[|ts| - 1]], prev.sent, false)
  }

  /** One polling pass: returns the tickets that did not alert, in their
      order, and the webhook messages sent; an exception in any ticket ends
      the pass and no list comes back (the messages already sent stay sent). */
  method PollTickers(tickets: seq<PollTicket>, f: Feeds) returns (kept: Option<seq<PollTicket>>, sent: seq<string>)
    ensures kept.None? <==> PollSpec(tickets, f).failed
    ensures kept.Some? ==> kept.value == PollSpec(tickets, f).kept
    ensures sent == PollSpec(tickets, f).sent
  {
    var notAlerted: seq<PollTicket> := [];
    sent := [];
    var i := 0;
    while i < |tickets|
      invariant 0 <= i <= |tickets|
      invariant PollSpec(tickets[..i], f) == Pass(notAlerted, sent, false)
    {
      assert tickets[..i + 1][..i] == tickets[..i];
      var t := tickets[i];
      var handled := Handle(t, f);
      if handled.Failed? {
        assert PollSpec(tickets[..i + 1], f).failed;
        PollSpecStopsAtFailure(tickets, f, i + 1);
        return None, sent;
      }
      if handled.Alerted? {
        sent := sent + [handled.message];
      } else {
        notAlerted := notAlerted + [t];
      }
      i := i + 1;
    }
    assert tickets[..i] == tickets;
    kept := Some(notAlerted);
  }

  /** Once a pass fails it stays failed, with nothing more sent. */
  lemma {:induction false} PollSpecStopsAtFailure(ts: seq<PollTicket>, f: Feeds, n: nat)
    requires n <= |ts| && PollSpec(ts[..n], f).failed
    ensures PollSpec(ts, f) == PollSpec(ts[..n], f)
    decreases |ts| - n
  {
    if n < |ts| {
      assert ts[..n + 1][..n] == ts[..n];
      PollSpecStopsAtFailure(ts, f, n + 1);
    } else {
      assert ts[..n] == ts;
    }
  }

  /** A pass fails exactly when one of its tickets fails. */
  lemma {:induction false} PollFailsAtSomeTicket(ts: seq<PollTicket>, f: Feeds)
    ensures PollSpec(ts, f).failed <==> exists i :: 0 <= i < |ts| && Handle(ts[i], f).Failed?
    decreases |ts|
  {
    if |ts| > 0 {
      var front := ts[..|ts| - 1];
      PollFailsAtSomeTicket(front, f);
      if exists i :: 0 <= i < |front| && Handle(front[i], f).Failed? {
        var i :| 0 <= i < |front| && Handle(front[i], f).Failed?;
        assert ts[i] == front[i];
      }
      if exists i :: 0 <= i < |ts| && Handle(ts[i], f).Failed? {
        var i :| 0 <= i < |ts| && Handle(ts[i], f).Failed?;
        if i < |ts| - 1 {
          assert front[i] == ts[i];
        }
      }
    }
  }

  /** The tickets that do not alert, in their original order. */
  function Quiet(ts: seq<PollTicket>, f: Feeds): seq<PollTicket>
    decreases |ts|
  {
    if |ts| == 0 then []
    else (if Handle(ts[0], f) == NotAlerted then [ts[0]] else []) + Quiet(ts[1..], f)
  }

  lemma {:induction false} QuietSnoc(ts: seq<PollTicket>, t: PollTicket, f: Feeds)
    ensures Quiet(ts + [t], f) == Quiet(ts, f) + (if Handle(t, f) == NotAlerted then [t] else [])
    decreases |ts|
  {
    if |ts| == 0 {
      assert [t][1..] == [];
    } else {
      assert (ts + [t])[1..] == ts[1..] + [t];
      QuietSnoc(ts[1..], t, f);
    }
  }

  /** A pass that completes keeps exactly the tickets that did not alert, in
      their original order, and sends one message per other ticket. */
  lemma {:induction false} PollKeepsTheQuietOnes(ts: seq<PollTicket>, f: Feeds)
    requires !PollSpec(ts, f).failed
    ensures PollSpec(ts, f).kept == Quiet(ts, f)
    ensures |PollSpec(ts, f).kept| + |PollSpec(ts, f).sent| == |ts|
    decreases |ts|
  {
    if |ts| > 0 {
      var front := ts[..|ts| - 1];
      assert ts == front + [ts[|ts| - 1]];
      PollKeepsTheQuietOnes(front, f);
      QuietSnoc(front, ts[|ts| - 1], f);
    }
  }

  /** A ticket of an unknown type is always kept by a completed pass. */
  lemma {:induction false} UnknownKindsAreKept(ts: seq<PollTicket>, f: Feeds, i: nat)
    requires !PollSpec(ts, f).failed
    requires i < |ts| && ts[i].kind != "price_level" && ts[i].kind != "ema"
    ensures ts[i] in PollSpec(ts, f).kept
    decreases |ts|
  {
    var front := ts[..|ts| - 1];
    if i < |ts| - 1 {
      assert ts[i] == front[i];
      UnknownKindsAreKept(front, f, i);
    }
  }

  /** Whether an EMA ticket stays quiet depends on its symbol only: the
      interval it names never reaches the indicator request. */
  lemma EmaIgnoresTicketInterval(t1: PollTicket, t2: PollTicket, f: Feeds)
    requires t1.kind == "ema" && t2.kind == "ema" && t1.symbol == t2.symbol
    requires t1.interval.Some? && t1.interval.value in IntervalNames
    requires t2.interval.Some? && t2.interval.value in IntervalNames
    ensures Handle(t1, f).NotAlerted? == Handle(t2, f).NotAlerted?
  {
  }
}
