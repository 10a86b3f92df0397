/** Fetching bars from the Alpaca v1 market-data service: the base bar
    resolution for each timeframe, how many base bars a request for `limit`
    candles needs, the loop that pages backwards in time prepending each page,
    and the tail that is kept before resampling. The service itself is a
    function from (symbol, resolution, end time) to the page it returns,
    oldest bar first. */
module Alpaca {
  import opened Common
  import Api
  import Ema

  /** The resolution named in the request and how many bars of it make one
      unit of the asked timeframe. */
  datatype Resolution = Resolution(tf: string, num: int)

  /** The base resolution table: an hour is four 15-minute bars, a week five
      daily bars and a month twenty; any other timeframe leaves the empty
      resolution and a count of 0. */
  function BaseResolution(timeframe: string): (r: Resolution)
    ensures Api.IsTimeframe(timeframe) <==> r.num > 0
    ensures !Api.IsTimeframe(timeframe) ==> r == Resolution("", 0)
  {
    if timeframe == "minute" then Resolution("minute", 1)
    else if timeframe == "hour" then Resolution("15Min", 4)
    else if timeframe == "day" then Resolution("day", 1)
    else if timeframe == "week" then Resolution("day", 5)
    else if timeframe == "month" then Resolution("day", 20)
    else Resolution("", 0)
  }

  /** Seconds covered by one bar of a request resolution. */
  function ResolutionSeconds(tf: string): Option<int>
  {
    if tf == "minute" then Some(60)
    else if tf == "15Min" then Some(900)
    else if tf == "day" then Some(86400)
    else None
  }

  /** For minutes, hours and days the base bars of one unit cover exactly the
      unit's width; a week and a month count trading days (five and twenty)
      rather than the seven and thirty calendar days of their width. */
  lemma BaseBarsCoverOneUnit(timeframe: string)
    requires Api.IsTimeframe(timeframe)
    ensures var r := BaseResolution(timeframe);
      ResolutionSeconds(r.tf).Some? && Ema.CandlesToSeconds(timeframe, 1).Some? &&
      (timeframe in {"minute", "hour", "day"} ==>
         r.num * ResolutionSeconds(r.tf).value == Ema.CandlesToSeconds(timeframe, 1).value) &&
      (timeframe == "week" ==> r.tf == "day" && r.num == 5) &&
      (timeframe == "month" ==> r.tf == "day" && r.num == 20)
  {
  }

  /** The number of base bars to fetch: `limit` candles of `multiplier`
      units, each unit `num` base bars. */
  function Required(timeframe: string, multiplier: int, limit: int): (n: int)
    ensures !Api.IsTimeframe(timeframe) ==> n == 0
  {
    limit * BaseResolution(timeframe).num * multiplier
  }

  /** A known timeframe needs at least one base bar per unit asked for. */
  lemma RequiredCoversUnits(timeframe: string, multiplier: int, limit: int)
    requires Api.IsTimeframe(timeframe) && limit > 0 && multiplier > 0
    ensures Required(timeframe, multiplier, limit) >= limit * multiplier
  {
    var num := BaseResolution(timeframe).num;
    var units := limit * multiplier;
    assert limit * num * multiplier == units * num;
    Api.MulMonotone(units, 1, num);
  }

  /** The service: the page of bars for a symbol at a resolution ending at a
      time, oldest first. */
  type Fetch = (string, string, int) -> seq<Api.Candle>

  /** The host's clock reading of a time, labelled as New York time: the
      program turns a timestamp into the host's local wall-clock time and
      then attaches the New York zone to it without converting. The instant
      that label names lies `zoneGap(t)` seconds after `t`, where `zoneGap`
      is the host's UTC offset minus New York's at that time; it is zero exactly
      when the host's offset equals New York's at that time. */
  function LabelledEnd(t: int, zoneGap: int -> int): int
  {
    t + zoneGap(t)
  }

  /** The paging loop as a function of its state: while the buffer is short,
      fetch the page ending at `end`, prepend it, and continue from the time
      of the page's oldest bar, labelled as New York time. An empty page has
      no oldest bar, and reading it raises. */
  function Paged(fetch: Fetch, symbol: string, tf: string, required: int, zoneGap: int -> int,
                 candles: seq<Api.Candle>, end: int): Option<seq<Api.Candle>>
    decreases required - |candles|
  {
    if |candles| >= required then Some(candles)
    else
      var page := fetch(symbol, tf, end);
      if |page| == 0 then None
      else Paged(fetch, symbol, tf, required, zoneGap, page + candles, LabelledEnd(page[0].t, zoneGap))
  }

  /** Python's `s[start:]`: a negative start counts from the end, and a
      start of 0 keeps everything. */
  function SliceFrom<T>(s: seq<T>, start: int): (r: seq<T>)
    ensures |r| <= |s|
    ensures r == s[|s| - |r|..]
  {
    if start >= 0 then (if start <= |s| then s[start..] else [])
    else if |s| + start >= 0 then s[|s| + start..]
    else s
  }

  /** The buffer the data frame is built from: everything paged in from the
      current time (labelled as New York time too), cut to its last
      `required` bars. */
  function Buffer(fetch: Fetch, symbol: string, timeframe: string, multiplier: int, limit: int,
                  zoneGap: int -> int, now: int): Option<seq<Api.Candle>>
  {
    var required := Required(timeframe, multiplier, limit);
    match Paged(fetch, symbol, BaseResolution(timeframe).tf, required, zoneGap, [], LabelledEnd(now, zoneGap))
    case None => None
    case Some(candles) => Some(SliceFrom(candles, -required))
  }

  /** `get_bars`: page backwards from `now` until enough base bars are
      buffered, keep the last `required`, and resample them into candles of
      the asked timeframe. */
  method GetBars(fetch: Fetch, symbol: string, timeframe: string, multiplier: int, limit: int,
                 zoneGap: int -> int, now: int, origin: int)
    returns (bars: Option<seq<Api.Candle>>)
    ensures bars == match Buffer(fetch, symbol, timeframe, multiplier, limit, zoneGap, now)
      case None => None
      case Some(buffer) => Api.AggregateCandles(buffer, timeframe, multiplier, origin)
  {
    var resolution := BaseResolution(timeframe);
    var required := limit * resolution.num * multiplier;
    assert required == Required(timeframe, multiplier, limit);
    var candles: seq<Api.Candle> := [];
    var end := now + zoneGap(now);
    while |candles| < required
      invariant Paged(fetch, symbol, resolution.tf, required, zoneGap, candles, end)
             == Paged(fetch, symbol, resolution.tf, required, zoneGap, [], LabelledEnd(now, zoneGap))
      decreases required - |candles|
    {
      var page := fetch(symbol, resolution.tf, end);
      candles := page + candles;
      if |page| == 0 {
        return None;
      }
      end := page[0].t + zoneGap(page[0].t);
    }
    bars := Api.AggregateCandles(SliceFrom(candles, -required), timeframe, multiplier, origin);
  }

  /** Paging only ever prepends: what was buffered stays, at the end, behind
      every older page, and a finished buffer holds at least `required`
      bars. */
  lemma {:induction false} PagedPrepends(fetch: Fetch, symbol: string, tf: string, required: int,
                                         zoneGap: int -> int, candles: seq<Api.Candle>, end: int)
    ensures match Paged(fetch, symbol, tf, required, zoneGap, candles, end)
      case None => true
      case Some(out) => |out| >= required && |out| >= |candles| && out[|out| - |candles|..] == candles
    decreases required - |candles|
  {
    if |candles| < required {
      var page := fetch(symbol, tf, end);
      if |page| > 0 {
        var next := LabelledEnd(page[0].t, zoneGap);
        PagedPrepends(fetch, symbol, tf, required, zoneGap, page + candles, next);
        match Paged(fetch, symbol, tf, required, zoneGap, page + candles, next)
        case None =>
        case Some(out) =>
          assert out[|out| - |candles|..] == (page + candles)[|page|..];
      }
    }
  }

  /** The kept buffer has exactly `required` bars when any are required, and
      none otherwise: the tail `[-0:]` would keep everything, but with
      nothing required nothing was fetched. */
  lemma BufferLength(fetch: Fetch, symbol: string, timeframe: string, multiplier: int, limit: int,
                     zoneGap: int -> int, now: int)
    ensures var required := Required(timeframe, multiplier, limit);
      match Buffer(fetch, symbol, timeframe, multiplier, limit, zoneGap, now)
      case None => true
      case Some(buffer) => |buffer| == if required > 0 then required else 0
  {
    var required := Required(timeframe, multiplier, limit);
    PagedPrepends(fetch, symbol, BaseResolution(timeframe).tf, required, zoneGap, [], LabelledEnd(now, zoneGap));
  }

  /** An unknown timeframe requires no bars, so no request is made: the
      result is the same whatever the service would answer, and resampling
      the empty buffer then fails on the unknown rule. */
  lemma UnknownTimeframeFetchesNothing(fetch: Fetch, other: Fetch, symbol: string, timeframe: string,
                                       multiplier: int, limit: int, zoneGap: int -> int, now: int, origin: int)
    requires !Api.IsTimeframe(timeframe)
    ensures Buffer(fetch, symbol, timeframe, multiplier, limit, zoneGap, now) == Some([])
    ensures Buffer(other, symbol, timeframe, multiplier, limit, zoneGap, now) == Some([])
    ensures Api.AggregateCandles([], timeframe, multiplier, origin) == None
  {
  }

  /** A service that answers each request with bars in time order, none after
      the requested end. */
  ghost predicate WellBehaved(fetch: Fetch, symbol: string, tf: string)
  {
    forall end :: Api.Ascending(fetch(symbol, tf, end)) &&
      forall i :: 0 <= i < |fetch(symbol, tf, end)| ==> fetch(symbol, tf, end)[i].t <= end
  }

  /** A host whose clock is not ahead of New York's: the labelled end of a
      time is never later than the time itself. */
  ghost predicate NotAheadOfNewYork(zoneGap: int -> int)
  {
    forall t :: zoneGap(t) <= 0
  }

  /** Because each page ends no later than the oldest bar already held, a
      well-behaved service yields a buffer in time order, on a host not ahead
      of New York time (on a New York host the gap is zero). */
  lemma {:induction false} PagedAscending(fetch: Fetch, symbol: string, tf: string, required: int,
                                          zoneGap: int -> int, candles: seq<Api.Candle>, end: int)
    requires WellBehaved(fetch, symbol, tf)
    requires NotAheadOfNewYork(zoneGap)
    requires Api.Ascending(candles)
    requires forall i :: 0 <= i < |candles| ==> end <= candles[i].t
    ensures match Paged(fetch, symbol, tf, required, zoneGap, candles, end)
      case None => true
      case Some(out) => Api.Ascending(out)
    decreases required - |candles|
  {
    if |candles| < required {
      var page := fetch(symbol, tf, end);
      if |page| > 0 {
        var next := page + candles;
        var nextEnd := LabelledEnd(page[0].t, zoneGap);
        assert Api.Ascending(page);
        assert nextEnd <= page[0].t;
        forall i, j | 0 <= i < j < |next| ensures next[i].t <= next[j].t {
          if j >= |page| && i < |page| {
            assert page[i].t <= end;
          }
        }
        forall i | 0 <= i < |next| ensures nextEnd <= next[i].t {
          if i >= |page| {
            assert page[0].t <= end;
          }
        }
        PagedAscending(fetch, symbol, tf, required, zoneGap, next, nextEnd);
      }
    }
  }

  /** The buffer `get_bars` resamples is in time order when the service is
      and the host is not ahead of New York time. */
  lemma BufferAscending(fetch: Fetch, symbol: string, timeframe: string, multiplier: int, limit: int,
                        zoneGap: int -> int, now: int)
    requires WellBehaved(fetch, symbol, BaseResolution(timeframe).tf)
    requires NotAheadOfNewYork(zoneGap)
    ensures match Buffer(fetch, symbol, timeframe, multiplier, limit, zoneGap, now)
      case None => true
      case Some(buffer) => Api.Ascending(buffer)
  {
    var required := Required(timeframe, multiplier, limit);
    PagedAscending(fetch, symbol, BaseResolution(timeframe).tf, required, zoneGap, [], LabelledEnd(now, zoneGap));
  }

  /** A service that answers every request with one bar, a minute before
      the requested end. */
  function OneBarBeforeEnd(symbol: string, tf: string, end: int): seq<Api.Candle>
  {
    [Api.Candle(end - 60, 1.0, 1.0, 1.0, 1.0, 1)]
  }

  /** The gap on a UTC host in summer, when New York is four hours behind
      UTC. */
  function SummerUtcGap(t: int): int
  {
    14400
  }

  /** On a host ahead of New York time, each request ends after the oldest
      bar already held, so the next page overlaps the buffer and the buffer
      leaves time order: with a well-behaved service that answers one bar a
      minute before each end, a two-bar buffer comes out newest first. */
  lemma AheadOfNewYorkBreaksOrder()
    ensures WellBehaved(OneBarBeforeEnd, "SPY", "minute")
    ensures Required("minute", 1, 2) == 2
    ensures Buffer(OneBarBeforeEnd, "SPY", "minute", 1, 2, SummerUtcGap, 0)
      == Some([Api.Candle(28680, 1.0, 1.0, 1.0, 1.0, 1), Api.Candle(14340, 1.0, 1.0, 1.0, 1.0, 1)])
    ensures !Api.Ascending(Buffer(OneBarBeforeEnd, "SPY", "minute", 1, 2, SummerUtcGap, 0).value)
  {
    var first := Api.Candle(14340, 1.0, 1.0, 1.0, 1.0, 1);
    var second := Api.Candle(28680, 1.0, 1.0, 1.0, 1.0, 1);
    assert LabelledEnd(0, SummerUtcGap) == 14400;
    assert LabelledEnd(14340, SummerUtcGap) == 28740;
    assert LabelledEnd(28680, SummerUtcGap) == 43080;
    assert [first] + [] == [first];
    assert [second] + [first] == [second, first];
    assert Paged(OneBarBeforeEnd, "SPY", "minute", 2, SummerUtcGap, [second, first], 43080) == Some([second, first]);
    assert Paged(OneBarBeforeEnd, "SPY", "minute", 2, SummerUtcGap, [first], 28740) == Some([second, first]);
    assert Paged(OneBarBeforeEnd, "SPY", "minute", 2, SummerUtcGap, [], 14400) == Some([second, first]);
    assert SliceFrom([second, first], -2) == [second, first];
    var buffer := [second, first];
    assert buffer[0].t > buffer[1].t;
  }

  /** Hourly resampling counts an incomplete bucket as a bar: four
      quarter-hour bars starting at half past make two hourly bars, so asking
      for one hour gives back two. */
  lemma IncompleteHourCounts()
    ensures var quarter := (k: int) => Api.Candle(1800 + 900 * k, 1.0, 1.0, 1.0, 1.0, 1);
      var bars := [quarter(0), quarter(1), quarter(2), quarter(3)];
      Required("hour", 1, 1) == |bars| &&
      Api.AggregateCandles(bars, "hour", 1, 0).Some? &&
      |Api.AggregateCandles(bars, "hour", 1, 0).value| == 2
  {
    var quarter := (k: int) => Api.Candle(1800 + 900 * k, 1.0, 1.0, 1.0, 1.0, 1);
    var bars := [quarter(0), quarter(1), quarter(2), quarter(3)];
    Api.ConvertTimeframeRule("hour", 1);
    assert bars[..3][..2][..1][..0] == [];
    assert bars[..3][..2][..1] == bars[..1];
    assert bars[..3][..2] == bars[..2];
    assert |Api.Aggregate(bars[..1], 0, 3600)| == 1;
    assert |Api.Aggregate(bars[..2], 0, 3600)| == 1;
    assert |Api.Aggregate(bars[..3], 0, 3600)| == 2;
    assert |Api.Aggregate(bars, 0, 3600)| == 2;
  }
}
