/** The EMA watch: fires when the exponential moving average of a symbol's
    candles sits below the latest candle's low band, and is re-checked every
    two candle widths. */
module Ema {
  import opened Common
  import Ticket
  import Api

  /** Width of one candle in seconds, for a multiplier of the named unit; a
      month counts as 30 days. No width for any other timeframe. */
  function CandlesToSeconds(timeframe: string, multiplier: int): (r: Option<int>)
    ensures r.Some? <==> Api.IsTimeframe(timeframe)
  {
    if timeframe == "minute" then Some(multiplier * 60)
    else if timeframe == "hour" then Some(multiplier * 3600)
    else if timeframe == "day" then Some(multiplier * 3600 * 24)
    else if timeframe == "week" then Some(multiplier * 3600 * 24 * 7)
    else if timeframe == "month" then Some(multiplier * 3600 * 24 * 30)
    else None
  }

  /** The width of one unit of each timeframe. */
  lemma UnitWidths()
    ensures CandlesToSeconds("minute", 1) == Some(60)
    ensures CandlesToSeconds("hour", 1) == Some(3600)
    ensures CandlesToSeconds("day", 1) == Some(86400)
    ensures CandlesToSeconds("week", 1) == Some(604800)
    ensures CandlesToSeconds("month", 1) == Some(2592000)
  {
  }

  /** For a fixed timeframe the width is linear in the multiplier. */
  lemma CandleWidthLinear(timeframe: string, a: int, b: int)
    requires Api.IsTimeframe(timeframe)
    ensures CandlesToSeconds(timeframe, a + b).value
         == CandlesToSeconds(timeframe, a).value + CandlesToSeconds(timeframe, b).value
    ensures CandlesToSeconds(timeframe, a).value == a * CandlesToSeconds(timeframe, 1).value
  {
  }

  /** A rule of a known unit letter stands for the multiplier times that
      unit. */
  lemma RuleWidth(multiplier: int, letter: char, unit: int)
    requires Api.LetterSeconds(letter) == Some(unit)
    ensures Api.RuleSeconds(IntToString(multiplier) + [letter]) == Some(multiplier * unit)
  {
    Api.RuleReadsBack(multiplier, letter);
  }

  /** The width computed here and the width of the resample rule built for the
      same timeframe agree, so a watch's candles are cut to its own width. */
  lemma WidthMatchesResampleRule(timeframe: string, multiplier: int)
    ensures Api.ConvertTimeframe(timeframe, multiplier).Some? <==> CandlesToSeconds(timeframe, multiplier).Some?
    ensures Api.ConvertTimeframe(timeframe, multiplier).Some? ==>
      Api.RuleSeconds(Api.ConvertTimeframe(timeframe, multiplier).value) == CandlesToSeconds(timeframe, multiplier)
  {
    if timeframe == "minute" {
      RuleWidth(multiplier, 'T', 60);
    } else if timeframe == "hour" {
      RuleWidth(multiplier, 'H', 3600);
    } else if timeframe == "day" {
      RuleWidth(multiplier, 'D', 86400);
    } else if timeframe == "week" {
      RuleWidth(multiplier, 'W', 604800);
    } else if timeframe == "month" {
      RuleWidth(multiplier, 'M', 2592000);
    }
  }

  /** For a known timeframe and a positive multiplier, resampling cuts the
      candles into buckets exactly one candle width wide. */
  lemma AggregateAtCandleWidth(cs: seq<Api.Candle>, timeframe: string, multiplier: int, origin: int)
    requires Api.IsTimeframe(timeframe) && multiplier > 0
    ensures CandlesToSeconds(timeframe, multiplier).Some?
    ensures Api.AggregateCandles(cs, timeframe, multiplier, origin)
         == Some(Api.Aggregate(cs, origin, CandlesToSeconds(timeframe, multiplier).value))
  {
    WidthMatchesResampleRule(timeframe, multiplier);
    UnitWidths();
    CandleWidthLinear(timeframe, multiplier, 0);
  }

  const DefaultMultiplier: int := 1
  const DefaultMargin: real := 0.001

  /** An EMA watch: the base envelope plus symbol, candle timeframe, number of
      periods, candle multiplier and the fractional margin. */
  datatype EmaTicket = EmaTicket(
    base: Ticket.Ticket, symbol: string, timeframe: string,
    periods: int, multiplier: int, margin: real)

  /** The re-check delay: two candle widths. For an unknown timeframe there
      is no width, and Python's `2 * None` raises. */
  function Timeout(t: EmaTicket): (d: Reply<int>)
    ensures d.Raises? <==> !Api.IsTimeframe(t.timeframe)
    ensures d.Answers? ==> d.value == 2 * CandlesToSeconds(t.timeframe, t.multiplier).value
    ensures d.Answers? && t.multiplier > 0 ==> d.value >= 120
  {
    match CandlesToSeconds(t.timeframe, t.multiplier)
    case Some(width) => Answers(2 * width)
    case None => Raises
  }

  /** The source's own check: four-week candles wait 2 * 2419200 seconds. */
  lemma FourWeekTimeout()
    ensures Timeout(EmaTicket(Ticket.Ticket(123, 456, "0"), "AAPL", "week", 50, 4, DefaultMargin))
         == Answers(2419200 * 2)
  {
  }

  /** The fire rule, literally: the EMA is below the high scaled up by the
      margin and below the low scaled down by it. */
  predicate Fires(ema: real, high: real, low: real, margin: real)
  {
    ema < high * (1.0 + margin) && ema < low * (1.0 - margin)
  }

  /** For a proper candle and a non-negative margin the first half of the rule
      follows from the second: the rule is "the EMA is below the low band". */
  lemma FireRuleIsLowBand(ema: real, high: real, low: real, margin: real)
    requires 0.0 <= low <= high && margin >= 0.0
    ensures Fires(ema, high, low, margin) <==> ema < low * (1.0 - margin)
  {
    assert low * margin >= 0.0 && high * margin >= 0.0;
    assert low * (1.0 - margin) == low - low * margin;
    assert high * (1.0 + margin) == high + high * margin;
  }

  /** The rule is one-sided: an EMA at or above the candle's low never fires,
      even when it lies inside the candle. */
  lemma NoFireAtOrAboveLow(ema: real, high: real, low: real, margin: real)
    requires 0.0 <= low <= ema && margin >= 0.0
    ensures !Fires(ema, high, low, margin)
  {
    assert low * margin >= 0.0;
    assert low * (1.0 - margin) == low - low * margin;
  }

  /** The alert text. */
  function Describe(t: EmaTicket): string
  {
    t.base.id + ": " + t.symbol + " to hit " + IntToString(t.periods) + "EMA on the "
      + IntToString(t.multiplier) + t.timeframe + " candle"
  }

  /** The alert text starts with the ticket id, so the id can be read back as
      the text before the first colon. */
  lemma DescribeLeadsWithId(t: EmaTicket)
    requires ':' !in t.base.id
    ensures PrefixBefore(Describe(t), ':') == t.base.id
  {
    var rest := " " + t.symbol + " to hit " + IntToString(t.periods) + "EMA on the "
      + IntToString(t.multiplier) + t.timeframe + " candle";
    assert Describe(t) == t.base.id + [':'] + rest;
    PrefixBeforeJoin(t.base.id, ':', rest);
  }

  /** One run of `monitor`. `fetched` is what fetching the bars gave
      (`Alpaca.GetBars`): `None` when the fetch raised, as on an empty page or
      an unknown timeframe. The EMA column of the candles is computed by an
      outside library; `None` in it stands for its undefined warm-up values,
      which compare false. Only the last candle is looked at; with no candle
      the lookup raises. The callback runs at most once, and only with the
      ticket's own text. */
  function Monitor(t: EmaTicket, fetched: Option<seq<Api.Candle>>, emaColumn: seq<Option<real>>): (r: Outcome)
    requires fetched.Some? ==> |emaColumn| == |fetched.value|
    ensures r.Raised? <==> fetched.None? || |fetched.value| == 0
    ensures r.Called? <==>
      fetched.Some? && |fetched.value| > 0 && emaColumn[|emaColumn| - 1].Some?
      && Fires(emaColumn[|emaColumn| - 1].value, fetched.value[|emaColumn| - 1].h,
               fetched.value[|emaColumn| - 1].l, t.margin)
    ensures r.Called? ==> r.message == Describe(t)
  {
    match fetched
    case None => Raised
    case Some(bars) =>
      if |bars| == 0 then Raised
      else
        var last := bars[|bars| - 1];
        match emaColumn[|bars| - 1]
        case Some(ema) => if Fires(ema, last.h, last.l, t.margin) then Called(Describe(t)) else Quiet
        case None => Quiet
  }
}
