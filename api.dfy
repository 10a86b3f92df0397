/** The candle format shared by every data source, the timeframe-to-rule
    conversion, and the aggregation of fine candles into coarser ones. */
module Api {
  import opened Common

  /** One OHLCV bar: start time in epoch seconds, open, high, low, close and
      traded volume. */
  datatype Candle = Candle(t: int, o: real, h: real, l: real, c: real, v: int)

  /** The candle invariant: the low is at or below both open and close, the
      high at or above both. */
  predicate WellFormed(k: Candle)
  {
    k.l <= k.o && k.l <= k.c && k.o <= k.h && k.c <= k.h
  }

  predicate Ascending(cs: seq<Candle>)
  {
    forall i, j :: 0 <= i < j < |cs| ==> cs[i].t <= cs[j].t
  }

  predicate IsTimeframe(timeframe: string)
  {
    timeframe in {"minute", "hour", "day", "week", "month"}
  }

  // ---------------------------------------------------------------------
  // Resample rules
  // ---------------------------------------------------------------------

  /** The resample rule for a timeframe: the multiplier in decimal followed by
      the unit letter; no rule for any other timeframe. */
  function ConvertTimeframe(timeframe: string, multiplier: int := 1): Option<string>
  {
    if timeframe == "minute" then Some(IntToString(multiplier) + "T")
    else if timeframe == "hour" then Some(IntToString(multiplier) + "H")
    else if timeframe == "day" then Some(IntToString(multiplier) + "D")
    else if timeframe == "week" then Some(IntToString(multiplier) + "W")
    else if timeframe == "month" then Some(IntToString(multiplier) + "M")
    else None
  }

  /** Reads a rule back into its multiplier and unit letter. */
  function ParseRule(rule: string): Option<(int, char)>
  {
    if |rule| == 0 then None
    else match ParseInt(rule[..|rule| - 1])
      case Some(m) => Some((m, rule[|rule| - 1]))
      case None => None
  }

  /** Seconds in one unit of a rule letter, read as a fixed width (a month as
      30 days). */
  function LetterSeconds(letter: char): Option<int>
  {
    match letter
    case 'T' => Some(60)
    case 'H' => Some(3600)
    case 'D' => Some(86400)
    case 'W' => Some(604800)
    case 'M' => Some(2592000)
    case _ => None
  }

  /** The bucket width a rule stands for. */
  function RuleSeconds(rule: string): Option<int>
  {
    match ParseRule(rule)
    case Some((m, letter)) =>
      (match LetterSeconds(letter) case Some(unit) => Some(m * unit) case None => None)
    case None => None
  }

  /** A rule exists exactly for the five timeframes, and it is the decimal
      multiplier followed by the timeframe's unit letter. */
  lemma ConvertTimeframeRule(timeframe: string, multiplier: int)
    ensures ConvertTimeframe(timeframe, multiplier).Some? <==> IsTimeframe(timeframe)
    ensures timeframe == "minute" ==> ParseRule(ConvertTimeframe(timeframe, multiplier).value) == Some((multiplier, 'T'))
    ensures timeframe == "hour" ==> ParseRule(ConvertTimeframe(timeframe, multiplier).value) == Some((multiplier, 'H'))
    ensures timeframe == "day" ==> ParseRule(ConvertTimeframe(timeframe, multiplier).value) == Some((multiplier, 'D'))
    ensures timeframe == "week" ==> ParseRule(ConvertTimeframe(timeframe, multiplier).value) == Some((multiplier, 'W'))
    ensures timeframe == "month" ==> ParseRule(ConvertTimeframe(timeframe, multiplier).value) == Some((multiplier, 'M'))
  {
    if IsTimeframe(timeframe) {
      var rule := ConvertTimeframe(timeframe, multiplier).value;
      RuleReadsBack(multiplier, rule[|rule| - 1]);
      assert rule == IntToString(multiplier) + [rule[|rule| - 1]];
    }
  }

  lemma RuleReadsBack(multiplier: int, letter: char)
    ensures ParseRule(IntToString(multiplier) + [letter]) == Some((multiplier, letter))
  {
    var rule := IntToString(multiplier) + [letter];
    assert rule[..|rule| - 1] == IntToString(multiplier);
    ParseIntToString(multiplier);
  }

  // ---------------------------------------------------------------------
  // Aggregation
  // ---------------------------------------------------------------------

  type Width = w: int | 0 < w witness 1

  /** The bucket a time falls in: buckets are `width` seconds wide, the first
      starting at `origin`, and each holds its left edge. */
  function Slot(t: int, origin: int, width: Width): int
  {
    (t - origin) / width
  }

  /** Two adjacent runs of one bucket joined: the earlier run's time and open,
      the later run's close, the wider range, the summed volume. */
  function Combine(a: Candle, b: Candle): Candle
  {
    Candle(a.t, a.o, Max(a.h, b.h), Min(a.l, b.l), b.c, a.v + b.v)
  }

  /** One output candle from the members of a bucket, in time order. */
  function Merge(g: seq<Candle>): Candle
    requires |g| > 0
    decreases |g|
  {
    if |g| == 1 then g[0] else Combine(Merge(g[..|g| - 1]), g[|g| - 1])
  }

  function Volume(g: seq<Candle>): int
    decreases |g|
  {
    if |g| == 0 then 0 else Volume(g[..|g| - 1]) + g[|g| - 1].v
  }

  /** The input candles that fall in bucket `k`, in input order. */
  function Members(cs: seq<Candle>, k: int, origin: int, width: Width): seq<Candle>
    decreases |cs|
  {
    if |cs| == 0 then []
    else
      var rest := Members(cs[..|cs| - 1], k, origin, width);
      if Slot(cs[|cs| - 1].t, origin, width) == k then rest + [cs[|cs| - 1]] else rest
  }

  /** Resampling as a left fold: each candle either extends the last output
      candle, when it falls in the same bucket, or opens a new one. Buckets
      that receive no candle produce nothing. */
  function Aggregate(cs: seq<Candle>, origin: int, width: Width): (out: seq<Candle>)
    ensures |out| <= |cs|
    ensures |out| == 0 <==> |cs| == 0
    ensures |cs| > 0 ==>
      Slot(out[|out| - 1].t, origin, width) == Slot(cs[|cs| - 1].t, origin, width)
    decreases |cs|
  {
    if |cs| == 0 then []
    else
      var prev := Aggregate(cs[..|cs| - 1], origin, width);
      var c := cs[|cs| - 1];
      if |prev| > 0 && Slot(prev[|prev| - 1].t, origin, width) == Slot(c.t, origin, width)
      then prev[..|prev| - 1] + [Combine(prev[|prev| - 1], c)]
      else prev + [c]
  }

  /** The rule-driven entry point: no result when there is no rule for the
      timeframe or the rule's width is not positive (the resampler refuses
      both). */
  function AggregateCandles(cs: seq<Candle>, timeframe: string, multiplier: int, origin: int): (r: Option<seq<Candle>>)
    ensures r.Some? <==> IsTimeframe(timeframe) && multiplier > 0
  {
    ConvertTimeframeRule(timeframe, multiplier);
    match ConvertTimeframe(timeframe, multiplier)
    case None => None
    case Some(rule) =>
      match RuleSeconds(rule)
      case Some(w) => if w > 0 then Some(Aggregate(cs, origin, w)) else None
      case None => None
  }

  // ---------------------------------------------------------------------
  // Properties of aggregation
  // ---------------------------------------------------------------------

  lemma SlotMonotone(a: int, b: int, origin: int, width: Width)
    requires a <= b
    ensures Slot(a, origin, width) <= Slot(b, origin, width)
  {
    var qa, qb := (a - origin) / width, (b - origin) / width;
    assert a - origin == width * qa + (a - origin) % width;
    assert b - origin == width * qb + (b - origin) % width;
    assert width * (qb + 1) == width * qb + width;
    MulMonotoneWhen(width, qb + 1, qa);
  }

  lemma MulMonotoneWhen(w: nat, x: int, y: int)
    ensures x <= y ==> w * x <= w * y
  {
    if x <= y {
      MulMonotone(w, x, y);
    }
  }

  lemma MulMonotone(w: nat, x: int, y: int)
    requires x <= y
    ensures w * x <= w * y
  {
    assert w * y - w * x == w * (y - x);
  }

  /** A merged bucket opens with its first member and closes with its last;
      its high is the largest member high and its low the smallest member low;
      its volume is the members' total. */
  lemma {:induction false} MergeFields(g: seq<Candle>)
    requires |g| > 0
    ensures Merge(g).t == g[0].t && Merge(g).o == g[0].o && Merge(g).c == g[|g| - 1].c
    ensures Merge(g).v == Volume(g)
    ensures forall i :: 0 <= i < |g| ==> g[i].h <= Merge(g).h && Merge(g).l <= g[i].l
    ensures exists i :: 0 <= i < |g| && g[i].h == Merge(g).h
    ensures exists i :: 0 <= i < |g| && g[i].l == Merge(g).l
    decreases |g|
  {
    if |g| > 1 {
      var front := g[..|g| - 1];
      MergeFields(front);
      assert Volume(front) == Volume(g) - g[|g| - 1].v;
      var i :| 0 <= i < |front| && front[i].h == Merge(front).h;
      var j :| 0 <= j < |front| && front[j].l == Merge(front).l;
      if Merge(g).h != g[|g| - 1].h { assert g[i].h == Merge(g).h; }
      if Merge(g).l != g[|g| - 1].l { assert g[j].l == Merge(g).l; }
    } else {
      assert Volume(g) == Volume(g[..0]) + g[0].v;
    }
  }

  /** Every output candle of well-formed input is well formed. */
  lemma {:induction false} AggregateWellFormed(cs: seq<Candle>, origin: int, width: Width)
    requires forall i :: 0 <= i < |cs| ==> WellFormed(cs[i])
    ensures forall i :: 0 <= i < |Aggregate(cs, origin, width)| ==> WellFormed(Aggregate(cs, origin, width)[i])
    decreases |cs|
  {
    if |cs| > 0 {
      AggregateWellFormed(cs[..|cs| - 1], origin, width);
    }
  }

  lemma MembersSnoc(cs: seq<Candle>, c: Candle, k: int, origin: int, width: Width)
    ensures Members(cs + [c], k, origin, width)
         == Members(cs, k, origin, width) + (if Slot(c.t, origin, width) == k then [c] else [])
  {
    assert (cs + [c])[..|cs|] == cs;
  }

  lemma {:induction false} MembersNone(cs: seq<Candle>, k: int, origin: int, width: Width)
    requires forall j :: 0 <= j < |cs| ==> Slot(cs[j].t, origin, width) != k
    ensures Members(cs, k, origin, width) == []
    decreases |cs|
  {
    if |cs| > 0 {
      MembersNone(cs[..|cs| - 1], k, origin, width);
    }
  }

  /** What the output is, stated without the fold: the output buckets strictly
      ascend; each output candle is the merge of exactly the input candles of
      its bucket, which are never none; and every input candle's bucket has
      an output candle. */
  predicate Resampled(cs: seq<Candle>, out: seq<Candle>, origin: int, width: Width)
  {
    BucketsAscend(out, origin, width) && BucketsMerged(cs, out, origin, width)
    && BucketsCovered(cs, out, origin, width)
  }

  predicate BucketsAscend(out: seq<Candle>, origin: int, width: Width)
  {
    forall i, j :: 0 <= i < j < |out| ==> Slot(out[i].t, origin, width) < Slot(out[j].t, origin, width)
  }

  predicate BucketsMerged(cs: seq<Candle>, out: seq<Candle>, origin: int, width: Width)
  {
    forall i :: 0 <= i < |out| ==>
      |Members(cs, Slot(out[i].t, origin, width), origin, width)| > 0
      && out[i] == Merge(Members(cs, Slot(out[i].t, origin, width), origin, width))
  }

  predicate BucketsCovered(cs: seq<Candle>, out: seq<Candle>, origin: int, width: Width)
  {
    forall j :: 0 <= j < |cs| ==> HasBucket(out, Slot(cs[j].t, origin, width), origin, width)
  }

  predicate HasBucket(out: seq<Candle>, k: int, origin: int, width: Width)
  {
    exists i :: 0 <= i < |out| && Slot(out[i].t, origin, width) == k
  }

  lemma {:induction false} AggregateResamples(cs: seq<Candle>, origin: int, width: Width)
    requires Ascending(cs)
    ensures Resampled(cs, Aggregate(cs, origin, width), origin, width)
    decreases |cs|
  {
    if |cs| > 0 {
      var front, c := cs[..|cs| - 1], cs[|cs| - 1];
      assert cs == front + [c];
      AggregateResamples(front, origin, width);
      var prev := Aggregate(front, origin, width);
      EarlierBuckets(front, c, prev, origin, width);
      OtherBucketsKept(front, c, origin, width);
      var k := Slot(c.t, origin, width);
      if |prev| > 0 && Slot(prev[|prev| - 1].t, origin, width) == k {
        var m := |prev| - 1;
        var out := prev[..m] + [Combine(prev[m], c)];
        assert Aggregate(cs, origin, width) == out;
        ExtendAscend(prev, c, out, origin, width);
        ExtendMerged(front, c, prev, out, origin, width);
        ExtendCovered(front, c, prev, out, origin, width);
      } else {
        var out := prev + [c];
        assert Aggregate(cs, origin, width) == out;
        OpenAscend(prev, c, out, origin, width);
        OpenMerged(front, c, prev, out, origin, width);
        OpenCovered(front, c, prev, out, origin, width);
      }
    }
  }

  /** On ascending input, every bucket already produced is at or before the
      bucket of the next candle. */
  lemma EarlierBuckets(front: seq<Candle>, c: Candle, prev: seq<Candle>, origin: int, width: Width)
    requires Ascending(front + [c])
    requires BucketsMerged(front, prev, origin, width)
    ensures forall i :: 0 <= i < |prev| ==> Slot(prev[i].t, origin, width) <= Slot(c.t, origin, width)
  {
    forall i | 0 <= i < |prev|
      ensures Slot(prev[i].t, origin, width) <= Slot(c.t, origin, width)
    {
      var q := Slot(prev[i].t, origin, width);
      MembersIn(front, q, origin, width, 0);
      var j :| 0 <= j < |front| && front[j] == Members(front, q, origin, width)[0] &&
               Slot(front[j].t, origin, width) == q;
      assert (front + [c])[j] == front[j] && (front + [c])[|front|] == c;
      SlotMonotone(front[j].t, c.t, origin, width);
    }
  }

  /** Adding a candle changes the members of its own bucket only. */
  lemma OtherBucketsKept(front: seq<Candle>, c: Candle, origin: int, width: Width)
    ensures forall q :: q != Slot(c.t, origin, width) ==>
      Members(front + [c], q, origin, width) == Members(front, q, origin, width)
    ensures Members(front + [c], Slot(c.t, origin, width), origin, width)
         == Members(front, Slot(c.t, origin, width), origin, width) + [c]
  {
    forall q
      ensures Members(front + [c], q, origin, width)
           == Members(front, q, origin, width) + (if Slot(c.t, origin, width) == q then [c] else [])
    {
      MembersSnoc(front, c, q, origin, width);
    }
  }

  lemma ExtendAscend(prev: seq<Candle>, c: Candle, out: seq<Candle>, origin: int, width: Width)
    requires |prev| > 0 && out == prev[..|prev| - 1] + [Combine(prev[|prev| - 1], c)]
    requires BucketsAscend(prev, origin, width)
    ensures BucketsAscend(out, origin, width)
  {
    assert forall i :: 0 <= i < |out| ==> out[i].t == prev[i].t;
  }

  lemma ExtendMerged(front: seq<Candle>, c: Candle, prev: seq<Candle>, out: seq<Candle>, origin: int, width: Width)
    requires |prev| > 0 && out == prev[..|prev| - 1] + [Combine(prev[|prev| - 1], c)]
    requires Slot(prev[|prev| - 1].t, origin, width) == Slot(c.t, origin, width)
    requires BucketsAscend(prev, origin, width) && BucketsMerged(front, prev, origin, width)
    requires forall q :: q != Slot(c.t, origin, width) ==>
      Members(front + [c], q, origin, width) == Members(front, q, origin, width)
    requires Members(front + [c], Slot(c.t, origin, width), origin, width)
          == Members(front, Slot(c.t, origin, width), origin, width) + [c]
    ensures BucketsMerged(front + [c], out, origin, width)
  {
    var m := |prev| - 1;
    var k := Slot(c.t, origin, width);
    forall i | 0 <= i < |out|
      ensures |Members(front + [c], Slot(out[i].t, origin, width), origin, width)| > 0
      ensures out[i] == Merge(Members(front + [c], Slot(out[i].t, origin, width), origin, width))
    {
      if i < m {
        assert out[i] == prev[i];
        assert Slot(prev[i].t, origin, width) < Slot(prev[m].t, origin, width);
      } else {
        var g := Members(front, k, origin, width);
        assert out[i] == Combine(Merge(g), c);
        assert (g + [c])[..|g|] == g;
      }
    }
  }

  lemma ExtendCovered(front: seq<Candle>, c: Candle, prev: seq<Candle>, out: seq<Candle>, origin: int, width: Width)
    requires |prev| > 0 && out == prev[..|prev| - 1] + [Combine(prev[|prev| - 1], c)]
    requires Slot(prev[|prev| - 1].t, origin, width) == Slot(c.t, origin, width)
    requires BucketsCovered(front, prev, origin, width)
    ensures BucketsCovered(front + [c], out, origin, width)
  {
    var cs := front + [c];
    assert forall i :: 0 <= i < |out| ==> out[i].t == prev[i].t;
    forall j | 0 <= j < |cs|
      ensures HasBucket(out, Slot(cs[j].t, origin, width), origin, width)
    {
      if j < |front| {
        assert cs[j] == front[j];
        assert HasBucket(prev, Slot(front[j].t, origin, width), origin, width);
        var i :| 0 <= i < |prev| && Slot(prev[i].t, origin, width) == Slot(front[j].t, origin, width);
        assert Slot(out[i].t, origin, width) == Slot(cs[j].t, origin, width);
      } else {
        assert Slot(out[|prev| - 1].t, origin, width) == Slot(cs[j].t, origin, width);
      }
    }
  }

  lemma OpenAscend(prev: seq<Candle>, c: Candle, out: seq<Candle>, origin: int, width: Width)
    requires out == prev + [c]
    requires forall i :: 0 <= i < |prev| ==> Slot(prev[i].t, origin, width) <= Slot(c.t, origin, width)
    requires !(|prev| > 0 && Slot(prev[|prev| - 1].t, origin, width) == Slot(c.t, origin, width))
    requires BucketsAscend(prev, origin, width)
    ensures BucketsAscend(out, origin, width)
  {
    forall i | 0 <= i < |prev| ensures Slot(prev[i].t, origin, width) < Slot(c.t, origin, width) {
      if i < |prev| - 1 {
        assert Slot(prev[i].t, origin, width) < Slot(prev[|prev| - 1].t, origin, width);
      }
    }
  }

  lemma OpenMerged(front: seq<Candle>, c: Candle, prev: seq<Candle>, out: seq<Candle>, origin: int, width: Width)
    requires out == prev + [c]
    requires BucketsAscend(out, origin, width)
    requires BucketsMerged(front, prev, origin, width) && BucketsCovered(front, prev, origin, width)
    requires forall q :: q != Slot(c.t, origin, width) ==>
      Members(front + [c], q, origin, width) == Members(front, q, origin, width)
    requires Members(front + [c], Slot(c.t, origin, width), origin, width)
          == Members(front, Slot(c.t, origin, width), origin, width) + [c]
    ensures BucketsMerged(front + [c], out, origin, width)
  {
    var k := Slot(c.t, origin, width);
    forall j | 0 <= j < |front| ensures Slot(front[j].t, origin, width) != k {
      assert HasBucket(prev, Slot(front[j].t, origin, width), origin, width);
      var i :| 0 <= i < |prev| && Slot(prev[i].t, origin, width) == Slot(front[j].t, origin, width);
      assert out[i] == prev[i] && out[|prev|] == c;
    }
    MembersNone(front, k, origin, width);
    forall i | 0 <= i < |out|
      ensures |Members(front + [c], Slot(out[i].t, origin, width), origin, width)| > 0
      ensures out[i] == Merge(Members(front + [c], Slot(out[i].t, origin, width), origin, width))
    {
      if i < |prev| {
        assert out[i] == prev[i] && out[|prev|] == c;
      }
    }
  }

  lemma OpenCovered(front: seq<Candle>, c: Candle, prev: seq<Candle>, out: seq<Candle>, origin: int, width: Width)
    requires out == prev + [c]
    requires BucketsCovered(front, prev, origin, width)
    ensures BucketsCovered(front + [c], out, origin, width)
  {
    var cs := front + [c];
    forall j | 0 <= j < |cs|
      ensures HasBucket(out, Slot(cs[j].t, origin, width), origin, width)
    {
      if j < |front| {
        assert cs[j] == front[j];
        assert HasBucket(prev, Slot(front[j].t, origin, width), origin, width);
        var i :| 0 <= i < |prev| && Slot(prev[i].t, origin, width) == Slot(front[j].t, origin, width);
        assert out[i] == prev[i];
      } else {
        assert out[|prev|] == c;
      }
    }
  }

  lemma {:induction false} MembersIn(cs: seq<Candle>, k: int, origin: int, width: Width, n: nat)
    requires n < |Members(cs, k, origin, width)|
    ensures exists j :: 0 <= j < |cs| && cs[j] == Members(cs, k, origin, width)[n] &&
                        Slot(cs[j].t, origin, width) == k
    decreases |cs|
  {
    var front := cs[..|cs| - 1];
    if n < |Members(front, k, origin, width)| {
      MembersIn(front, k, origin, width, n);
      var j :| 0 <= j < |front| && front[j] == Members(front, k, origin, width)[n]
        && Slot(front[j].t, origin, width) == k;
      assert cs[j] == front[j];
    } else {
      assert cs[|cs| - 1] == Members(cs, k, origin, width)[n];
    }
  }

  /** Two one-minute candles resample into one two-minute candle. */
  lemma TwoMinuteExample()
    ensures Aggregate([Candle(0, 10.0, 12.0, 9.0, 11.0, 100), Candle(60, 11.0, 11.0, 10.0, 10.5, 50)], 0, 120)
         == [Candle(0, 10.0, 12.0, 9.0, 10.5, 150)]
  {
    var cs := [Candle(0, 10.0, 12.0, 9.0, 11.0, 100), Candle(60, 11.0, 11.0, 10.0, 10.5, 50)];
    assert cs[..1] == [cs[0]];
    assert cs[..1][..0] == [];
  }
}
