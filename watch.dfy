/** The watch kinds side by side. The program extends the base ticket with
    a price subclass and an EMA subclass and calls their `timeout` and
    `__str__` through the base type; here the kinds are the variants of one
    datatype and the dispatch is a match. */
module Watch {
  import opened Common
  import Ticket
  import Price
  import Ema
  import Api

  datatype Watch =
    | Base(ticket: Ticket.Ticket)
    | PriceWatch(price: Price.PriceTicket)
    | EmaWatch(ema: Ema.EmaTicket)

  /** The envelope every kind carries. */
  function Envelope(w: Watch): Ticket.Ticket
  {
    match w
    case Base(t) => t
    case PriceWatch(p) => p.base
    case EmaWatch(e) => e.base
  }

  /** The re-check delay of each kind: no delay (`None`) for the bare base
      ticket, two days for a price watch, two candle widths for an EMA watch.
      Only an EMA watch with an unknown timeframe raises. Whenever a delay
      exists it is positive, provided an EMA watch's multiplier is. */
  function Timeout(w: Watch): (d: Reply<Option<int>>)
    ensures w.Base? ==> d == Answers(None)
    ensures w.PriceWatch? ==> d == Answers(Some(172800))
    ensures w.EmaWatch? ==> (d.Raises? <==> !Api.IsTimeframe(w.ema.timeframe))
    ensures w.EmaWatch? && d.Answers? ==> d.value.Some?
    ensures d.Answers? && d.value.Some? && (w.EmaWatch? ==> w.ema.multiplier > 0) ==> d.value.value > 0
  {
    match w
    case Base(t) => Answers(Ticket.Timeout(t))
    case PriceWatch(p) => Answers(Some(Price.Timeout(p)))
    case EmaWatch(e) =>
      match Ema.Timeout(e)
      case Raises => Raises
      case Answers(delay) => Answers(Some(delay))
  }

  /** The text form of each kind. */
  function Describe(w: Watch, show: real -> string): string
  {
    match w
    case Base(t) => Ticket.Describe(t)
    case PriceWatch(p) => Price.Describe(p, show)
    case EmaWatch(e) => Ema.Describe(e)
  }

  /** Every kind's text form begins with the watch id, so a message can be
      traced back to its watch (for the base ticket the id is followed by a
      space, for the others by a colon). */
  lemma DescribeLeadsWithId(w: Watch, show: real -> string)
    requires ':' !in Envelope(w).id && ' ' !in Envelope(w).id
    ensures w.Base? ==> PrefixBefore(Describe(w, show), ' ') == Envelope(w).id
    ensures !w.Base? ==> PrefixBefore(Describe(w, show), ':') == Envelope(w).id
  {
    match w
    case Base(t) =>
      var rest := IntToString(t.channelID) + " " + IntToString(t.author);
      assert Ticket.Describe(t) == t.id + [' '] + rest;
      PrefixBeforeJoin(t.id, ' ', rest);
    case PriceWatch(p) => Price.DescribeLeadsWithId(p, show);
    case EmaWatch(e) => Ema.DescribeLeadsWithId(e);
  }
}
