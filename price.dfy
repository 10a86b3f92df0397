/** The price-level watch: fires while the current price is strictly within
    an absolute margin of the target, and is re-checked every two days. */
module Price {
  import opened Common
  import Ticket

  /** The margin when none is given, in price units. */
  const DefaultMargin: real := 1.0

  /** A price watch: the base envelope plus symbol, target price and margin.
      The fields are set once and never updated. */
  datatype PriceTicket = PriceTicket(base: Ticket.Ticket, symbol: string, price: real, margin: real)

  /** A watch built without an explicit margin. */
  function NewPriceTicket(symbol: string, price: real, channelID: int, author: int, id: string,
                          margin: real := DefaultMargin): PriceTicket
  {
    PriceTicket(Ticket.Ticket(channelID, author, id), symbol, price, margin)
  }

  lemma DefaultMarginIsOne(symbol: string, price: real, channelID: int, author: int, id: string)
    ensures NewPriceTicket(symbol, price, channelID, author, id).margin == 1.0
  {
  }

  /** The band test as written: below the target plus the margin and above
      the target minus the margin, both strictly. */
  predicate InBand(current: real, price: real, margin: real)
  {
    current < price + margin && current > price - margin
  }

  function Abs(x: real): real { if x < 0.0 then -x else x }

  /** The band is the open interval of radius `margin` around the target. */
  lemma InBandIsDistance(current: real, price: real, margin: real)
    ensures InBand(current, price, margin) <==> Abs(current - price) < margin
  {
  }

  /** A price exactly on either edge does not fire, and a margin of zero (or
      less) leaves an empty band that nothing fires in. */
  lemma BandIsOpen(current: real, price: real, margin: real)
    ensures !InBand(price + margin, price, margin) && !InBand(price - margin, price, margin)
    ensures margin <= 0.0 ==> !InBand(current, price, margin)
  {
  }

  /** One run of `monitor`: the quote service raises, and so does the run,
      or it answers and the run calls back once, with the symbol, the target
      and the quote, exactly when the quote is in the band. `show` renders a
      price as the program prints it. */
  function Monitor(t: PriceTicket, quote: Reply<real>, show: real -> string): (r: Outcome)
    ensures r.Raised? <==> quote.Raises?
    ensures r.Called? <==> quote.Answers? && InBand(quote.value, t.price, t.margin)
    ensures r.Called? ==>
      r.message == t.symbol + " near " + show(t.price) + " currently trading at " + show(quote.value)
  {
    match quote
    case Raises => Raised
    case Answers(current) =>
      if current < t.price + t.margin && current > t.price - t.margin then
        Called(t.symbol + " near " + show(t.price) + " currently trading at " + show(current))
      else Quiet
  }

  /** The re-check delay, a constant: two days in seconds. */
  function Timeout(t: PriceTicket): (d: int)
    ensures d == 2 * 24 * 3600
  {
    24 * 3600 * 2
  }

  /** The delay does not depend on the ticket at all. */
  lemma TimeoutIsConstant(t1: PriceTicket, t2: PriceTicket)
    ensures Timeout(t1) == Timeout(t2) == 172800
  {
  }

  /** The ticket's text form. */
  function Describe(t: PriceTicket, show: real -> string): string
  {
    t.base.id + ": " + t.symbol + " to hit " + show(t.price) + " with margin " + show(t.margin)
  }

  /** The text form starts with the ticket id, readable back as the text
      before the first colon. */
  lemma DescribeLeadsWithId(t: PriceTicket, show: real -> string)
    requires ':' !in t.base.id
    ensures PrefixBefore(Describe(t, show), ':') == t.base.id
  {
    var rest := " " + t.symbol + " to hit " + show(t.price) + " with margin " + show(t.margin);
    assert Describe(t, show) == t.base.id + [':'] + rest;
    PrefixBeforeJoin(t.base.id, ':', rest);
  }
}
