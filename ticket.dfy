/** The base watch ("ticket") every alert kind extends: the channel the alert
    goes to, the user who asked for it and the ticket's id. */
module Ticket {
  import opened Common

  /** The constructor stores its three arguments unchanged and nothing ever
      updates them, so the envelope is a value. */
  datatype Ticket = Ticket(channelID: int, author: int, id: string)

  /** The text form: id, channel and author separated by single spaces. */
  function Describe(t: Ticket): string
  {
    t.id + " " + IntToString(t.channelID) + " " + IntToString(t.author)
  }

  /** Reads a ticket back from its text form. */
  function ParseDescription(s: string): Option<Ticket>
  {
    var parts := SplitOn(s, ' ');
    if |parts| != 3 then None
    else match (ParseInt(parts[1]), ParseInt(parts[2]))
      case (Some(channel), Some(author)) => Some(Ticket(channel, author, parts[0]))
      case _ => None
  }

  /** The text form loses nothing as long as the id holds no space: the
      three fields can be read back from it. */
  lemma DescribeRoundTrip(t: Ticket)
    requires ' ' !in t.id
    ensures ParseDescription(Describe(t)) == Some(t)
  {
    var channel, author := IntToString(t.channelID), IntToString(t.author);
    IntToStringHasNoSeparator(t.channelID, ' ');
    IntToStringHasNoSeparator(t.author, ' ');
    assert Describe(t) == t.id + [' '] + (channel + [' '] + author);
    SplitOnJoin(t.id, ' ', channel + [' '] + author);
    SplitOnJoin(channel, ' ', author);
    SplitOnNoSep(author, ' ');
    ParseIntToString(t.channelID);
    ParseIntToString(t.author);
  }

  /** The base `timeout`: the base class names no duration. */
  function Timeout(t: Ticket): Option<int>
  {
    None
  }

  /** The base `monitor`: it never calls back. */
  function Monitor(t: Ticket): Option<string>
  {
    None
  }
}
