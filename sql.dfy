/** The ticket store: two tables, `price` and `ema`, kept as sequences of
    rows in insertion order. Ids carry the table name before an underscore,
    and deletion and timeout updates find the table from the id alone. */
module Sql {
  import opened Common
  import Ticket
  import Ema
  import Price

  /** A row of the `price` table, columns in schema order. */
  datatype PriceRow = PriceRow(
    id: string, symbol: string, price: real, margin: real,
    timestamp: int, timeout: int, channelID: int, author: int)

  /** A row of the `ema` table, columns in schema order. */
  datatype EmaRow = EmaRow(
    id: string, symbol: string, timeframe: string, multiplier: int, periods: int,
    margin: real, timestamp: int, timeout: int, channelID: int, author: int)

  // ---------------------------------------------------------------------
  // Ids
  // ---------------------------------------------------------------------

  /** The first eight characters of a random uuid: lower-case hex digits. */
  predicate IsUuidPrefix(s: string)
  {
    |s| == 8 && forall i :: 0 <= i < |s| ==> s[i] in "0123456789abcdef"
  }

  /** The table an id names: its text before the first underscore. */
  function TableOf(id: string): string
  {
    PrefixBefore(id, '_')
  }

  predicate IsTable(name: string)
  {
    name == "price" || name == "ema"
  }

  /** The ids the store hands out lead back to the table they were added to. */
  lemma NewIdsNameTheirTable(suffix: string)
    ensures TableOf("price_" + suffix) == "price"
    ensures TableOf("ema_" + suffix) == "ema"
  {
    assert "price_" + suffix == "price" + ['_'] + suffix;
    assert "ema_" + suffix == "ema" + ['_'] + suffix;
    PrefixBeforeJoin("price", '_', suffix);
    PrefixBeforeJoin("ema", '_', suffix);
  }

  // ---------------------------------------------------------------------
  // Row filters and ordering
  // ---------------------------------------------------------------------

  /** The rows `keep` accepts, in table order. */
  function Filter<R(!new)>(rows: seq<R>, keep: R -> bool): (out: seq<R>)
    ensures |out| <= |rows|
    ensures forall x :: x in out <==> x in rows && keep(x)
    decreases |rows|
  {
    if |rows| == 0 then []
    else
      var front := Filter(rows[..|rows| - 1], keep);
      assert forall x :: x in rows <==> x in rows[..|rows| - 1] || x == rows[|rows| - 1];
      if keep(rows[|rows| - 1]) then front + [rows[|rows| - 1]] else front
  }

  /** A filter keeps no more rows than a weaker one, and strictly fewer when
      some row passes the weaker filter only. */
  lemma {:induction false} FilterStronger<R(!new)>(rows: seq<R>, strong: R -> bool, weak: R -> bool)
    requires forall x :: strong(x) ==> weak(x)
    ensures |Filter(rows, strong)| <= |Filter(rows, weak)|
    ensures (exists x :: x in rows && weak(x) && !strong(x)) ==>
      |Filter(rows, strong)| < |Filter(rows, weak)|
    decreases |rows|
  {
    if |rows| > 0 {
      var front := rows[..|rows| - 1];
      FilterStronger(front, strong, weak);
      assert forall x :: x in rows ==> x in front || x == rows[|rows| - 1];
    }
  }

  /** Filters that agree on every row keep the same rows. */
  lemma {:induction false} FilterSame<R(!new)>(rows: seq<R>, keep: R -> bool, same: R -> bool)
    requires forall x :: x in rows ==> keep(x) == same(x)
    ensures Filter(rows, keep) == Filter(rows, same)
    decreases |rows|
  {
    if |rows| > 0 {
      assert rows[|rows| - 1] in rows;
      FilterSame(rows[..|rows| - 1], keep, same);
    }
  }

  predicate SortedBy<R(!new)>(rows: seq<R>, key: R -> string)
  {
    forall i, j :: 0 <= i < j < |rows| ==> TextLe(key(rows[i]), key(rows[j]))
  }

  /** Inserts `x` after every row whose key is not greater, before the first
      row whose key is. */
  function InsertBy<R(!new)>(x: R, rows: seq<R>, key: R -> string): (out: seq<R>)
    ensures multiset(out) == multiset(rows) + multiset{x}
    ensures forall y :: y in out <==> y == x || y in rows
    ensures |out| == |rows| + 1
    decreases |rows|
  {
    if |rows| == 0 then [x]
    else if !TextLe(key(rows[0]), key(x)) then [x] + rows
    else
      assert rows == [rows[0]] + rows[1..];
      [rows[0]] + InsertBy(x, rows[1..], key)
  }

  lemma {:induction false} InsertBySorted<R(!new)>(x: R, rows: seq<R>, key: R -> string)
    requires SortedBy(rows, key)
    ensures SortedBy(InsertBy(x, rows, key), key)
    ensures |rows| > 0 && TextLe(key(rows[0]), key(x)) ==> InsertBy(x, rows, key)[0] == rows[0]
    decreases |rows|
  {
    if |rows| > 0 && TextLe(key(rows[0]), key(x)) {
      SortedTail(rows, key);
      InsertBySorted(x, rows[1..], key);
      InsertPastSorted(x, rows, key);
    } else if |rows| > 0 {
      InsertFrontSorted(x, rows, key);
    }
  }

  /** `x` in front of sorted rows whose first key is greater keeps them sorted. */
  lemma InsertFrontSorted<R(!new)>(x: R, rows: seq<R>, key: R -> string)
    requires SortedBy(rows, key)
    requires |rows| > 0 && !TextLe(key(rows[0]), key(x))
    ensures SortedBy([x] + rows, key)
  {
    TextLeTotal(key(x), key(rows[0]));
    forall k | 0 <= k < |rows|
      ensures TextLe(key(x), key(rows[k]))
    {
      if k > 0 {
        TextLeTrans(key(x), key(rows[0]), key(rows[k]));
      }
    }
    ConsSorted(x, rows, key);
  }

  /** The first row stays first when `x` goes past it, and the rest stays
      sorted. */
  lemma InsertPastSorted<R(!new)>(x: R, rows: seq<R>, key: R -> string)
    requires SortedBy(rows, key)
    requires |rows| > 0 && TextLe(key(rows[0]), key(x))
    requires SortedBy(InsertBy(x, rows[1..], key), key)
    ensures InsertBy(x, rows, key) == [rows[0]] + InsertBy(x, rows[1..], key)
    ensures SortedBy(InsertBy(x, rows, key), key)
  {
    var first, rest := rows[0], InsertBy(x, rows[1..], key);
    forall k | 0 <= k < |rest|
      ensures TextLe(key(first), key(rest[k]))
    {
      assert rest[k] in rest;
      if rest[k] != x {
        var m :| 0 <= m < |rows| - 1 && rows[1..][m] == rest[k];
        assert rows[m + 1] == rest[k];
      }
    }
    ConsSorted(first, rest, key);
  }

  /** A row whose key is not greater than any of sorted rows can go in front. */
  lemma ConsSorted<R(!new)>(first: R, rest: seq<R>, key: R -> string)
    requires SortedBy(rest, key)
    requires forall k :: 0 <= k < |rest| ==> TextLe(key(first), key(rest[k]))
    ensures SortedBy([first] + rest, key)
  {
    forall i, j | 0 <= i < j < |rest| + 1
      ensures TextLe(key(([first] + rest)[i]), key(([first] + rest)[j]))
    {
      assert ([first] + rest)[j] == rest[j - 1];
      if i > 0 {
        assert ([first] + rest)[i] == rest[i - 1];
      }
    }
  }

  /** `ORDER BY` on a key, by insertion of each row in table order. */
  function SortBy<R(!new)>(rows: seq<R>, key: R -> string): (out: seq<R>)
    ensures multiset(out) == multiset(rows)
    ensures |out| == |rows|
    decreases |rows|
  {
    if |rows| == 0 then []
    else
      assert rows == rows[..|rows| - 1] + [rows[|rows| - 1]];
      InsertBy(rows[|rows| - 1], SortBy(rows[..|rows| - 1], key), key)
  }

  /** The ordered rows are sorted by the key and are a permutation of the
      input. */
  lemma {:induction false} SortBySorts<R(!new)>(rows: seq<R>, key: R -> string)
    ensures SortedBy(SortBy(rows, key), key)
    ensures multiset(SortBy(rows, key)) == multiset(rows)
    decreases |rows|
  {
    if |rows| > 0 {
      SortBySorts(rows[..|rows| - 1], key);
      InsertBySorted(rows[|rows| - 1], SortBy(rows[..|rows| - 1], key), key);
    }
  }

  /** The test for rows whose key is `k`. */
  function KeyIs<R>(key: R -> string, k: string): R -> bool
  {
    (r: R) => key(r) == k
  }

  /** Filtering a row put in front of others. */
  lemma {:induction false} FilterCons<R(!new)>(y: R, rows: seq<R>, keep: R -> bool)
    ensures Filter([y] + rows, keep) == (if keep(y) then [y] else []) + Filter(rows, keep)
    decreases |rows|
  {
    var all := [y] + rows;
    if |rows| == 0 {
      assert all[..0] == [];
    } else {
      assert all[..|all| - 1] == [y] + rows[..|rows| - 1];
      assert all[|all| - 1] == rows[|rows| - 1];
      FilterCons(y, rows[..|rows| - 1], keep);
    }
  }

  /** A filter that accepts none of the rows keeps none. */
  lemma {:induction false} FilterNone<R(!new)>(rows: seq<R>, keep: R -> bool)
    requires forall r :: r in rows ==> !keep(r)
    ensures Filter(rows, keep) == []
    decreases |rows|
  {
    if |rows| > 0 {
      assert rows[|rows| - 1] in rows;
      FilterNone(rows[..|rows| - 1], keep);
    }
  }

  /** A key smaller than the first of sorted rows is the key of none of them. */
  lemma NoneSharesSmallerKey<R(!new)>(x: R, rows: seq<R>, key: R -> string)
    requires SortedBy(rows, key)
    requires |rows| > 0 && !TextLe(key(rows[0]), key(x))
    ensures Filter(rows, KeyIs(key, key(x))) == []
  {
    TextLeTotal(key(rows[0]), key(rows[0]));
    forall r | r in rows
      ensures !KeyIs(key, key(x))(r)
    {
      var m :| 0 <= m < |rows| && rows[m] == r;
      assert TextLe(key(rows[0]), key(rows[m]));
    }
    FilterNone(rows, KeyIs(key, key(x)));
  }

  lemma SortedTail<R(!new)>(rows: seq<R>, key: R -> string)
    requires SortedBy(rows, key) && |rows| > 0
    ensures SortedBy(rows[1..], key)
  {
    forall i, j | 0 <= i < j < |rows| - 1
      ensures TextLe(key(rows[1..][i]), key(rows[1..][j]))
    {
      assert rows[1..][i] == rows[i + 1] && rows[1..][j] == rows[j + 1];
    }
  }

  /** Inserting `x` into sorted rows puts it after every row with its key. */
  lemma {:induction false} InsertByStable<R(!new)>(x: R, rows: seq<R>, key: R -> string, k: string)
    requires SortedBy(rows, key)
    ensures Filter(InsertBy(x, rows, key), KeyIs(key, k)) ==
      Filter(rows, KeyIs(key, k)) + (if key(x) == k then [x] else [])
    decreases |rows|
  {
    if |rows| == 0 {
      FilterCons(x, [], KeyIs(key, k));
    } else if !TextLe(key(rows[0]), key(x)) {
      InsertFrontStable(x, rows, key, k);
    } else {
      SortedTail(rows, key);
      InsertByStable(x, rows[1..], key, k);
      InsertPastStable(x, rows, key, k);
    }
  }

  /** `x` goes in front of rows whose first key is greater than its own. */
  lemma InsertFrontStable<R(!new)>(x: R, rows: seq<R>, key: R -> string, k: string)
    requires SortedBy(rows, key)
    requires |rows| > 0 && !TextLe(key(rows[0]), key(x))
    ensures Filter(InsertBy(x, rows, key), KeyIs(key, k)) ==
      Filter(rows, KeyIs(key, k)) + (if key(x) == k then [x] else [])
  {
    assert InsertBy(x, rows, key) == [x] + rows;
    FilterCons(x, rows, KeyIs(key, k));
    if key(x) == k {
      NoneSharesSmallerKey(x, rows, key);
    }
  }

  /** `x` goes past a first row whose key is not greater than its own. */
  lemma InsertPastStable<R(!new)>(x: R, rows: seq<R>, key: R -> string, k: string)
    requires |rows| > 0 && TextLe(key(rows[0]), key(x))
    requires Filter(InsertBy(x, rows[1..], key), KeyIs(key, k)) ==
      Filter(rows[1..], KeyIs(key, k)) + (if key(x) == k then [x] else [])
    ensures Filter(InsertBy(x, rows, key), KeyIs(key, k)) ==
      Filter(rows, KeyIs(key, k)) + (if key(x) == k then [x] else [])
  {
    var first, rest, keep := rows[0], rows[1..], KeyIs(key, k);
    var inserted := InsertBy(x, rest, key);
    assert rows == [first] + rest;
    assert InsertBy(x, rows, key) == [first] + inserted;
    FilterCons(first, inserted, keep);
    FilterCons(first, rest, keep);
    SeqAssociates(if keep(first) then [first] else [], Filter(rest, keep),
                  if key(x) == k then [x] else []);
  }

  lemma SeqAssociates<R>(a: seq<R>, b: seq<R>, c: seq<R>)
    ensures a + (b + c) == (a + b) + c
  {
  }

  /** The order is stable: the rows sharing any one key come out in table
      order. */
  lemma {:induction false} SortByStable<R(!new)>(rows: seq<R>, key: R -> string, k: string)
    ensures Filter(SortBy(rows, key), KeyIs(key, k)) == Filter(rows, KeyIs(key, k))
    decreases |rows|
  {
    if |rows| > 0 {
      var front := rows[..|rows| - 1];
      SortByStable(front, key, k);
      SortBySorts(front, key);
      InsertByStable(rows[|rows| - 1], SortBy(front, key), key, k);
    }
  }

  // ---------------------------------------------------------------------
  // Query building
  // ---------------------------------------------------------------------

  /** A condition of a listing query: on the author, on the symbol, or that
      the timeout has passed. */
  datatype Clause = AuthorIs | SymbolIs | TimeoutBefore

  function Lead(first: bool): string
  {
    if first then "WHERE " else "AND "
  }

  function Condition(c: Clause): string
  {
    match c
    case AuthorIs => "author ="
    case SymbolIs => "symbol ="
    case TimeoutBefore => "timeout <"
  }

  /** One clause of the query text, ending with its placeholder. */
  function ClauseText(c: Clause, first: bool): string
  {
    Lead(first) + Condition(c) + " ?\n"
  }

  /** The clauses in order, the first introduced by WHERE, the others by AND. */
  function Render(cs: seq<Clause>): string
    decreases |cs|
  {
    if |cs| == 0 then "" else Render(cs[..|cs| - 1]) + ClauseText(cs[|cs| - 1], |cs| == 1)
  }

  function Header(table: string): string
  {
    "SELECT * FROM " + table + "\n"
  }

  /** The clauses a listing asks for: author 0, symbol "*" and inactive are
      "any" and add nothing. */
  function Clauses(authorID: int, symbol: string, active: bool): seq<Clause>
  {
    (if authorID != 0 then [AuthorIs] else [])
      + (if symbol != "*" then [SymbolIs] else [])
      + (if active then [TimeoutBefore] else [])
  }

  /** The value bound to the clause's placeholder. */
  function Binding(c: Clause, authorID: int, symbol: string, now: int): Value
  {
    match c
    case AuthorIs => Int(authorID)
    case SymbolIs => Text(symbol)
    case TimeoutBefore => Int(now)
  }

  /** The clause texts are the literal lines the program appends. */
  lemma ClauseLines()
    ensures ClauseText(AuthorIs, true) == "WHERE author = ?\n"
    ensures ClauseText(SymbolIs, true) == "WHERE symbol = ?\n"
    ensures ClauseText(SymbolIs, false) == "AND symbol = ?\n"
    ensures ClauseText(TimeoutBefore, true) == "WHERE timeout < ?\n"
    ensures ClauseText(TimeoutBefore, false) == "AND timeout < ?\n"
  {
  }

  /** Appending a clause appends its line to the rendered text. */
  lemma AppendClause(query: string, header: string, cs: seq<Clause>, c: Clause)
    requires query == header + Render(cs)
    ensures query + ClauseText(c, |cs| == 0) == header + Render(cs + [c])
  {
    var more := cs + [c];
    assert more[..|more| - 1] == cs && more[|more| - 1] == c;
    var line := ClauseText(c, |cs| == 0);
    assert Render(more) == Render(cs) + line;
    SeqAssociates(header, Render(cs), line);
  }

  /** `query` is the header `head` followed by the clauses `cs`, and `values` binds
      each clause's placeholder in order. */
  ghost predicate Built(query: string, values: seq<Value>, head: string, cs: seq<Clause>,
                        authorID: int, symbol: string, now: int)
  {
    query == head + Render(cs) && |values| == |cs|
    && forall i :: 0 <= i < |cs| ==> values[i] == Binding(cs[i], authorID, symbol, now)
  }

  /** Appends one clause's line to the query and its value to the bound
      values. */
  method AddClause(query: string, values: seq<Value>, c: Clause, v: Value,
                   ghost head: string, ghost cs: seq<Clause>, ghost authorID: int, ghost symbol: string, ghost now: int)
    returns (longer: string, more: seq<Value>)
    requires Built(query, values, head, cs, authorID, symbol, now)
    requires v == Binding(c, authorID, symbol, now)
    ensures Built(longer, more, head, cs + [c], authorID, symbol, now)
    ensures |more| == |values| + 1
  {
    AppendClause(query, head, cs, c);
    longer := query + ClauseText(c, |values| == 0);
    more := values + [v];
  }

  /** Builds a listing query clause by clause, as the program does: a clause
      starts with WHERE when no value has been bound yet, with AND otherwise.
      Every clause carries one placeholder, so a query whose table name has
      none has exactly one placeholder per bound value. */
  method BuildQuery(table: string, authorID: int, symbol: string, active: bool, now: int)
    returns (query: string, values: seq<Value>)
    ensures query == Header(table) + Render(Clauses(authorID, symbol, active)) + "ORDER BY symbol"
    ensures |values| == |Clauses(authorID, symbol, active)|
    ensures forall i :: 0 <= i < |values| ==>
      values[i] == Binding(Clauses(authorID, symbol, active)[i], authorID, symbol, now)
    ensures '?' !in table ==> CountPlaceholders(query) == |values|
  {
    ghost var cs: seq<Clause> := [];
    var head := Header(table);
    query, values := head, [];
    if authorID != 0 {
      query, values := AddClause(query, values, AuthorIs, Int(authorID), head, cs, authorID, symbol, now);
      cs := cs + [AuthorIs];
    }
    ghost var afterAuthor := cs;
    if symbol != "*" {
      query, values := AddClause(query, values, SymbolIs, Text(symbol), head, cs, authorID, symbol, now);
      cs := cs + [SymbolIs];
    }
    ghost var afterSymbol := cs;
    if active {
      query, values := AddClause(query, values, TimeoutBefore, Int(now), head, cs, authorID, symbol, now);
      cs := cs + [TimeoutBefore];
    }
    ClausesAssemble(authorID, symbol, active, afterAuthor, afterSymbol, cs);
    Finish(query, values, table, cs, authorID, symbol, now);
    query := query + "ORDER BY symbol";
  }

  /** The clauses the three steps append are the listing's clauses. */
  lemma ClausesAssemble(authorID: int, symbol: string, active: bool,
                        afterAuthor: seq<Clause>, afterSymbol: seq<Clause>, cs: seq<Clause>)
    requires afterAuthor == if authorID != 0 then [] + [AuthorIs] else []
    requires afterSymbol == if symbol != "*" then afterAuthor + [SymbolIs] else afterAuthor
    requires cs == if active then afterSymbol + [TimeoutBefore] else afterSymbol
    ensures cs == Clauses(authorID, symbol, active)
  {
    assert [] + [AuthorIs] == [AuthorIs];
    assert afterSymbol == afterAuthor + (if symbol != "*" then [SymbolIs] else []);
    assert cs == afterSymbol + (if active then [TimeoutBefore] else []);
  }

  /** The ORDER BY line completes a built query. */
  lemma Finish(query: string, values: seq<Value>, table: string, cs: seq<Clause>,
               authorID: int, symbol: string, now: int)
    requires Built(query, values, Header(table), cs, authorID, symbol, now)
    ensures query + "ORDER BY symbol" == Header(table) + Render(cs) + "ORDER BY symbol"
    ensures |values| == |cs|
    ensures forall i :: 0 <= i < |values| ==> values[i] == Binding(cs[i], authorID, symbol, now)
    ensures '?' !in table ==> CountPlaceholders(query + "ORDER BY symbol") == |values|
  {
    if '?' !in table {
      QueryPlaceholders(query + "ORDER BY symbol", table, cs);
    }
  }

  /** A query whose table name has no placeholder has one per clause. */
  lemma QueryPlaceholders(query: string, table: string, cs: seq<Clause>)
    requires query == Header(table) + Render(cs) + "ORDER BY symbol"
    requires '?' !in table
    ensures CountPlaceholders(query) == |cs|
  {
    var header, clauses, tail := Header(table), Render(cs), "ORDER BY symbol";
    HeaderHasNoPlaceholder(table);
    LiteralsHaveNoPlaceholder();
    NoPlaceholders(header);
    NoPlaceholders(tail);
    RenderPlaceholders(cs);
    CountPlaceholdersAppend(header, clauses);
    CountPlaceholdersAppend(header + clauses, tail);
  }

  lemma HeaderHasNoPlaceholder(table: string)
    requires '?' !in table
    ensures '?' !in Header(table)
  {
    LiteralsHaveNoPlaceholder();
  }

  lemma LiteralsHaveNoPlaceholder()
    ensures '?' !in "SELECT * FROM " && '?' !in "\n" && '?' !in "ORDER BY symbol"
  {
  }

  function CountPlaceholders(s: string): nat
    decreases |s|
  {
    if |s| == 0 then 0 else CountPlaceholders(s[..|s| - 1]) + (if s[|s| - 1] == '?' then 1 else 0)
  }

  lemma {:induction false} CountPlaceholdersAppend(a: string, b: string)
    ensures CountPlaceholders(a + b) == CountPlaceholders(a) + CountPlaceholders(b)
    decreases |b|
  {
    if |b| == 0 {
      assert a + b == a;
    } else {
      assert (a + b)[..|a + b| - 1] == a + b[..|b| - 1];
      CountPlaceholdersAppend(a, b[..|b| - 1]);
    }
  }

  lemma {:induction false} NoPlaceholders(s: string)
    requires '?' !in s
    ensures CountPlaceholders(s) == 0
    decreases |s|
  {
    if |s| > 0 {
      assert '?' !in s[..|s| - 1];
      NoPlaceholders(s[..|s| - 1]);
    }
  }

  /** Every clause carries one placeholder, so a query has as many
      placeholders as bound values. */
  lemma {:induction false} RenderPlaceholders(cs: seq<Clause>)
    ensures CountPlaceholders(Render(cs)) == |cs|
    decreases |cs|
  {
    if |cs| > 0 {
      RenderPlaceholders(cs[..|cs| - 1]);
      CountPlaceholdersAppend(Render(cs[..|cs| - 1]), ClauseText(cs[|cs| - 1], |cs| == 1));
      LinePlaceholder(cs[|cs| - 1], |cs| == 1);
    }
  }

  lemma LinePlaceholder(c: Clause, first: bool)
    ensures CountPlaceholders(ClauseText(c, first)) == 1
  {
    CountPlaceholdersAppend(Lead(first) + Condition(c), " ?\n");
    CountPlaceholdersAppend(Lead(first), Condition(c));
    NoPlaceholders(Lead(first));
    NoPlaceholders(Condition(c));
    assert " ?\n"[..2] == " ?" && " ?"[..1] == " ";
  }

  /** A row satisfies a clause with its bound value. */
  predicate Holds(c: Clause, v: Value, author: int, symbol: string, timeout: int)
  {
    match c
    case AuthorIs => v == Int(author)
    case SymbolIs => v == Text(symbol)
    case TimeoutBefore => v.Int? && timeout < v.i
  }

  /** What a listing selects, stated directly: the author matches unless it is
      0, the symbol matches unless it is "*", and an active listing wants the
      timeout strictly before now. */
  predicate Wanted(author: int, symbol: string, timeout: int,
                   authorID: int, wantSymbol: string, active: bool, now: int)
  {
    (authorID == 0 || author == authorID) && (wantSymbol == "*" || symbol == wantSymbol)
    && (!active || timeout < now)
  }

  /** Evaluating the built clauses with their bound values selects exactly
      the rows the listing's arguments describe. */
  lemma ClausesSelectWanted(author: int, symbol: string, timeout: int,
                            authorID: int, wantSymbol: string, active: bool, now: int)
    ensures var cs := Clauses(authorID, wantSymbol, active);
      (forall i :: 0 <= i < |cs| ==>
         Holds(cs[i], Binding(cs[i], authorID, wantSymbol, now), author, symbol, timeout))
      <==> Wanted(author, symbol, timeout, authorID, wantSymbol, active, now)
  {
    var cs := Clauses(authorID, wantSymbol, active);
    if !Wanted(author, symbol, timeout, authorID, wantSymbol, active, now) {
      if authorID != 0 && author != authorID {
        assert cs[0] == AuthorIs;
      } else if wantSymbol != "*" && symbol != wantSymbol {
        var k := if authorID != 0 then 1 else 0;
        assert cs[k] == SymbolIs;
      } else {
        assert cs[|cs| - 1] == TimeoutBefore;
      }
    }
  }

  /** A row passes a built query when it satisfies each clause with the
      value bound to that clause. */
  predicate Passes(cs: seq<Clause>, values: seq<Value>, author: int, symbol: string, timeout: int)
  {
    |values| == |cs| && forall i :: 0 <= i < |cs| ==> Holds(cs[i], values[i], author, symbol, timeout)
  }

  /** Running the query with the values built for it selects exactly the rows
      the listing's arguments describe. */
  lemma QuerySelectsWanted(values: seq<Value>, author: int, symbol: string, timeout: int,
                           authorID: int, wantSymbol: string, active: bool, now: int)
    requires |values| == |Clauses(authorID, wantSymbol, active)|
    requires forall i :: 0 <= i < |values| ==>
      values[i] == Binding(Clauses(authorID, wantSymbol, active)[i], authorID, wantSymbol, now)
    ensures Passes(Clauses(authorID, wantSymbol, active), values, author, symbol, timeout)
        <==> Wanted(author, symbol, timeout, authorID, wantSymbol, active, now)
  {
    ClausesSelectWanted(author, symbol, timeout, authorID, wantSymbol, active, now);
  }

  // ---------------------------------------------------------------------
  // Row mappings
  // ---------------------------------------------------------------------

  /** An EMA row as the positional tuple the query returns. */
  function EmaColumns(r: EmaRow): (d: seq<Value>)
    ensures |d| == 10
  {
    [Text(r.id), Text(r.symbol), Text(r.timeframe), Int(r.multiplier), Int(r.periods),
     Float(r.margin), Int(r.timestamp), Int(r.timeout), Int(r.channelID), Int(r.author)]
  }

  /** The listing's row mapping as written: channel from column 7 and author
      from column 8, which in the schema hold the timeout and the channel. */
  function RowToEmaAsWritten(r: EmaRow): Ema.EmaTicket
  {
    var d := EmaColumns(r);
    Ema.EmaTicket(Ticket.Ticket(d[7].i, d[8].i, d[0].s), d[1].s, d[2].s, d[4].i, d[3].i, d[5].r)
  }

  /** The mapping as written puts the timeout where the channel belongs and
      the channel where the author belongs: a fresh row (timeout 0) for
      channel 123 and author 456 comes back addressed to channel 0 and
      author 123. */
  lemma AsWrittenMapsWrongColumns(r: EmaRow)
    ensures RowToEmaAsWritten(r).base.channelID == r.timeout
    ensures RowToEmaAsWritten(r).base.author == r.channelID
    ensures RowToEmaAsWritten(EmaRow("ema_0a1b2c3d", "AAPL", "hour", 1, 50, 0.001, 1618347540, 0, 123, 456)).base
         == Ticket.Ticket(0, 123, "ema_0a1b2c3d")
  {
  }

  /** The corrected mapping, by the schema's positions: channel from column
      8, author from column 9. */
  function RowToEma(r: EmaRow): (t: Ema.EmaTicket)
    ensures t.base == Ticket.Ticket(r.channelID, r.author, r.id)
    ensures t.symbol == r.symbol && t.timeframe == r.timeframe
    ensures t.periods == r.periods && t.multiplier == r.multiplier && t.margin == r.margin
  {
    var d := EmaColumns(r);
    Ema.EmaTicket(Ticket.Ticket(d[8].i, d[9].i, d[0].s), d[1].s, d[2].s, d[4].i, d[3].i, d[5].r)
  }

  function PriceSymbol(r: PriceRow): string { r.symbol }
  function EmaSymbol(r: EmaRow): string { r.symbol }

  function PriceRowsWithout(rows: seq<PriceRow>, id: string): seq<PriceRow>
  {
    Filter(rows, (r: PriceRow) => r.id != id)
  }

  function EmaRowsWithout(rows: seq<EmaRow>, id: string): seq<EmaRow>
  {
    Filter(rows, (r: EmaRow) => r.id != id)
  }

  /** The rows `hit` picks become `change` of themselves; every other row
      stays as it was, and no row moves. */
  function UpdateWhere<R>(rows: seq<R>, hit: R -> bool, change: R -> R): seq<R>
  {
    seq(|rows|, i requires 0 <= i < |rows| => if hit(rows[i]) then change(rows[i]) else rows[i])
  }

  /** When the change keeps a picked row picked (as setting a timeout keeps
      the id), the update leaves the rows it does not pick (those `other`
      accepts) as they were and in their order, and as many rows are picked
      after it as before. */
  lemma {:induction false} UpdateWhereKeepsOthers<R(!new)>(rows: seq<R>, hit: R -> bool, change: R -> R,
                                                           other: R -> bool)
    requires forall r :: hit(r) ==> hit(change(r))
    requires forall r :: other(r) <==> !hit(r)
    ensures Filter(UpdateWhere(rows, hit, change), other) == Filter(rows, other)
    ensures |Filter(UpdateWhere(rows, hit, change), hit)| == |Filter(rows, hit)|
    decreases |rows|
  {
    if |rows| > 0 {
      var front := rows[..|rows| - 1];
      UpdateWhereKeepsOthers(front, hit, change, other);
      UpdateWhereSnoc(rows, hit, change);
    }
  }

  /** The update of a table is the update of all but its last row, followed
      by the update of that row. */
  lemma UpdateWhereSnoc<R>(rows: seq<R>, hit: R -> bool, change: R -> R)
    requires |rows| > 0
    ensures UpdateWhere(rows, hit, change)
         == UpdateWhere(rows[..|rows| - 1], hit, change)
            + [if hit(rows[|rows| - 1]) then change(rows[|rows| - 1]) else rows[|rows| - 1]]
  {
  }

  /** The rows with the given id get the new timeout; every other row, and
      every other column, stays as it was. */
  function PriceTimeoutSet(rows: seq<PriceRow>, id: string, timeout: int): seq<PriceRow>
  {
    UpdateWhere(rows, (r: PriceRow) => r.id == id, (r: PriceRow) => r.(timeout := timeout))
  }

  function EmaTimeoutSet(rows: seq<EmaRow>, id: string, timeout: int): seq<EmaRow>
  {
    UpdateWhere(rows, (r: EmaRow) => r.id == id, (r: EmaRow) => r.(timeout := timeout))
  }

  /** Setting a watch's timeout changes no other watch: once that watch's
      rows are deleted, the price table is the same as without the update. */
  lemma TimeoutSetTouchesOnlyItsId(rows: seq<PriceRow>, id: string, timeout: int)
    ensures PriceRowsWithout(PriceTimeoutSet(rows, id, timeout), id) == PriceRowsWithout(rows, id)
  {
    UpdateWhereKeepsOthers(rows, (r: PriceRow) => r.id == id, (r: PriceRow) => r.(timeout := timeout),
                           (r: PriceRow) => r.id != id);
  }

  function PriceListing(rows: seq<PriceRow>, authorID: int, symbol: string, active: bool, now: int): seq<PriceRow>
  {
    Filter(rows, (r: PriceRow) => Wanted(r.author, r.symbol, r.timeout, authorID, symbol, active, now))
  }

  function EmaListing(rows: seq<EmaRow>, authorID: int, symbol: string, active: bool, now: int): seq<EmaRow>
  {
    Filter(rows, (r: EmaRow) => Wanted(r.author, r.symbol, r.timeout, authorID, symbol, active, now))
  }

  /** The EMA rows the built query selects are the listing. */
  lemma EmaQueryIsListing(rows: seq<EmaRow>, values: seq<Value>,
                          authorID: int, symbol: string, active: bool, now: int)
    requires |values| == |Clauses(authorID, symbol, active)|
    requires forall i :: 0 <= i < |values| ==>
      values[i] == Binding(Clauses(authorID, symbol, active)[i], authorID, symbol, now)
    ensures Filter(rows, (r: EmaRow) => Passes(Clauses(authorID, symbol, active), values, r.author, r.symbol, r.timeout))
         == EmaListing(rows, authorID, symbol, active, now)
  {
    forall r: EmaRow | r in rows
      ensures Passes(Clauses(authorID, symbol, active), values, r.author, r.symbol, r.timeout)
          == Wanted(r.author, r.symbol, r.timeout, authorID, symbol, active, now)
    {
      QuerySelectsWanted(values, r.author, r.symbol, r.timeout, authorID, symbol, active, now);
    }
    FilterSame(rows,
      (r: EmaRow) => Passes(Clauses(authorID, symbol, active), values, r.author, r.symbol, r.timeout),
      (r: EmaRow) => Wanted(r.author, r.symbol, r.timeout, authorID, symbol, active, now));
  }

  /** The price rows the built query selects are the listing. */
  lemma PriceQueryIsListing(rows: seq<PriceRow>, values: seq<Value>,
                            authorID: int, symbol: string, active: bool, now: int)
    requires |values| == |Clauses(authorID, symbol, active)|
    requires forall i :: 0 <= i < |values| ==>
      values[i] == Binding(Clauses(authorID, symbol, active)[i], authorID, symbol, now)
    ensures Filter(rows, (r: PriceRow) => Passes(Clauses(authorID, symbol, active), values, r.author, r.symbol, r.timeout))
         == PriceListing(rows, authorID, symbol, active, now)
  {
    forall r: PriceRow | r in rows
      ensures Passes(Clauses(authorID, symbol, active), values, r.author, r.symbol, r.timeout)
          == Wanted(r.author, r.symbol, r.timeout, authorID, symbol, active, now)
    {
      QuerySelectsWanted(values, r.author, r.symbol, r.timeout, authorID, symbol, active, now);
    }
    FilterSame(rows,
      (r: PriceRow) => Passes(Clauses(authorID, symbol, active), values, r.author, r.symbol, r.timeout),
      (r: PriceRow) => Wanted(r.author, r.symbol, r.timeout, authorID, symbol, active, now));
  }

  /** Mapping rows sorted by symbol to watches keeps them sorted by symbol. */
  lemma MappedSymbolsSorted(rows: seq<EmaRow>, tickets: seq<Ema.EmaTicket>)
    requires SortedBy(rows, EmaSymbol)
    requires |tickets| == |rows| && forall i :: 0 <= i < |rows| ==> tickets[i] == RowToEma(rows[i])
    ensures forall i, j :: 0 <= i < j < |tickets| ==> TextLe(tickets[i].symbol, tickets[j].symbol)
  {
    assert forall i :: 0 <= i < |rows| ==> tickets[i].symbol == EmaSymbol(rows[i]);
  }

  /** Pushing a row's timeout to `now` or later drops it from the active
      listing of its author while it stays in the full listing, so the active
      listing is strictly shorter. */
  lemma FutureTimeoutLeavesActiveListing(rows: seq<PriceRow>, id: string, timeout: int, authorID: int, now: int)
    requires timeout >= now
    requires exists r :: r in rows && r.id == id && (authorID == 0 || r.author == authorID)
    ensures |PriceListing(PriceTimeoutSet(rows, id, timeout), authorID, "*", true, now)|
          < |PriceListing(PriceTimeoutSet(rows, id, timeout), authorID, "*", false, now)|
  {
    var updated := PriceTimeoutSet(rows, id, timeout);
    var r :| r in rows && r.id == id && (authorID == 0 || r.author == authorID);
    var i :| 0 <= i < |rows| && rows[i] == r;
    assert updated[i] in updated;
    FilterStronger(updated,
      (x: PriceRow) => Wanted(x.author, x.symbol, x.timeout, authorID, "*", true, now),
      (x: PriceRow) => Wanted(x.author, x.symbol, x.timeout, authorID, "*", false, now));
  }

  // ---------------------------------------------------------------------
  // The store
  // ---------------------------------------------------------------------

  class TicketStore {
    var priceRows: seq<PriceRow>
    var emaRows: seq<EmaRow>

    /** Opens a database: the tables are created when missing and kept with
        their rows when present. */
    constructor (existingPrice: seq<PriceRow>, existingEma: seq<EmaRow>)
      ensures priceRows == existingPrice && emaRows == existingEma
    {
      priceRows := existingPrice;
      emaRows := existingEma;
    }

    /** Adds a price watch: its id is "price_" and the uuid prefix; it is
        stamped with the clock and starts with timeout 0, so it is active at
        once. */
    method AddPrice(suffix: string, now: int, symbol: string, price: real, channelID: int, author: int,
                    margin: real := Price.DefaultMargin)
      returns (id: string)
      requires IsUuidPrefix(suffix)
      modifies this
      ensures id == "price_" + suffix && TableOf(id) == "price"
      ensures priceRows == old(priceRows) + [PriceRow(id, symbol, price, margin, now, 0, channelID, author)]
      ensures emaRows == old(emaRows)
    {
      id := "price_" + suffix;
      NewIdsNameTheirTable(suffix);
      priceRows := priceRows + [PriceRow(id, symbol, price, margin, now, 0, channelID, author)];
    }

    /** Adds an EMA watch: id "ema_" and the uuid prefix, timeout 0. */
    method AddEma(suffix: string, now: int, symbol: string, timeframe: string, periods: int,
                  channelID: int, author: int,
                  multiplier: int := Ema.DefaultMultiplier, margin: real := Ema.DefaultMargin)
      returns (id: string)
      requires IsUuidPrefix(suffix)
      modifies this
      ensures id == "ema_" + suffix && TableOf(id) == "ema"
      ensures emaRows == old(emaRows)
        + [EmaRow(id, symbol, timeframe, multiplier, periods, margin, now, 0, channelID, author)]
      ensures priceRows == old(priceRows)
    {
      id := "ema_" + suffix;
      NewIdsNameTheirTable(suffix);
      emaRows := emaRows + [EmaRow(id, symbol, timeframe, multiplier, periods, margin, now, 0, channelID, author)];
    }

    /** Lists EMA watches: the built query, run on the table, ordered by
        symbol, each row mapped to a watch. */
    method GetAllEma(now: int, authorID: int := 0, symbol: string := "*", active: bool := false)
      returns (tickets: seq<Ema.EmaTicket>)
      ensures var rows := SortBy(EmaListing(emaRows, authorID, symbol, active, now), EmaSymbol);
        |tickets| == |rows| && forall i :: 0 <= i < |rows| ==> tickets[i] == RowToEma(rows[i])
      ensures forall i, j :: 0 <= i < j < |tickets| ==> TextLe(tickets[i].symbol, tickets[j].symbol)
    {
      var query, values := BuildQuery("ema", authorID, symbol, active, now);
      var cs := Clauses(authorID, symbol, active);
      var selected := Filter(emaRows, (r: EmaRow) => Passes(cs, values, r.author, r.symbol, r.timeout));
      EmaQueryIsListing(emaRows, values, authorID, symbol, active, now);
      var rows := SortBy(selected, EmaSymbol);
      SortBySorts(selected, EmaSymbol);
      tickets := seq(|rows|, i requires 0 <= i < |rows| => RowToEma(rows[i]));
      MappedSymbolsSorted(rows, tickets);
    }

    /** Lists price watches: the built query, run on the table, ordered by
        symbol. The program maps them to a class that is defined nowhere, so
        the rows themselves are returned. */
    method GetAllPrice(now: int, authorID: int := 0, symbol: string := "*", active: bool := false)
      returns (rows: seq<PriceRow>)
      ensures rows == SortBy(PriceListing(priceRows, authorID, symbol, active, now), PriceSymbol)
      ensures SortedBy(rows, PriceSymbol)
      ensures multiset(rows) == multiset(PriceListing(priceRows, authorID, symbol, active, now))
    {
      var query, values := BuildQuery("price", authorID, symbol, active, now);
      var cs := Clauses(authorID, symbol, active);
      var selected := Filter(priceRows, (r: PriceRow) => Passes(cs, values, r.author, r.symbol, r.timeout));
      PriceQueryIsListing(priceRows, values, authorID, symbol, active, now);
      rows := SortBy(selected, PriceSymbol);
      SortBySorts(selected, PriceSymbol);
    }

    /** Deletes by id in the table the id names; an id naming neither table is
        refused. Success is reported whether or not a row matched. */
    method Delete(id: string) returns (ok: bool)
      modifies this
      ensures ok <==> IsTable(TableOf(id))
      ensures priceRows == if TableOf(id) == "price" then PriceRowsWithout(old(priceRows), id) else old(priceRows)
      ensures emaRows == if TableOf(id) == "ema" then EmaRowsWithout(old(emaRows), id) else old(emaRows)
      ensures TableOf(id) == "price" ==> forall r :: r in priceRows ==> r.id != id
      ensures TableOf(id) == "ema" ==> forall r :: r in emaRows ==> r.id != id
    {
      var table := PrefixBefore(id, '_');
      if !IsTable(table) {
        return false;
      }
      if table == "price" {
        priceRows := PriceRowsWithout(priceRows, id);
      } else {
        emaRows := EmaRowsWithout(emaRows, id);
      }
      ok := true;
    }

    /** Sets the timeout of the rows with this id in the table the id names.
        An id naming neither table gives False and changes nothing; otherwise
        the result is Python's None. */
    method UpdateTimeout(id: string, timeout: int) returns (r: Option<bool>)
      modifies this
      ensures r == if IsTable(TableOf(id)) then None else Some(false)
      ensures priceRows == if TableOf(id) == "price" then PriceTimeoutSet(old(priceRows), id, timeout) else old(priceRows)
      ensures emaRows == if TableOf(id) == "ema" then EmaTimeoutSet(old(emaRows), id, timeout) else old(emaRows)
    {
      var table := PrefixBefore(id, '_');
      if !IsTable(table) {
        return Some(false);
      }
      if table == "price" {
        priceRows := PriceTimeoutSet(priceRows, id, timeout);
      } else {
        emaRows := EmaTimeoutSet(emaRows, id, timeout);
      }
      r := None;
    }

    /** The distinct symbols of the price table, each once, in order of first
        appearance. */
    method GetPriceSymbols() returns (symbols: seq<string>)
      ensures forall i, j :: 0 <= i < j < |symbols| ==> symbols[i] != symbols[j]
      ensures forall s :: s in symbols <==> exists r :: r in priceRows && r.symbol == s
    {
      symbols := [];
      var i := 0;
      while i < |priceRows|
        invariant 0 <= i <= |priceRows|
        invariant forall a, b :: 0 <= a < b < |symbols| ==> symbols[a] != symbols[b]
        invariant forall s :: s in symbols <==> exists k :: 0 <= k < i && priceRows[k].symbol == s
      {
        if priceRows[i].symbol !in symbols {
          symbols := symbols + [priceRows[i].symbol];
        }
        i := i + 1;
      }
      forall s | s in symbols ensures exists r :: r in priceRows && r.symbol == s {
        var k :| 0 <= k < |priceRows| && priceRows[k].symbol == s;
        assert priceRows[k] in priceRows;
      }
    }

    /** The active price watches on one symbol, in table order. */
    method GetPrices(symbol: string, now: int) returns (rows: seq<PriceRow>)
      ensures rows == Filter(priceRows, (r: PriceRow) => r.symbol == symbol && r.timeout < now)
      ensures forall r :: r in rows <==> r in priceRows && r.symbol == symbol && r.timeout < now
    {
      rows := Filter(priceRows, (r: PriceRow) => r.symbol == symbol && r.timeout < now);
    }
  }
}
