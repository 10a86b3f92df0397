/** The two adapters that turn a stored tuple into a record: positions 0 to 7
    become named fields, and a "type" field tags the kind of watch. */
module Adapter {
  import opened Common

  /** The record fields of a price-level tuple, by position. */
  const PriceFields: seq<string> :=
    ["symbol", "price", "margin", "id", "timestamp", "timeout", "channelID", "authorID"]

  /** The record fields of an EMA tuple, by position. */
  const EmaFields: seq<string> :=
    ["symbol", "timespan", "multiplier", "id", "timestamp", "timeout", "channelID", "authorID"]

  /** A price-level tuple as a record. A tuple of fewer than eight cells has
      no cell at some position read, and indexing it raises. */
  function PriceLevelAdapter(doc: seq<Value>): (r: Option<map<string, Value>>)
    ensures r.Some? <==> |doc| >= 8
    ensures r.Some? ==> forall k :: k in r.value <==> k == "type" || k in PriceFields
    ensures r.Some? ==> r.value["type"] == Text("price_level")
  {
    if |doc| < 8 then None
    else Some(map[
      "type" := Text("price_level"),
      "symbol" := doc[0],
      "price" := doc[1],
      "margin" := doc[2],
      "id" := doc[3],
      "timestamp" := doc[4],
      "timeout" := doc[5],
      "channelID" := doc[6],
      "authorID" := doc[7]])
  }

  /** An EMA tuple as a record, tagged "ema". */
  function EmaAdapter(doc: seq<Value>): (r: Option<map<string, Value>>)
    ensures r.Some? <==> |doc| >= 8
    ensures r.Some? ==> forall k :: k in r.value <==> k == "type" || k in EmaFields
    ensures r.Some? ==> r.value["type"] == Text("ema")
    ensures r.Some? ==> "periods" !in r.value && "margin" !in r.value
  {
    if |doc| < 8 then None
    else Some(map[
      "type" := Text("ema"),
      "symbol" := doc[0],
      "timespan" := doc[1],
      "multiplier" := doc[2],
      "id" := doc[3],
      "timestamp" := doc[4],
      "timeout" := doc[5],
      "channelID" := doc[6],
      "authorID" := doc[7]])
  }

  /** Reads the named fields of a record back into a tuple, in order. */
  function Fields(record: map<string, Value>, names: seq<string>): seq<Value>
    requires forall n :: n in names ==> n in record
  {
    seq(|names|, i requires 0 <= i < |names| => record[names[i]])
  }

  /** Cells 0 to 3 of the tuple are the record's fields named at those
      positions. */
  lemma PriceLevelFirstCells(doc: seq<Value>)
    requires |doc| >= 8
    ensures var record := PriceLevelAdapter(doc).value;
      record[PriceFields[0]] == doc[0] && record[PriceFields[1]] == doc[1]
      && record[PriceFields[2]] == doc[2] && record[PriceFields[3]] == doc[3]
  {
  }

  /** Cells 4 to 7 likewise. */
  lemma PriceLevelLastCells(doc: seq<Value>)
    requires |doc| >= 8
    ensures var record := PriceLevelAdapter(doc).value;
      record[PriceFields[4]] == doc[4] && record[PriceFields[5]] == doc[5]
      && record[PriceFields[6]] == doc[6] && record[PriceFields[7]] == doc[7]
  {
  }

  /** Cells after the eighth play no part in a price-level record. */
  lemma PriceLevelIgnoresLaterCells(doc: seq<Value>)
    requires |doc| >= 8
    ensures PriceLevelAdapter(doc) == PriceLevelAdapter(doc[..8])
  {
    var head := doc[..8];
    assert head[0] == doc[0] && head[1] == doc[1] && head[2] == doc[2] && head[3] == doc[3];
    assert head[4] == doc[4] && head[5] == doc[5] && head[6] == doc[6] && head[7] == doc[7];
  }

  /** The price-level record loses nothing of the first eight cells: they can
      be read back by field name, in order. */
  lemma PriceLevelRoundTrip(doc: seq<Value>)
    requires |doc| >= 8
    ensures Fields(PriceLevelAdapter(doc).value, PriceFields) == doc[..8]
  {
    var record := PriceLevelAdapter(doc).value;
    PriceLevelFirstCells(doc);
    PriceLevelLastCells(doc);
    var back := Fields(record, PriceFields);
    SameEight(back, doc[..8]);
  }

  /** Cells 0 to 3 of the tuple are the record's fields named at those
      positions. */
  lemma EmaFirstCells(doc: seq<Value>)
    requires |doc| >= 8
    ensures var record := EmaAdapter(doc).value;
      record[EmaFields[0]] == doc[0] && record[EmaFields[1]] == doc[1]
      && record[EmaFields[2]] == doc[2] && record[EmaFields[3]] == doc[3]
  {
  }

  /** Cells 4 to 7 likewise. */
  lemma EmaLastCells(doc: seq<Value>)
    requires |doc| >= 8
    ensures var record := EmaAdapter(doc).value;
      record[EmaFields[4]] == doc[4] && record[EmaFields[5]] == doc[5]
      && record[EmaFields[6]] == doc[6] && record[EmaFields[7]] == doc[7]
  {
  }

  /** Cells after the eighth play no part in an EMA record. */
  lemma EmaIgnoresLaterCells(doc: seq<Value>)
    requires |doc| >= 8
    ensures EmaAdapter(doc) == EmaAdapter(doc[..8])
  {
    var head := doc[..8];
    assert head[0] == doc[0] && head[1] == doc[1] && head[2] == doc[2] && head[3] == doc[3];
    assert head[4] == doc[4] && head[5] == doc[5] && head[6] == doc[6] && head[7] == doc[7];
  }

  /** Likewise the EMA record gives back the first eight cells. */
  lemma EmaRoundTrip(doc: seq<Value>)
    requires |doc| >= 8
    ensures Fields(EmaAdapter(doc).value, EmaFields) == doc[..8]
  {
    var record := EmaAdapter(doc).value;
    EmaFirstCells(doc);
    EmaLastCells(doc);
    var back := Fields(record, EmaFields);
    SameEight(back, doc[..8]);
  }
  /** Two sequences of eight values that agree at every position are equal. */
  lemma SameEight(a: seq<Value>, b: seq<Value>)
    requires |a| == 8 && |b| == 8
    requires a[0] == b[0] && a[1] == b[1] && a[2] == b[2] && a[3] == b[3]
    requires a[4] == b[4] && a[5] == b[5] && a[6] == b[6] && a[7] == b[7]
    ensures a == b
  {
    forall i | 0 <= i < 8
      ensures a[i] == b[i]
    {
    }
  }
}
