/**
 * Lines 12-118 of display.py: the nine extraction loops, run in the script's
 * order. The first row of the first field that cannot be read stops the script.
 */
module Extractor {
  import opened Errors
  import opened Dicts
  import opened Fields

  /** The nine dicts the script builds, one per field. */
  datatype Tables = Tables(
    deadline: Dict<int>,         // op_to_deadline
    start: Dict<int>,            // op_to_start
    schedule: Dict<int>,         // op_to_schedule
    duration: Dict<int>,         // op_to_duration
    luBlocks: Dict<int>,         // luop_to_blocks
    fBlocks: Dict<seq<int>>,     // fop_to_blocks
    bank: Dict<int>,             // blocks_to_bank
    pspr: Dict<int>,             // core_lop_to_pspr
    coreSched: Dict<int>)        // core_to_sched

  /** The tables of `doc`, or the error of the first field that cannot be read. */
  ghost function Extracted(doc: Document): Result<Tables> {
    var deadline :- TableOf(PlainInt, "deadline", FieldRows(doc, "deadline"));
    var start :- TableOf(PlainInt, "start", FieldRows(doc, "start"));
    var schedule :- TableOf(SwappedSuffix, "ops", FieldRows(doc, "ops"));
    var duration :- TableOf(PlainInt, "duration", FieldRows(doc, "duration"));
    var luBlocks :- TableOf(KeyedSuffix, "cb", FieldRows(doc, "cb"));
    var fBlocks :- ListTableOf("cbs", FieldRows(doc, "cbs"));
    var bank :- TableOf(KeyedSuffix, "ms", FieldRows(doc, "ms"));
    var pspr :- TableOf(KeyedSuffix, "pspr", FieldRows(doc, "pspr"));
    var coreSched :- TableOf(KeyedSuffix, "sched", FieldRows(doc, "sched"));
    Ok(Tables(deadline, start, schedule, duration, luBlocks, fBlocks, bank, pspr, coreSched))
  }

  method Extract(doc: Document) returns (r: Result<Tables>)
    ensures r == Extracted(doc)
  {
    var deadline :- ExtractTable(PlainInt, "deadline", FieldRows(doc, "deadline"));
    var start :- ExtractTable(PlainInt, "start", FieldRows(doc, "start"));
    var schedule :- ExtractTable(SwappedSuffix, "ops", FieldRows(doc, "ops"));
    var duration :- ExtractTable(PlainInt, "duration", FieldRows(doc, "duration"));
    var luBlocks :- ExtractTable(KeyedSuffix, "cb", FieldRows(doc, "cb"));
    var fBlocks :- ExtractBlockLists("cbs", FieldRows(doc, "cbs"));
    var bank :- ExtractTable(KeyedSuffix, "ms", FieldRows(doc, "ms"));
    var pspr :- ExtractTable(KeyedSuffix, "pspr", FieldRows(doc, "pspr"));
    var coreSched :- ExtractTable(KeyedSuffix, "sched", FieldRows(doc, "sched"));
    return Ok(Tables(deadline, start, schedule, duration, luBlocks, fBlocks, bank, pspr, coreSched));
  }

  /** Every row of field `name` is one its loop can read. */
  ghost predicate FieldReadable(doc: Document, name: string, dec: Decoder) {
    forall i | 0 <= i < |FieldRows(doc, name)| :: RowOk(dec, FieldRows(doc, name)[i])
  }

  /** Every field's rows can be read by that field's loop. */
  ghost predicate Readable(doc: Document) {
    && FieldReadable(doc, "deadline", PlainInt)
    && FieldReadable(doc, "start", PlainInt)
    && FieldReadable(doc, "ops", SwappedSuffix)
    && FieldReadable(doc, "duration", PlainInt)
    && FieldReadable(doc, "cb", KeyedSuffix)
    && FieldReadable(doc, "cbs", KeyedSuffix)
    && FieldReadable(doc, "ms", KeyedSuffix)
    && FieldReadable(doc, "pspr", KeyedSuffix)
    && FieldReadable(doc, "sched", KeyedSuffix)
  }

  /** One field's loop succeeds exactly when all of that field's rows can be read. */
  lemma TableOfOk(doc: Document, name: string, dec: Decoder)
    ensures TableOf(dec, name, FieldRows(doc, name)).Ok? <==> FieldReadable(doc, name, dec)
    ensures ListTableOf(name, FieldRows(doc, name)).Ok? <==> FieldReadable(doc, name, KeyedSuffix)
  {
    DecodeAllOk(dec, name, FieldRows(doc, name));
    DecodeAllOk(KeyedSuffix, name, FieldRows(doc, name));
  }

  /** Extraction succeeds exactly when every row of every field can be read. */
  lemma ExtractedOk(doc: Document)
    ensures Extracted(doc).Ok? <==> Readable(doc)
  {
    TableOfOk(doc, "deadline", PlainInt);
    TableOfOk(doc, "start", PlainInt);
    TableOfOk(doc, "ops", SwappedSuffix);
    TableOfOk(doc, "duration", PlainInt);
    TableOfOk(doc, "cb", KeyedSuffix);
    TableOfOk(doc, "cbs", KeyedSuffix);
    TableOfOk(doc, "ms", KeyedSuffix);
    TableOfOk(doc, "pspr", KeyedSuffix);
    TableOfOk(doc, "sched", KeyedSuffix);
  }

  /** The `op_to_start` the script iterates over lists each operation once, with its start. */
  lemma ExtractedStartValid(doc: Document)
    requires Extracted(doc).Ok?
    ensures Extracted(doc).value.start.Valid()
  {
    TableOfValid(PlainInt, "start", FieldRows(doc, "start"));
  }

  /** A document without any of the nine fields gives nine empty dicts. */
  lemma EmptyDocument()
    ensures Extracted(map[]) == Ok(Tables(Empty(), Empty(), Empty(), Empty(), Empty(), Empty(), Empty(), Empty(), Empty()))
  {
  }

  /** Two `cbs` tuples for one operation read as two pairs, in document order. */
  lemma RepeatedBlockRows(op: string, prefix: string, a: int, b: int)
    requires '$' !in prefix
    ensures DecodeAll(KeyedSuffix, "cbs", [[op, prefix + "$" + Labels.IntToString(a)], [op, prefix + "$" + Labels.IntToString(b)]])
      == Ok([(op, a), (op, b)])
  {
    KeyedRow("cbs", 0, op, prefix, a);
    KeyedRow("cbs", 1, op, prefix, b);
    DecodeTwoRows(KeyedSuffix, "cbs", [op, prefix + "$" + Labels.IntToString(a)], [op, prefix + "$" + Labels.IntToString(b)],
                  (op, a), (op, b));
  }

  /** Two rows that decode one by one decode together, in order. */
  lemma DecodeTwoRows(dec: Decoder, field: string, r0: Row, r1: Row, p0: (string, int), p1: (string, int))
    requires DecodeRow(dec, field, 0, r0) == Ok(p0) && DecodeRow(dec, field, 1, r1) == Ok(p1)
    ensures DecodeAll(dec, field, [r0, r1]) == Ok([p0, p1])
  {
    var noRows: seq<Row> := [];
    var noPairs: seq<(string, int)> := [];
    DecodeAllSnoc(dec, field, noRows, r0, noPairs, p0);
    assert noRows + [r0] == [r0] && noPairs + [p0] == [p0];
    DecodeAllSnoc(dec, field, [r0], r1, [p0], p1);
    assert [r0] + [r1] == [r0, r1] && [p0] + [p1] == [p0, p1];
  }

  /** Appending `a` and then `b` for the same operation gives the one list `[a, b]`. */
  lemma RepeatedBlockLists(op: string, a: int, b: int)
    ensures BuildLists([(op, a), (op, b)]) == Dict([op], map[op := [a, b]])
  {
    var p0, p1 := (op, a), (op, b);
    var noPairs: seq<(string, int)> := [];
    BuildListsSnoc(noPairs, p0);
    assert noPairs + [p0] == [p0];
    var e: Dict<seq<int>> := Empty();
    assert BuildLists(noPairs) == e;
    var noBlocks: seq<int> := [];
    assert e.entries == map[] && noBlocks + [a] == [a];
    assert e.order + [op] == [op] && e.entries[op := [a]] == map[op := [a]];
    assert BuildLists([p0]) == Dict([op], map[op := [a]]);
    BuildListsSnoc([p0], p1);
    assert [p0] + [p1] == [p0, p1];
    assert [a] + [b] == [a, b];
    assert map[op := [a]][op := [a, b]] == map[op := [a, b]];
  }

  /** The second block of an operation is appended after the first, which it does not overwrite. */
  lemma RepeatedBlocks(op: string, prefix: string, a: int, b: int)
    requires '$' !in prefix
    ensures ListTableOf("cbs", [[op, prefix + "$" + Labels.IntToString(a)], [op, prefix + "$" + Labels.IntToString(b)]])
      == Ok(Dict([op], map[op := [a, b]]))
  {
    RepeatedBlockRows(op, prefix, a, b);
    RepeatedBlockLists(op, a, b);
  }

  /** The tuples `(F$1, blk$4)` and `(F$1, blk$9)` give `fop_to_blocks == {'F$1': [4, 9]}`. */
  lemma BlockListExample()
    ensures ListTableOf("cbs", [["F$1", "blk$4"], ["F$1", "blk$9"]]) == Ok(Dict(["F$1"], map["F$1" := [4, 9]]))
  {
    RepeatedBlocks("F$1", "blk", 4, 9);
    assert Labels.IntToString(4) == "4" && Labels.IntToString(9) == "9";
    assert "blk" + "$" + "4" == "blk$4" && "blk" + "$" + "9" == "blk$9";
  }

  /** A `deadline` tuple whose value is not a number stops the script at that row. */
  lemma MalformedDeadlineExample()
    ensures Extracted(map["deadline" := [["F$0", "soon"]]]) == Err(MalformedNumber("soon"))
  {
    var doc := map["deadline" := [["F$0", "soon"]]];
    assert FieldRows(doc, "deadline") == [["F$0", "soon"]];
    assert [["F$0", "soon"]][..0] == [];
  }
}
