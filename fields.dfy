/**
 * Lines 12-118 of display.py: each field of the solver's document is a list of
 * tuples, each tuple a list of atom labels, and one `for` loop per field fills
 * a dict from those rows. Three loop shapes cover the nine fields; the `cbs`
 * loop, which appends instead of overwriting, is the fourth.
 */
module Fields {
  import opened Errors
  import opened Labels
  import opened Dicts
  import opened Seqs

  /** The labels of one tuple's atoms, in document order. */
  type Row = seq<string>

  /** The parsed document: the tuples of every field, by field label. */
  type Document = map<string, seq<Row>>

  /** `root.findall(".//field[@label='name']/tuple")`: a missing field has no rows. */
  function FieldRows(doc: Document, name: string): seq<Row> {
    if name in doc then doc[name] else []
  }

  /** How a field's rows become (key, value) pairs. */
  datatype Decoder =
    /** `deadline`, `start`, `duration`: key `atoms[0]`, value `int(atoms[1])`. */
    | PlainInt
    /** `ops`: key `atoms[1]`, value the suffix of `atoms[0]`. */
    | SwappedSuffix
    /** `cb`, `cbs`, `ms`, `pspr`, `sched`: key `atoms[0]`, value the suffix of `atoms[1]`. */
    | KeyedSuffix

  function KeyAtom(dec: Decoder): nat {
    if dec.SwappedSuffix? then 1 else 0
  }

  function ValueAtom(dec: Decoder): nat {
    1 - KeyAtom(dec)
  }

  /** The value atom read as the decoder reads it: `int(atom)` or `int(atom.split('$')[1])`. */
  function ParseValue(dec: Decoder, atom: string): Result<int> {
    if dec.PlainInt? then
      match ParseInt(atom)
      case None => Err(MalformedNumber(atom))
      case Some(n) => Ok(n)
    else Suffix(atom)
  }

  /** A row the decoder accepts: at least two atoms, and a value atom that parses. */
  predicate RowOk(dec: Decoder, row: Row) {
    |row| >= 2 && ParseValue(dec, row[ValueAtom(dec)]).Ok?
  }

  function RowKey(dec: Decoder, row: Row): string
    requires |row| >= 2
  {
    row[KeyAtom(dec)]
  }

  function RowValue(dec: Decoder, row: Row): int
    requires RowOk(dec, row)
  {
    ParseValue(dec, row[ValueAtom(dec)]).value
  }

  predicate HasKey(dec: Decoder, row: Row, k: string) {
    |row| >= 2 && RowKey(dec, row) == k
  }

  /**
   * The body of one extraction loop, on row `i` of `field`. The atoms are read
   * in the script's order, which decides the error: the `ops` loop parses the
   * suffix of `atoms[0]` before it reads `atoms[1]`.
   */
  function DecodeRow(dec: Decoder, field: string, i: nat, row: Row): Result<(string, int)> {
    if dec.SwappedSuffix? then
      if |row| < 1 then Err(MalformedRecord(field, i))
      else
        match Suffix(row[0])
        case Err(e) => Err(e)
        case Ok(v) => if |row| < 2 then Err(MalformedRecord(field, i)) else Ok((row[1], v))
    else if |row| < 2 then Err(MalformedRecord(field, i))
    else
      match ParseValue(dec, row[1])
      case Err(e) => Err(e)
      case Ok(v) => Ok((row[0], v))
  }

  /**
   * A row decodes exactly when it has two atoms and its value atom parses,
   * and then to its key atom and that value; the error of a two-atom row is
   * the error of its value atom, and a row without atoms is malformed.
   */
  lemma DecodeRowMeaning(dec: Decoder, field: string, i: nat, row: Row)
    ensures DecodeRow(dec, field, i, row).Ok? <==> RowOk(dec, row)
    ensures DecodeRow(dec, field, i, row).Ok? ==> DecodeRow(dec, field, i, row).value == (RowKey(dec, row), RowValue(dec, row))
    ensures DecodeRow(dec, field, i, row).Err? && |row| >= 2 ==>
      DecodeRow(dec, field, i, row).error == ParseValue(dec, row[ValueAtom(dec)]).error
    ensures |row| == 0 ==> DecodeRow(dec, field, i, row) == Err(MalformedRecord(field, i))
  {
  }

  /** `deadline`, `start`, `duration`: the tuple `(op, str(n))` maps `op` to `n`. */
  lemma PlainRow(field: string, i: nat, op: string, n: int)
    ensures DecodeRow(PlainInt, field, i, [op, IntToString(n)]) == Ok((op, n))
  {
    IntToStringRoundTrip(n);
  }

  /** `cb`, `cbs`, `ms`, `pspr`, `sched`: the tuple `(key, prefix$n)` maps `key` to `n`. */
  lemma KeyedRow(field: string, i: nat, key: string, prefix: string, n: int)
    requires '$' !in prefix
    ensures DecodeRow(KeyedSuffix, field, i, [key, prefix + "$" + IntToString(n)]) == Ok((key, n))
  {
    SuffixOfJoined(prefix, n);
  }

  /** `ops`, roles swapped: the tuple `(prefix$n, op)` maps `op`, the second atom, to `n`. */
  lemma SwappedRow(field: string, i: nat, prefix: string, n: int, op: string)
    requires '$' !in prefix
    ensures DecodeRow(SwappedSuffix, field, i, [prefix + "$" + IntToString(n), op]) == Ok((op, n))
  {
    SuffixOfJoined(prefix, n);
  }

  /** A suffix atom without a `$` stops the loop, whatever the key. */
  lemma SuffixRowWithoutDollar(dec: Decoder, field: string, i: nat, row: Row)
    requires !dec.PlainInt? && |row| >= 2 && '$' !in row[ValueAtom(dec)]
    ensures DecodeRow(dec, field, i, row) == Err(MalformedIndex(row[ValueAtom(dec)]))
  {
    SuffixError(row[ValueAtom(dec)]);
  }

  /** The (key, value) pairs of `rows`, or the error of the first row that cannot be read. */
  ghost function DecodeAll(dec: Decoder, field: string, rows: seq<Row>): (r: Result<seq<(string, int)>>)
    ensures r.Ok? ==> |r.value| == |rows|
    decreases |rows|
  {
    if rows == [] then Ok([])
    else
      var n := |rows| - 1;
      var pairs :- DecodeAll(dec, field, rows[..n]);
      var kv :- DecodeRow(dec, field, n, rows[n]);
      Ok(pairs + [kv])
  }

  /** The dict a last-write-wins loop builds from `rows`, or the error that aborts it. */
  ghost function TableOf(dec: Decoder, field: string, rows: seq<Row>): Result<Dict<int>> {
    var pairs :- DecodeAll(dec, field, rows);
    Ok(Build(pairs))
  }

  /** A table the loop builds has distinct keys, each with an entry, and no other entries. */
  lemma TableOfValid(dec: Decoder, field: string, rows: seq<Row>)
    requires TableOf(dec, field, rows).Ok?
    ensures TableOf(dec, field, rows).value.Valid()
  {
    BuildValid(DecodeAll(dec, field, rows).value);
  }

  /** The dict of lists the `cbs` loop builds from `rows`, or the error that aborts it. */
  ghost function ListTableOf(field: string, rows: seq<Row>): Result<Dict<seq<int>>> {
    var pairs :- DecodeAll(KeyedSuffix, field, rows);
    Ok(BuildLists(pairs))
  }

  /**
   * Lines 14-18, 26-30, 38-42, 50-54, 62-66, 90-94, 102-106 and 114-118:
   * `d = dict()`, then `d[key] = value` for each row; a bad row aborts the loop.
   */
  method ExtractTable(dec: Decoder, field: string, rows: seq<Row>) returns (r: Result<Dict<int>>)
    ensures r == TableOf(dec, field, rows)
  {
    var d := Empty();
    ghost var pairs := [];
    for i := 0 to |rows|
      invariant DecodeAll(dec, field, rows[..i]) == Ok(pairs)
      invariant d == Build(pairs)
    {
      var kv := DecodeRow(dec, field, i, rows[i]);
      TableStep(dec, field, rows, i, pairs);
      if kv.Err? {
        return Err(kv.error);
      }
      d := d.Put(kv.value.0, kv.value.1);
      pairs := pairs + [kv.value];
    }
    TakeAll(rows);
    return Ok(d);
  }

  /** Lines 74-82: the one loop that appends to a per-key list instead of overwriting. */
  method ExtractBlockLists(field: string, rows: seq<Row>) returns (r: Result<Dict<seq<int>>>)
    ensures r == ListTableOf(field, rows)
  {
    var d := Empty();
    ghost var pairs := [];
    for i := 0 to |rows|
      invariant DecodeAll(KeyedSuffix, field, rows[..i]) == Ok(pairs)
      invariant d == BuildLists(pairs)
    {
      var kv := DecodeRow(KeyedSuffix, field, i, rows[i]);
      ListTableStep(field, rows, i, pairs);
      if kv.Err? {
        return Err(kv.error);
      }
      var (op, blk) := kv.value;
      ghost var before := d;
      if op !in d.entries {
        d := d.Put(op, []);
      }
      AppendInTwoSteps(before, op, blk, d);
      d := d.Put(op, d.entries[op] + [blk]);
      pairs := pairs + [kv.value];
    }
    TakeAll(rows);
    return Ok(d);
  }

  /** One more row of the overwriting loop: the dict gains that row's pair, or the loop stops with its error. */
  lemma TableStep(dec: Decoder, field: string, rows: seq<Row>, i: nat, pairs: seq<(string, int)>)
    requires i < |rows| && DecodeAll(dec, field, rows[..i]) == Ok(pairs)
    ensures DecodeRow(dec, field, i, rows[i]).Err? ==>
      TableOf(dec, field, rows) == Err(DecodeRow(dec, field, i, rows[i]).error)
    ensures DecodeRow(dec, field, i, rows[i]).Ok? ==>
      var kv := DecodeRow(dec, field, i, rows[i]).value;
      && DecodeAll(dec, field, rows[..i + 1]) == Ok(pairs + [kv])
      && Build(pairs + [kv]) == Build(pairs).Put(kv.0, kv.1)
  {
    DecodeAllStep(dec, field, rows, i, pairs);
    if DecodeRow(dec, field, i, rows[i]).Err? {
      DecodeStopsAtError(dec, field, rows, i + 1);
    } else {
      BuildSnoc(pairs, DecodeRow(dec, field, i, rows[i]).value);
    }
  }

  /** One more row of the `cbs` loop: the dict appends that row's block, or the loop stops with its error. */
  lemma ListTableStep(field: string, rows: seq<Row>, i: nat, pairs: seq<(string, int)>)
    requires i < |rows| && DecodeAll(KeyedSuffix, field, rows[..i]) == Ok(pairs)
    ensures DecodeRow(KeyedSuffix, field, i, rows[i]).Err? ==>
      ListTableOf(field, rows) == Err(DecodeRow(KeyedSuffix, field, i, rows[i]).error)
    ensures DecodeRow(KeyedSuffix, field, i, rows[i]).Ok? ==>
      var kv := DecodeRow(KeyedSuffix, field, i, rows[i]).value;
      && DecodeAll(KeyedSuffix, field, rows[..i + 1]) == Ok(pairs + [kv])
      && BuildLists(pairs + [kv]) == Append(BuildLists(pairs), kv.0, kv.1)
  {
    DecodeAllStep(KeyedSuffix, field, rows, i, pairs);
    if DecodeRow(KeyedSuffix, field, i, rows[i]).Err? {
      DecodeStopsAtError(KeyedSuffix, field, rows, i + 1);
    } else {
      BuildListsSnoc(pairs, DecodeRow(KeyedSuffix, field, i, rows[i]).value);
    }
  }

  /** One more row: the pairs so far extended by that row's pair, or that row's error. */
  lemma DecodeAllStep(dec: Decoder, field: string, rows: seq<Row>, i: nat, pairs: seq<(string, int)>)
    requires i < |rows| && DecodeAll(dec, field, rows[..i]) == Ok(pairs)
    ensures DecodeAll(dec, field, rows[..i + 1]) ==
      match DecodeRow(dec, field, i, rows[i])
      case Ok(kv) => Ok(pairs + [kv])
      case Err(e) => Err(e)
  {
    PrefixOfPrefix(rows, i, i + 1);
  }

  /** A row that can be read extends the pairs read so far. */
  lemma DecodeAllSnoc(dec: Decoder, field: string, rows: seq<Row>, row: Row, pairs: seq<(string, int)>, p: (string, int))
    requires DecodeAll(dec, field, rows) == Ok(pairs)
    requires DecodeRow(dec, field, |rows|, row) == Ok(p)
    ensures DecodeAll(dec, field, rows + [row]) == Ok(pairs + [p])
  {
    SnocPrefix(rows, row);
  }

  /** Once a prefix of the rows fails, the whole loop fails with that error. */
  lemma {:induction false} DecodeStopsAtError(dec: Decoder, field: string, rows: seq<Row>, i: nat)
    requires i <= |rows| && DecodeAll(dec, field, rows[..i]).Err?
    ensures DecodeAll(dec, field, rows) == DecodeAll(dec, field, rows[..i])
    decreases |rows| - i
  {
    if i < |rows| {
      PrefixOfPrefix(rows, i, i + 1);
      DecodeStopsAtError(dec, field, rows, i + 1);
    } else {
      TakeAll(rows);
    }
  }

  /** When every row can be read, the whole field can. */
  lemma {:induction false} DecodeAllWhenRowsOk(dec: Decoder, field: string, rows: seq<Row>)
    requires forall i | 0 <= i < |rows| :: RowOk(dec, rows[i])
    ensures DecodeAll(dec, field, rows).Ok?
    decreases |rows|
  {
    if rows != [] {
      var n := |rows| - 1;
      assert forall i | 0 <= i < n :: rows[..n][i] == rows[i];
      DecodeAllWhenRowsOk(dec, field, rows[..n]);
      DecodeAllStep(dec, field, rows, n, DecodeAll(dec, field, rows[..n]).value);
      assert rows[..n + 1] == rows;
    }
  }

  /** Every row is read exactly when each one can be. */
  lemma DecodeAllOk(dec: Decoder, field: string, rows: seq<Row>)
    ensures DecodeAll(dec, field, rows).Ok? <==> forall i | 0 <= i < |rows| :: RowOk(dec, rows[i])
  {
    if DecodeAll(dec, field, rows).Ok? {
      forall i | 0 <= i < |rows| ensures RowOk(dec, rows[i]) {
        DecodeAllPair(dec, field, rows, i);
      }
    }
    if forall i | 0 <= i < |rows| :: RowOk(dec, rows[i]) {
      DecodeAllWhenRowsOk(dec, field, rows);
    }
  }

  /** Row `i` gives pair `i`: its key atom and its parsed value. */
  lemma {:induction false} DecodeAllPair(dec: Decoder, field: string, rows: seq<Row>, i: nat)
    requires DecodeAll(dec, field, rows).Ok? && i < |rows|
    ensures RowOk(dec, rows[i])
    ensures DecodeAll(dec, field, rows).value[i] == (RowKey(dec, rows[i]), RowValue(dec, rows[i]))
    decreases |rows|
  {
    var n := |rows| - 1;
    if i < n {
      DecodeAllPair(dec, field, rows[..n], i);
      assert rows[..n][i] == rows[i];
    }
  }

  /** A field fails with the error of its first row that cannot be read. */
  lemma DecodeFirstError(dec: Decoder, field: string, rows: seq<Row>, i: nat)
    requires i < |rows| && !RowOk(dec, rows[i])
    requires forall j | 0 <= j < i :: RowOk(dec, rows[j])
    ensures DecodeAll(dec, field, rows) == Err(DecodeRow(dec, field, i, rows[i]).error)
  {
    assert forall j | 0 <= j < i :: rows[..i][j] == rows[j];
    DecodeAllOk(dec, field, rows[..i]);
    DecodeAllStep(dec, field, rows, i, DecodeAll(dec, field, rows[..i]).value);
    assert rows[..i + 1][..i] == rows[..i];
    DecodeStopsAtError(dec, field, rows, i + 1);
  }

  /** The keys of a table are exactly the key atoms of its rows. */
  lemma TableKeys(dec: Decoder, field: string, rows: seq<Row>)
    requires forall i | 0 <= i < |rows| :: RowOk(dec, rows[i])
    ensures TableOf(dec, field, rows).Ok?
    ensures forall k :: k in TableOf(dec, field, rows).value.entries <==>
      exists i | 0 <= i < |rows| :: HasKey(dec, rows[i], k)
  {
    DecodeAllOk(dec, field, rows);
    var pairs := DecodeAll(dec, field, rows).value;
    BuildKeys(pairs);
    forall k ensures k in Build(pairs).entries <==> exists i | 0 <= i < |rows| :: HasKey(dec, rows[i], k) {
      if k in Build(pairs).entries {
        var i :| 0 <= i < |pairs| && pairs[i].0 == k;
        DecodeAllPair(dec, field, rows, i);
      }
      if exists i | 0 <= i < |rows| :: HasKey(dec, rows[i], k) {
        var i :| 0 <= i < |rows| && HasKey(dec, rows[i], k);
        DecodeAllPair(dec, field, rows, i);
      }
    }
  }

  /** Last write wins: a key holds the value of the last row with that key. */
  lemma TableLastWriteWins(dec: Decoder, field: string, rows: seq<Row>, i: nat)
    requires forall j | 0 <= j < |rows| :: RowOk(dec, rows[j])
    requires i < |rows| && RowOk(dec, rows[i])
    requires forall j | i < j < |rows| :: !HasKey(dec, rows[j], RowKey(dec, rows[i]))
    ensures TableOf(dec, field, rows).Ok?
    ensures RowKey(dec, rows[i]) in TableOf(dec, field, rows).value.entries
    ensures TableOf(dec, field, rows).value.entries[RowKey(dec, rows[i])] == RowValue(dec, rows[i])
  {
    DecodeAllOk(dec, field, rows);
    var pairs := DecodeAll(dec, field, rows).value;
    DecodeAllPair(dec, field, rows, i);
    forall j | i < j < |pairs| ensures pairs[j].0 != pairs[i].0 {
      DecodeAllPair(dec, field, rows, j);
    }
    BuildLastWriteWins(pairs, i);
  }

  /** The `cbs` list of a key: the suffixes of that key's block atoms, in document order. */
  lemma BlockListsInDocumentOrder(field: string, rows: seq<Row>, k: string)
    requires forall i | 0 <= i < |rows| :: RowOk(KeyedSuffix, rows[i])
    ensures ListTableOf(field, rows).Ok?
    ensures k in ListTableOf(field, rows).value.entries ==>
      ListTableOf(field, rows).value.entries[k] == ValuesOf(DecodeAll(KeyedSuffix, field, rows).value, k)
  {
    DecodeAllOk(KeyedSuffix, field, rows);
    BuildListsValues(DecodeAll(KeyedSuffix, field, rows).value);
  }

  /**
   * Insertion order: of two keys of a table, the one listed first occurs in
   * a row before the first row of the other.
   */
  lemma TableKeyOrder(dec: Decoder, field: string, rows: seq<Row>, a: nat, b: nat)
    requires TableOf(dec, field, rows).Ok? && a < b < |TableOf(dec, field, rows).value.order|
    ensures var order := TableOf(dec, field, rows).value.order;
      exists i | 0 <= i < |rows| :: HasKey(dec, rows[i], order[a]) && forall j | 0 <= j <= i :: !HasKey(dec, rows[j], order[b])
  {
    var pairs := DecodeAll(dec, field, rows).value;
    var order := Build(pairs).order;
    BuildKeyOrder(pairs, a, b);
    var i := FirstIndex(pairs, order[a]);
    DecodeAllPair(dec, field, rows, i);
    forall j | 0 <= j <= i ensures !HasKey(dec, rows[j], order[b]) {
      DecodeAllPair(dec, field, rows, j);
    }
  }

  /** The rows of a `cbs`-style field whose key atom is `k`. */
  ghost function RowsWithKey(rows: seq<Row>, k: string): set<nat> {
    set i: nat | i < |rows| && HasKey(KeyedSuffix, rows[i], k)
  }

  /** Each `cbs` list has one block per row of its operation. */
  lemma BlockListLength(field: string, rows: seq<Row>, k: string)
    requires ListTableOf(field, rows).Ok? && k in ListTableOf(field, rows).value.entries
    ensures |ListTableOf(field, rows).value.entries[k]| == |RowsWithKey(rows, k)|
  {
    var pairs := DecodeAll(KeyedSuffix, field, rows).value;
    BuildListsLength(pairs);
    forall i: nat ensures i in PositionsOf(pairs, k) <==> i in RowsWithKey(rows, k) {
      if i < |rows| {
        DecodeAllPair(KeyedSuffix, field, rows, i);
      }
    }
    assert PositionsOf(pairs, k) == RowsWithKey(rows, k);
  }

  /** The pairs of a prefix of the rows are the matching prefix of the pairs. */
  lemma DecodePrefix(dec: Decoder, field: string, rows: seq<Row>, n: nat)
    requires n <= |rows| && DecodeAll(dec, field, rows).Ok?
    ensures DecodeAll(dec, field, rows[..n]).Ok?
    ensures DecodeAll(dec, field, rows[..n]).value == DecodeAll(dec, field, rows).value[..n]
  {
    var pairs := DecodeAll(dec, field, rows).value;
    forall i | 0 <= i < n ensures RowOk(dec, rows[..n][i]) {
      DecodeAllPair(dec, field, rows, i);
    }
    DecodeAllOk(dec, field, rows[..n]);
    var pre := DecodeAll(dec, field, rows[..n]).value;
    forall i | 0 <= i < n ensures pre[i] == pairs[i] {
      DecodeAllPair(dec, field, rows, i);
      DecodeAllPair(dec, field, rows[..n], i);
    }
  }

  /**
   * Earlier blocks are never overwritten: the list of an operation after the
   * first `n` rows is the beginning of its final list.
   */
  lemma BlockListsOnlyGrow(field: string, rows: seq<Row>, n: nat, k: string)
    requires ListTableOf(field, rows).Ok? && n <= |rows|
    ensures ListTableOf(field, rows[..n]).Ok?
    ensures k in ListTableOf(field, rows[..n]).value.entries ==>
      && k in ListTableOf(field, rows).value.entries
      && ListTableOf(field, rows[..n]).value.entries[k] <= ListTableOf(field, rows).value.entries[k]
  {
    var pairs := DecodeAll(KeyedSuffix, field, rows).value;
    DecodePrefix(KeyedSuffix, field, rows, n);
    if k in BuildLists(pairs[..n]).entries {
      BuildListsExtends(pairs[..n], pairs[n..], k);
      assert pairs[..n] + pairs[n..] == pairs;
    }
  }
}
