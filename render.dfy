/**
 * Lines 149-180 of display.py: the canvas as the list of shapes the script
 * creates on it, the fixed grid of time slots, and the bar or triangle and the
 * label of each operation.
 */
module Render {
  import opened Errors
  import opened Labels
  import opened Dicts
  import opened Extractor
  import opened Extent

  /** One `create_text`, `create_rectangle` or `create_polygon` call. */
  datatype Shape =
    /** Text centred on `(x, y)`, wrapped at `wrap` when the call passes `width=`. */
    | Text(x: int, y: int, text: string, wrap: Option<int>)
    /** The rectangle with corners `(x0, y0)` and `(x1, y1)`, filled when `fill=` is passed. */
    | Rect(x0: int, y0: int, x1: int, y1: int, fill: Option<string>)
    | Poly(points: seq<(int, int)>, fill: Option<string>)

  /** The Tk canvas of line 139, reduced to its scroll width and the shapes created on it. */
  class Canvas {
    /** The third coordinate of `scrollregion=(0, 0, scrollregion_max_x, 500)`. */
    const scrollMaxX: int
    var shapes: seq<Shape>

    constructor (scrollMaxX: int)
      ensures this.scrollMaxX == scrollMaxX && shapes == []
    {
      this.scrollMaxX := scrollMaxX;
      shapes := [];
    }

    method CreateText(x: int, y: int, text: string, wrap: Option<int>)
      modifies this
      ensures shapes == old(shapes) + [Text(x, y, text, wrap)]
    {
      shapes := shapes + [Text(x, y, text, wrap)];
    }

    method CreateRectangle(x0: int, y0: int, x1: int, y1: int, fill: Option<string>)
      modifies this
      ensures shapes == old(shapes) + [Rect(x0, y0, x1, y1, fill)]
    {
      shapes := shapes + [Rect(x0, y0, x1, y1, fill)];
    }

    method CreatePolygon(points: seq<(int, int)>, fill: Option<string>)
      modifies this
      ensures shapes == old(shapes) + [Poly(points, fill)]
    {
      shapes := shapes + [Poly(points, fill)];
    }
  }

  /** The grid has 40 time slots, each with 10 schedule rows. */
  const COLUMNS: nat := 40
  const ROWS: nat := 10

  /** Line 154: the number of slot `i`, centred above the left edge of its slot. */
  function ColumnNumber(i: nat): Shape {
    Text(SLOT_SIZE + i * SLOT_SIZE, 70, IntToString(i), None)
  }

  /** Line 156: the unfilled cell of slot `i` in row `r`. */
  function Cell(i: nat, r: nat): Shape {
    Rect(SLOT_SIZE + i * SLOT_SIZE, 100 + r * 50, SLOT_SIZE + i * SLOT_SIZE + SLOT_SIZE, 120 + r * 50, None)
  }

  /** The first `n` cells of column `i`, top to bottom. */
  function Cells(i: nat, n: nat): seq<Shape> {
    seq(n, r requires 0 <= r => Cell(i, r))
  }

  lemma CellsSnoc(i: nat, n: nat)
    ensures Cells(i, n + 1) == Cells(i, n) + [Cell(i, n)]
  {
  }

  /**
   * The first `n` slots, in drawing order: shape `11 * i` is the number of
   * slot `i`, and the ten shapes after it are the cells of that slot.
   */
  function Columns(n: nat): seq<Shape> {
    seq(11 * n, j requires 0 <= j => if j % 11 == 0 then ColumnNumber(j / 11) else Cell(j / 11, j % 11 - 1))
  }

  /** Slot `i`: its number followed by its cells. */
  function Column(i: nat): seq<Shape> {
    [ColumnNumber(i)] + Cells(i, ROWS)
  }

  /** Everything lines 153-156 draw. */
  function Grid(): seq<Shape> {
    Columns(COLUMNS)
  }

  /** Lines 153-156: two nested loops, a number and then ten cells per slot. */
  method DrawGrid(canvas: Canvas)
    modifies canvas
    ensures canvas.shapes == old(canvas.shapes) + Grid()
  {
    DrawSlots(canvas, COLUMNS);
  }

  /** The loops of lines 153-156 over the first `n` slots. */
  method DrawSlots(canvas: Canvas, n: nat)
    modifies canvas
    ensures canvas.shapes == old(canvas.shapes) + Columns(n)
  {
    ghost var before := canvas.shapes;
    for i := 0 to n
      invariant canvas.shapes == before + Columns(i)
    {
      canvas.CreateText(SLOT_SIZE + i * SLOT_SIZE, 70, IntToString(i), None);
      DrawCells(canvas, i);
      ColumnsSnoc(i);
      assert canvas.shapes == before + (Columns(i) + Column(i));
    }
  }

  /** The inner loop of lines 155-156: the ten cells of slot `i`. */
  method DrawCells(canvas: Canvas, i: nat)
    modifies canvas
    ensures canvas.shapes == old(canvas.shapes) + Cells(i, ROWS)
  {
    ghost var numbered := canvas.shapes;
    for offy := 0 to ROWS
      invariant canvas.shapes == numbered + Cells(i, offy)
    {
      canvas.CreateRectangle(SLOT_SIZE + i * SLOT_SIZE, 100 + offy * 50,
                             SLOT_SIZE + i * SLOT_SIZE + SLOT_SIZE, 120 + offy * 50, None);
      CellsSnoc(i, offy);
      assert canvas.shapes == numbered + (Cells(i, offy) + [Cell(i, offy)]);
    }
  }

  /** Position `11 * i + r` of the grid is row `r` of slot `i`, counting the number as row 0. */
  lemma SlotPosition(i: nat, r: nat)
    requires r <= ROWS
    ensures (11 * i + r) / 11 == i && (11 * i + r) % 11 == r
  {
  }

  /**
   * The grid in closed form: shape `11 * i` is the number of slot `i`, and
   * the ten shapes after it are the cells of that slot, top to bottom.
   */
  lemma GridAt(i: nat, r: nat)
    requires i < COLUMNS && r <= ROWS
    ensures |Grid()| == 11 * COLUMNS
    ensures Grid()[11 * i + r] == if r == 0 then ColumnNumber(i) else Cell(i, r - 1)
  {
    SlotPosition(i, r);
  }

  /** One more slot appends its number and its cells. */
  lemma ColumnsSnoc(n: nat)
    ensures Columns(n + 1) == Columns(n) + Column(n)
  {
    forall j | 0 <= j < 11 * (n + 1) ensures Columns(n + 1)[j] == (Columns(n) + Column(n))[j] {
      if j >= 11 * n {
        SlotPosition(n, j - 11 * n);
      }
    }
  }

  datatype Kind = TextKind | RectKind | PolyKind

  function KindOf(s: Shape): Kind {
    match s
    case Text(_, _, _, _) => TextKind
    case Rect(_, _, _, _, _) => RectKind
    case Poly(_, _) => PolyKind
  }

  /** How many of `shapes` are of kind `k`. */
  ghost function Count(shapes: seq<Shape>, k: Kind): nat {
    if shapes == [] then 0
    else (if KindOf(shapes[0]) == k then 1 else 0) + Count(shapes[1..], k)
  }

  lemma {:induction false} CountAppend(a: seq<Shape>, b: seq<Shape>, k: Kind)
    ensures Count(a + b, k) == Count(a, k) + Count(b, k)
    decreases |a|
  {
    if a == [] {
      assert a + b == b;
    } else {
      assert (a + b)[1..] == a[1..] + b;
      CountAppend(a[1..], b, k);
    }
  }

  lemma {:induction false} CellsCount(i: nat, n: nat, k: Kind)
    ensures Count(Cells(i, n), k) == if k == RectKind then n else 0
  {
    if n > 0 {
      CellsCount(i, n - 1, k);
      CellsSnoc(i, n - 1);
      CountAppend(Cells(i, n - 1), [Cell(i, n - 1)], k);
      assert [Cell(i, n - 1)][..0] == [];
    }
  }

  lemma ColumnCount(i: nat, k: Kind)
    ensures Count(Column(i), k) == if k == RectKind then ROWS else if k == TextKind then 1 else 0
  {
    var number: seq<Shape> := [ColumnNumber(i)];
    assert number[..0] == [];
    CellsCount(i, ROWS, k);
    CountAppend(number, Cells(i, ROWS), k);
  }

  lemma {:induction false} ColumnsCount(n: nat, k: Kind)
    ensures Count(Columns(n), k) == if k == RectKind then n * ROWS else if k == TextKind then n else 0
  {
    if n == 0 {
      assert Columns(n) == [];
    } else {
      ColumnsCount(n - 1, k);
      ColumnCount(n - 1, k);
      ColumnsSnoc(n - 1);
      CountOfConcat(Columns(n), Columns(n - 1), Column(n - 1), k);
    }
  }

  lemma CountOfConcat(all: seq<Shape>, a: seq<Shape>, b: seq<Shape>, k: Kind)
    requires all == a + b
    ensures Count(all, k) == Count(a, k) + Count(b, k)
  {
    CountAppend(a, b, k);
  }

  /** The grid is exactly 40 numbers and 400 cells, and no polygon. */
  lemma GridCount()
    ensures |Grid()| == 440
    ensures Count(Grid(), TextKind) == 40
    ensures Count(Grid(), RectKind) == 400
    ensures Count(Grid(), PolyKind) == 0
  {
    ColumnsCount(COLUMNS, TextKind);
    ColumnsCount(COLUMNS, RectKind);
    ColumnsCount(COLUMNS, PolyKind);
  }

  /**
   * Each cell is one slot wide and 20 units high, the cells of a column are 50
   * units apart, and each number names its slot and is centred above that slot's left edge.
   */
  lemma GridGeometry(i: nat, r: nat)
    ensures Cell(i, r).x1 - Cell(i, r).x0 == SLOT_SIZE && Cell(i, r).y1 - Cell(i, r).y0 == 20
    ensures Cell(i, r + 1).y0 - Cell(i, r).y0 == 50
    ensures Cell(i + 1, r).x0 == Cell(i, r).x1
    ensures ParseInt(ColumnNumber(i).text) == Some(i as int) && ColumnNumber(i).x == Cell(i, r).x0
  {
    IntToStringRoundTrip(i);
  }

  /** Line 149, `optype_to_color`: the fill colour of each kind of operation. */
  function Palette(kind: char): Option<string> {
    if kind == 'F' then Some("lightblue")
    else if kind == 'L' then Some("pink")
    else if kind == 'U' then Some("lightgreen")
    else None
  }

  /** What the body of the loop of line 158 draws for one operation, and the error that stops it, if any. */
  datatype Emission = Emission(shapes: seq<Shape>, failure: Option<Error>)

  function Fail(e: Error): Emission {
    Emission([], Some(e))
  }

  /**
   * Lines 159-180 for operation `op`, in the script's order of evaluation:
   * the kind and its colour, the schedule row, then the label, the duration,
   * the shape and finally the text. A load operation whose pspr is missing
   * has already drawn its bar when the script stops.
   */
  function OpEmission(t: Tables, op: string): Emission
    requires op in t.start.entries
  {
    if |op| == 0 || Palette(op[0]).None? then Fail(UnhandledKind(op))
    else
      var color := Palette(op[0]).value;
      var sx := t.start.entries[op] * SLOT_SIZE;
      if op !in t.schedule.entries then Fail(DanglingReference("ops", op))
      else
        var offy := t.schedule.entries[op] * SLOT_SIZE;
        match Segment(op)
        case None => Fail(MalformedIndex(op))
        case Some(segment) =>
          if op[0] == 'L' then LoadEmission(t, op, segment, color, sx, offy)
          else if op[0] == 'F' then FunctionalEmission(t, op, segment, color, sx, offy)
          else UnloadEmission(t, op, segment, color, sx, offy)
  }

  /** Lines 166-169: a bar, and a text naming the operation, its block and its pspr. */
  function LoadEmission(t: Tables, op: string, segment: string, color: string, sx: int, offy: int): Emission
    requires |op| > 0
  {
    if op !in t.luBlocks.entries then Fail(DanglingReference("cb", op))
    else
      var name := [op[0]] + segment + "(" + IntToString(t.luBlocks.entries[op]) + ")";
      if op !in t.duration.entries then Fail(DanglingReference("duration", op))
      else
        var ex := t.duration.entries[op] * SLOT_SIZE;
        var bar := Rect(SLOT_SIZE + sx, 100 + offy, SLOT_SIZE + sx + ex, 120 + offy, Some(color));
        if op !in t.pspr.entries then Emission([bar], Some(DanglingReference("pspr", op)))
        else
          var text := Text(SLOT_SIZE + sx + 50, 110 + offy, name + "/" + IntToString(t.pspr.entries[op]), Some(ex));
          Emission([bar, text], None)
  }

  /** Lines 172-175: a bar, and a text naming the operation and its list of blocks. */
  function FunctionalEmission(t: Tables, op: string, segment: string, color: string, sx: int, offy: int): Emission
    requires |op| > 0
  {
    if op !in t.fBlocks.entries then Fail(DanglingReference("cbs", op))
    else
      var name := [op[0]] + segment + "(" + ListToString(t.fBlocks.entries[op]) + ")";
      if op !in t.duration.entries then Fail(DanglingReference("duration", op))
      else
        var ex := t.duration.entries[op] * SLOT_SIZE;
        var bar := Rect(SLOT_SIZE + sx, 100 + offy, SLOT_SIZE + sx + ex, 120 + offy, Some(color));
        Emission([bar, Text(SLOT_SIZE + sx + SLOT_SIZE / 2, 110 + offy, name, Some(ex))], None)
  }

  /** Lines 178-180: a downward triangle at the start time, with the name above it. */
  function UnloadEmission(t: Tables, op: string, segment: string, color: string, sx: int, offy: int): Emission
    requires |op| > 0
  {
    if op !in t.luBlocks.entries then Fail(DanglingReference("cb", op))
    else
      var name := [op[0]] + segment + "(" + IntToString(t.luBlocks.entries[op]) + ")";
      var x := SLOT_SIZE + sx;
      Emission([Poly([(x, 100 + offy), (x - 5, 90 + offy), (x + 5, 90 + offy)], Some(color)),
                Text(x, 80 + offy, name, None)], None)
  }

  /** Lines 159-180: the body of the drawing loop for one operation. */
  method DrawOp(canvas: Canvas, t: Tables, op: string) returns (failure: Option<Error>)
    requires op in t.start.entries
    modifies canvas
    ensures canvas.shapes == old(canvas.shapes) + OpEmission(t, op).shapes
    ensures failure == OpEmission(t, op).failure
  {
    if |op| == 0 || Palette(op[0]).None? {
      return Some(UnhandledKind(op));
    }
    var optype := op[0];
    var color := Palette(optype).value;
    var sx := t.start.entries[op] * SLOT_SIZE;
    if op !in t.schedule.entries {
      return Some(DanglingReference("ops", op));
    }
    var offy := t.schedule.entries[op] * SLOT_SIZE;
    var segment := Segment(op);
    if segment.None? {
      return Some(MalformedIndex(op));
    }
    if optype == 'L' {
      failure := DrawLoad(canvas, t, op, segment.value, color, sx, offy);
    } else if optype == 'F' {
      failure := DrawFunctional(canvas, t, op, segment.value, color, sx, offy);
    } else {
      failure := DrawUnload(canvas, t, op, segment.value, color, sx, offy);
    }
  }

  /** Lines 165-169. */
  method DrawLoad(canvas: Canvas, t: Tables, op: string, segment: string, color: string, sx: int, offy: int)
    returns (failure: Option<Error>)
    requires |op| > 0
    modifies canvas
    ensures canvas.shapes == old(canvas.shapes) + LoadEmission(t, op, segment, color, sx, offy).shapes
    ensures failure == LoadEmission(t, op, segment, color, sx, offy).failure
  {
    if op !in t.luBlocks.entries {
      return Some(DanglingReference("cb", op));
    }
    var name := [op[0]] + segment + "(" + IntToString(t.luBlocks.entries[op]) + ")";
    if op !in t.duration.entries {
      return Some(DanglingReference("duration", op));
    }
    var ex := t.duration.entries[op] * SLOT_SIZE;
    canvas.CreateRectangle(SLOT_SIZE + sx, 100 + offy, SLOT_SIZE + sx + ex, 120 + offy, Some(color));
    if op !in t.pspr.entries {
      return Some(DanglingReference("pspr", op));
    }
    canvas.CreateText(SLOT_SIZE + sx + 50, 110 + offy, name + "/" + IntToString(t.pspr.entries[op]), Some(ex));
    return None;
  }

  /** Lines 171-175. */
  method DrawFunctional(canvas: Canvas, t: Tables, op: string, segment: string, color: string, sx: int, offy: int)
    returns (failure: Option<Error>)
    requires |op| > 0
    modifies canvas
    ensures canvas.shapes == old(canvas.shapes) + FunctionalEmission(t, op, segment, color, sx, offy).shapes
    ensures failure == FunctionalEmission(t, op, segment, color, sx, offy).failure
  {
    if op !in t.fBlocks.entries {
      return Some(DanglingReference("cbs", op));
    }
    var name := [op[0]] + segment + "(" + ListToString(t.fBlocks.entries[op]) + ")";
    if op !in t.duration.entries {
      return Some(DanglingReference("duration", op));
    }
    var ex := t.duration.entries[op] * SLOT_SIZE;
    canvas.CreateRectangle(SLOT_SIZE + sx, 100 + offy, SLOT_SIZE + sx + ex, 120 + offy, Some(color));
    canvas.CreateText(SLOT_SIZE + sx + SLOT_SIZE / 2, 110 + offy, name, Some(ex));
    return None;
  }

  /** Lines 177-180. */
  method DrawUnload(canvas: Canvas, t: Tables, op: string, segment: string, color: string, sx: int, offy: int)
    returns (failure: Option<Error>)
    requires |op| > 0
    modifies canvas
    ensures canvas.shapes == old(canvas.shapes) + UnloadEmission(t, op, segment, color, sx, offy).shapes
    ensures failure == UnloadEmission(t, op, segment, color, sx, offy).failure
  {
    if op !in t.luBlocks.entries {
      return Some(DanglingReference("cb", op));
    }
    var name := [op[0]] + segment + "(" + IntToString(t.luBlocks.entries[op]) + ")";
    canvas.CreatePolygon([(SLOT_SIZE + sx, 100 + offy), (SLOT_SIZE + sx - 5, 90 + offy), (SLOT_SIZE + sx + 5, 90 + offy)],
                         Some(color));
    canvas.CreateText(SLOT_SIZE + sx, 80 + offy, name, None);
    return None;
  }

  /**
   * Everything the drawing of `op` looks up is there: a kind with a colour, a
   * schedule row, a `$` in the id, and the tables its kind reads.
   */
  predicate Resolves(t: Tables, op: string) {
    && |op| > 0 && Palette(op[0]).Some?
    && op in t.schedule.entries
    && '$' in op
    && (op[0] == 'L' ==> op in t.luBlocks.entries && op in t.duration.entries && op in t.pspr.entries)
    && (op[0] == 'F' ==> op in t.fBlocks.entries && op in t.duration.entries)
    && (op[0] == 'U' ==> op in t.luBlocks.entries)
  }

  /** An operation is drawn without error exactly when everything it looks up is there, and then it is two shapes. */
  lemma OpSucceeds(t: Tables, op: string)
    requires op in t.start.entries
    ensures OpEmission(t, op).failure.None? <==> Resolves(t, op)
    ensures OpEmission(t, op).failure.None? ==> |OpEmission(t, op).shapes| == 2
  {
    SegmentShape(op);
  }

  /** An operation whose kind has no colour fails before drawing anything. */
  lemma UnknownKindDrawsNothing(t: Tables, op: string)
    requires op in t.start.entries && (|op| == 0 || (op[0] != 'F' && op[0] != 'L' && op[0] != 'U'))
    ensures OpEmission(t, op) == Emission([], Some(UnhandledKind(op)))
  {
  }

  /** Every filled shape of an operation takes the colour of its first character, and nothing else decides it. */
  lemma ColourByKind(t: Tables, op: string, j: nat)
    requires op in t.start.entries && j < |OpEmission(t, op).shapes|
    ensures |op| > 0 && Palette(op[0]).Some?
    ensures match OpEmission(t, op).shapes[j]
      case Text(_, _, _, _) => true
      case Rect(_, _, _, _, fill) => fill == Palette(op[0])
      case Poly(_, fill) => fill == Palette(op[0])
  {
  }

  /**
   * Lines 161-168 and 173-175: a load or functional operation is a bar from
   * `(100 + start * 100, 100 + schedule * 100)`, `duration * 100` wide and 20
   * high, with its text centred vertically and placed half a slot in.
   */
  lemma BarGeometry(t: Tables, op: string)
    requires op in t.start.entries && Resolves(t, op) && (op[0] == 'L' || op[0] == 'F')
    ensures var e := OpEmission(t, op).shapes;
      && |e| == 2 && e[0].Rect? && e[1].Text?
      && e[0].x0 == SLOT_SIZE + t.start.entries[op] * SLOT_SIZE
      && e[0].y0 == 100 + t.schedule.entries[op] * SLOT_SIZE
      && e[0].x1 - e[0].x0 == t.duration.entries[op] * SLOT_SIZE
      && e[0].y1 - e[0].y0 == 20
      && e[1].x == e[0].x0 + SLOT_SIZE / 2
      && 2 * e[1].y == e[0].y0 + e[0].y1
      && e[1].wrap == Some(e[0].x1 - e[0].x0)
  {
    SegmentShape(op);
  }

  /**
   * Lines 179-180: an unload operation is a triangle pointing down at
   * `(x, 100 + schedule * 100)`, with `x = 100 + start * 100`, on a base 10
   * wide and 10 above it, with its name 10 higher still.
   */
  lemma TriangleGeometry(t: Tables, op: string)
    requires op in t.start.entries && Resolves(t, op) && op[0] == 'U'
    ensures var e := OpEmission(t, op).shapes;
      var x := SLOT_SIZE + t.start.entries[op] * SLOT_SIZE;
      var y := 100 + t.schedule.entries[op] * SLOT_SIZE;
      && |e| == 2 && e[0].Poly? && e[1].Text?
      && e[0].points == [(x, y), (x - 5, y - 10), (x + 5, y - 10)]
      && e[1].x == x && e[1].y == y - 20 && e[1].wrap.None?
  {
    SegmentShape(op);
  }

  /** The block decoration of a label: the block of a load or unload operation, the block list of a functional one. */
  function Decoration(t: Tables, op: string): string
    requires |op| > 0 && (op[0] == 'F' ==> op in t.fBlocks.entries) && (op[0] != 'F' ==> op in t.luBlocks.entries)
  {
    if op[0] == 'F' then ListToString(t.fBlocks.entries[op]) else IntToString(t.luBlocks.entries[op])
  }

  /**
   * Lines 166, 169, 172 and 178: the label of operation `prefix$n` is its kind,
   * its index without the `$` and its block decoration in brackets; a load
   * label ends with a `/` and its pspr.
   */
  lemma LabelText(t: Tables, prefix: string, n: int)
    requires |prefix| > 0 && '$' !in prefix
    requires var op := prefix + "$" + IntToString(n); op in t.start.entries && Resolves(t, op)
    ensures var op := prefix + "$" + IntToString(n);
      var head := [prefix[0]] + IntToString(n) + "(" + Decoration(t, op) + ")";
      && |OpEmission(t, op).shapes| == 2
      && OpEmission(t, op).shapes[1].text == if prefix[0] == 'L' then head + "/" + IntToString(t.pspr.entries[op]) else head
  {
    var op := prefix + "$" + IntToString(n);
    IntToStringRoundTrip(n);
    SegmentOfJoined(prefix, IntToString(n), []);
    assert op + [] == op;
    assert op[0] == prefix[0];
  }

  /**
   * The first `n` turns of the loop of line 158 over emissions `es`, one per
   * operation, in order: the shapes drawn until the first failure, and that failure.
   */
  ghost function Run(es: seq<Emission>, n: nat): Emission
    requires n <= |es|
  {
    if n == 0 then Emission([], None)
    else
      var before := Run(es, n - 1);
      if before.failure.Some? then before else Emission(before.shapes + es[n - 1].shapes, es[n - 1].failure)
  }

  /** The emission of every key of `op_to_start`, in insertion order. */
  ghost function Emissions(t: Tables): (es: seq<Emission>)
    requires t.start.Listed()
    ensures |es| == |t.start.order|
  {
    seq(|t.start.order|, i requires 0 <= i < |t.start.order| => OpEmission(t, t.start.order[i]))
  }

  /** One more turn after no failure appends that turn's shapes to what the canvas holds. */
  lemma RunStep(es: seq<Emission>, n: nat, drawn: seq<Shape>, before: seq<Shape>, after: seq<Shape>)
    requires n < |es| && Run(es, n).failure.None?
    requires drawn == before + Run(es, n).shapes && after == drawn + es[n].shapes
    ensures Run(es, n + 1).failure == es[n].failure
    ensures after == before + Run(es, n + 1).shapes
  {
  }

  /** Once a turn fails, the loop draws nothing more and reports that failure. */
  lemma {:induction false} RunStopsAtFailure(es: seq<Emission>, n: nat)
    requires n <= |es| && Run(es, n).failure.Some?
    ensures Run(es, |es|) == Run(es, n)
    decreases |es| - n
  {
    if n < |es| {
      RunStopsAtFailure(es, n + 1);
    }
  }

  /** The loop ends without failure exactly when no turn fails. */
  lemma {:induction false} RunSucceeds(es: seq<Emission>, n: nat)
    requires n <= |es|
    ensures Run(es, n).failure.None? <==> forall i | 0 <= i < n :: es[i].failure.None?
  {
    if n > 0 {
      RunSucceeds(es, n - 1);
    }
  }

  /** No turn fails and each draws two shapes. */
  ghost predicate AllPairs(es: seq<Emission>) {
    forall i | 0 <= i < |es| :: es[i].failure.None? && |es[i].shapes| == 2
  }

  /** When every turn draws two shapes without failing, the loop draws two shapes per turn. */
  lemma {:induction false} RunLength(es: seq<Emission>, n: nat)
    requires AllPairs(es) && n <= |es|
    ensures Run(es, n).failure.None? && |Run(es, n).shapes| == 2 * n
  {
    if n > 0 {
      RunLength(es, n - 1);
    }
  }

  /**
   * When every turn draws two shapes without failing, the loop draws them in
   * order: shapes `2 * i` and `2 * i + 1` are those of turn `i`.
   */
  lemma {:induction false} RunPairAt(es: seq<Emission>, n: nat, i: nat)
    requires AllPairs(es) && i < n <= |es|
    ensures |Run(es, n).shapes| == 2 * n
    ensures Run(es, n).shapes[2 * i..2 * i + 2] == es[i].shapes
  {
    RunLength(es, n - 1);
    RunLength(es, n);
    PairOfAppend(Run(es, n - 1).shapes, es[n - 1].shapes, i);
    if i < n - 1 {
      RunPairAt(es, n - 1, i);
    }
  }

  /** The `i`-th pair of `a + b`, where `b` is a single pair after `a`. */
  lemma PairOfAppend(a: seq<Shape>, b: seq<Shape>, i: nat)
    requires |a| % 2 == 0 && |b| == 2 && 2 * i < |a| + 2
    ensures (a + b)[2 * i..2 * i + 2] == if 2 * i < |a| then a[2 * i..2 * i + 2] else b
  {
    if 2 * i < |a| {
      assert (a + b)[2 * i..2 * i + 2] == a[2 * i..2 * i + 2];
    } else {
      assert (a + b)[2 * i..2 * i + 2] == b;
    }
  }

  /** Lines 158-180: every operation in the insertion order of `op_to_start`, until the first error. */
  method DrawOps(canvas: Canvas, t: Tables) returns (failure: Option<Error>)
    requires t.start.Listed()
    modifies canvas
    ensures canvas.shapes == old(canvas.shapes) + Run(Emissions(t), |t.start.order|).shapes
    ensures failure == Run(Emissions(t), |t.start.order|).failure
  {
    ghost var before := canvas.shapes;
    ghost var es := Emissions(t);
    for n := 0 to |t.start.order|
      invariant Run(es, n).failure.None?
      invariant canvas.shapes == before + Run(es, n).shapes
    {
      ghost var drawn := canvas.shapes;
      failure := DrawOp(canvas, t, t.start.order[n]);
      RunStep(es, n, drawn, before, canvas.shapes);
      if failure.Some? {
        RunStopsAtFailure(es, n + 1);
        return;
      }
    }
    return None;
  }

  /** The drawing loop ends without error exactly when every operation resolves. */
  lemma OpsSucceed(t: Tables)
    requires t.start.Listed()
    ensures Run(Emissions(t), |t.start.order|).failure.None? <==>
      forall i | 0 <= i < |t.start.order| :: Resolves(t, t.start.order[i])
  {
    var es := Emissions(t);
    RunSucceeds(es, |es|);
    forall i | 0 <= i < |es| ensures es[i].failure.None? <==> Resolves(t, t.start.order[i]) {
      OpSucceeds(t, t.start.order[i]);
    }
  }

  /**
   * When the drawing loop ends without error, it has drawn two shapes per
   * operation in insertion order: shapes `2 * i` and `2 * i + 1` are those of
   * the `i`-th key of `op_to_start`.
   */
  lemma OpsShapes(t: Tables)
    requires t.start.Listed() && Run(Emissions(t), |t.start.order|).failure.None?
    ensures |Run(Emissions(t), |t.start.order|).shapes| == 2 * |t.start.order|
    ensures forall i | 0 <= i < |t.start.order| ::
      Run(Emissions(t), |t.start.order|).shapes[2 * i..2 * i + 2] == OpEmission(t, t.start.order[i]).shapes
  {
    var es := Emissions(t);
    RunSucceeds(es, |es|);
    forall i | 0 <= i < |es| ensures es[i].failure.None? && |es[i].shapes| == 2 {
      OpSucceeds(t, t.start.order[i]);
    }
    assert AllPairs(es);
    RunLength(es, |es|);
    forall i | 0 <= i < |es| ensures Run(es, |es|).shapes[2 * i..2 * i + 2] == OpEmission(t, t.start.order[i]).shapes {
      RunPairAt(es, |es|, i);
    }
  }
}
