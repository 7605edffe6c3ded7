/**
 * The whole of display.py as one run: read the nine tables, compute the
 * scroll extent, open the canvas, draw the grid and then every operation.
 */
module Display {
  import opened Errors
  import opened Dicts
  import opened Fields
  import opened Extractor
  import opened Extent
  import opened Render
  import opened Seqs

  /**
   * What the script leaves on the screen: the scroll width of the canvas when
   * the window opens, the shapes drawn on it, and the error that stops the
   * script, if any.
   */
  datatype Outcome = Outcome(scrollMaxX: Option<int>, shapes: seq<Shape>, failure: Option<Error>)

  /**
   * The script on document `doc`. An error while reading the tables stops it
   * before the window of line 134 opens.
   */
  ghost function Script(doc: Document): Outcome {
    match Extracted(doc)
    case Err(e) => Outcome(None, [], Some(e))
    case Ok(t) => ExtractedStartValid(doc); Show(t)
  }

  /**
   * Lines 124-180 on the tables `t`: an error while computing the extent stops
   * the script before the window opens; otherwise the canvas gets the grid and
   * then the operations.
   */
  ghost function Show(t: Tables): Outcome
    requires t.start.Valid()
  {
    match ExtentOf(t.start, t.duration)
    case Err(e) => Outcome(None, [], Some(e))
    case Ok(x) =>
      t.start.ValidListed();
      var ops := Run(Emissions(t), |t.start.order|);
      Outcome(Some(x), Grid() + ops.shapes, ops.failure)
  }

  /** Lines 12-180: extraction, extent, canvas, grid and operations, in that order. */
  method Execute(doc: Document) returns (o: Outcome)
    ensures o == Script(doc)
  {
    var extracted := Extract(doc);
    if extracted.Err? {
      return Outcome(None, [], Some(extracted.error));
    }
    ExtractedStartValid(doc);
    o := ExecuteOn(extracted.value);
  }

  /** Lines 124-180: extent, canvas, grid and operations. */
  method ExecuteOn(t: Tables) returns (o: Outcome)
    requires t.start.Valid()
    ensures o == Show(t)
  {
    var extent := ScrollExtent(t.start, t.duration);
    if extent.Err? {
      return Outcome(None, [], Some(extent.error));
    }
    t.start.ValidListed();
    var canvas := new Canvas(extent.value);
    DrawGrid(canvas);
    EmptyConcat(Grid());
    var failure := DrawOps(canvas, t);
    return Outcome(Some(canvas.scrollMaxX), canvas.shapes, failure);
  }

  /**
   * Once the tables are read, the script runs to the end exactly when the
   * latest operation has a duration and everything each operation looks up
   * is there.
   */
  lemma ShowSucceeds(t: Tables)
    requires t.start.Valid()
    ensures Show(t).failure.None? <==>
      && ExtentOf(t.start, t.duration).Ok?
      && forall i | 0 <= i < |t.start.order| :: Resolves(t, t.start.order[i])
  {
    t.start.ValidListed();
    OpsSucceed(t);
  }

  /** The script runs to the end exactly when every row of every field can be read and the drawing succeeds. */
  lemma ScriptSucceeds(doc: Document)
    ensures Script(doc).failure.None? <==> Readable(doc) && (ExtractedOk(doc); ExtractedStartValid(doc); Show(Extracted(doc).value).failure.None?)
  {
    ExtractedOk(doc);
  }

  /** A script that stops before the window opens has drawn nothing, and one that opens it draws the grid. */
  lemma NothingBeforeWindow(t: Tables)
    requires t.start.Valid()
    ensures Show(t).scrollMaxX.None? <==> Show(t).shapes == [] && Show(t).failure.Some?
  {
    GridCount();
  }

  /**
   * Once the tables are read and the drawing runs to the end, the canvas
   * scrolls to the extent of the latest bar and holds the 440 shapes of the
   * grid and then two shapes per operation, in the insertion order of
   * `op_to_start`.
   */
  lemma ShowShapes(t: Tables)
    requires t.start.Valid() && Show(t).failure.None?
    ensures ExtentOf(t.start, t.duration).Ok? && Show(t).scrollMaxX == Some(ExtentOf(t.start, t.duration).value)
    ensures |Show(t).shapes| == 440 + 2 * |t.start.order|
    ensures Show(t).shapes[..440] == Grid()
    ensures forall i | 0 <= i < |t.start.order| ::
      Show(t).shapes[440 + 2 * i..442 + 2 * i] == OpEmission(t, t.start.order[i]).shapes
  {
    t.start.ValidListed();
    var grid, ops := Grid(), Run(Emissions(t), |t.start.order|).shapes;
    assert Show(t).shapes == grid + ops;
    assert |grid| == 440 by {
      GridAt(0, 0);
    }
    OpsShapes(t);
    SliceAfter(grid, ops, 0, 0);
    forall i | 0 <= i < |t.start.order|
      ensures Show(t).shapes[440 + 2 * i..442 + 2 * i] == OpEmission(t, t.start.order[i]).shapes
    {
      ShowOp(t, i);
    }
  }

  /** The two shapes of operation `i` follow the grid and the operations before it. */
  lemma ShowOp(t: Tables, i: nat)
    requires t.start.Valid() && Show(t).failure.None? && i < |t.start.order|
    ensures |Show(t).shapes| >= 442 + 2 * i
    ensures Show(t).shapes[440 + 2 * i..442 + 2 * i] == OpEmission(t, t.start.order[i]).shapes
  {
    t.start.ValidListed();
    var grid, ops := Grid(), Run(Emissions(t), |t.start.order|).shapes;
    assert Show(t).shapes == grid + ops;
    assert |grid| == 440 by {
      GridAt(0, 0);
    }
    OpsShapes(t);
    SliceAfter(grid, ops, 2 * i, 2 * i + 2);
  }
}
