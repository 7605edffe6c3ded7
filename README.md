# Schedule display, modelled in Dafny

`display.py` reads a solution that the Alloy analyser found for a prefetch
scheduling problem and draws it as a Gantt-like chart. The model covers the
deterministic part of the script in three stages.

- **Extraction.** Nine loops (lines 12-118) turn the tuples of nine fields
  into dicts.
  - `deadline`, `start` and `duration` map the first atom to `int()` of the
    second.
  - `ops` maps the *second* atom to the `$`-suffix of the *first*.
  - `cb`, `ms`, `pspr` and `sched` map the first atom to the `$`-suffix of
    the second.
  - `cbs` appends each block suffix to a per-operation list.
- **Extent.** An argmax loop over `op_to_start` (lines 127-131) finds the
  latest start. The scroll region is then
  `(max_start + op_to_duration[max_i]) * 100 + 100` wide (line 132).
- **Drawing.** The script draws a fixed grid of 40 numbered slots with 10 cells
  each (lines 153-156). Then, for every operation in the insertion order of
  `op_to_start`, it draws:
  - a coloured bar and a label, for load (`L`) and functional (`F`)
    operations;
  - a coloured triangle and a label, for unload (`U`) operations
    (lines 158-180).

The model follows the script's imperative shape:

- every extraction loop, the argmax loop and the drawing loops are `method`s
  with loop invariants;
- the Tk canvas is a `class` whose `shapes` field the drawing methods append
  to;
- each method is proved equal to a ghost specification function of its
  inputs, and the properties the script relies on are lemmas about those
  functions.

A Python dict is a `Dicts.Dict`: a map together with its keys in insertion
order. That order decides both the argmax tie-break and the drawing order.
Each exception the script can raise is an `Errors.Error` value:

- `MalformedRecord`: too few atoms in a tuple;
- `MalformedNumber`: `int()` rejects a label;
- `MalformedIndex`: a label without `$`, or a segment `int()` rejects;
- `NoMaximum`: `max_i` is never bound;
- `DanglingReference`: a missing dict key;
- `UnhandledKind`: an op id with no colour.

The first exception stops the script. `Display.Execute` returns, for a
document, the scroll width (if the window opened), the shapes drawn and the
error, if any.

Files:

- `errors.dfy`: `Option`, `Result` and `Error`.
- `seqs.dfy`: generic facts about slicing sequences.
- `labels.dfy`: `split('$')[1]`, `int()` and `str()`.
- `dicts.dfy`: the ordered dict, plus what a last-write-wins loop and an
  appending loop build from a sequence of pairs.
- `fields.dfy`: row decoding and the two kinds of extraction loop.
- `extractor.dfy`: the nine tables.
- `extent.dfy`: the argmax and the scroll extent.
- `render.dfy`: the canvas, the grid and the drawing of each operation.
- `display.dfy`: the whole script.

Where the main contracts are proved:

- **Extraction.** `Fields.ExtractTable` and `Fields.ExtractBlockLists` are
  proved against `TableOf` and `ListTableOf`. `Extractor.Extract` composes the
  nine loops.
- **Extent.** `Extent.Argmax` is proved against `Peak`, and
  `Extent.PeakIsFirstMaximum` says what `Peak` is.
- **Drawing.** `Render.DrawGrid` and `Render.DrawOps` are proved against
  `Grid` and `Run`.
- **The whole script.** `Display.ShowShapes` and `Display.ScriptSucceeds` state
  the end-to-end result.

## Model

| member | source | states |
|---|---|---|
| `Dicts.PutValid` | display.py:18 | `d[k] = v` keeps every key listed exactly once in the insertion order |
| `Dicts.Empty` | display.py:12 | `dict()` has no entries and is well formed |
| `Dicts.BuildSnoc` | display.py:14-18 | one more row's `d[k] = v` is one more `Put` on the dict built so far |
| `Dicts.BuildValid` | display.py:14-18 | the dict a last-write-wins loop builds lists each key exactly once |
| `Dicts.BuildKeys` | display.py:14-18 | the keys of the built dict are exactly the keys of the pairs |
| `Dicts.BuildLastWriteWins` | display.py:18 | a key holds the value of the last pair with that key |
| `Dicts.FirstIndex` | display.py:14-18 | the position of the first pair with a key: no earlier pair has it, and the one there does |
| `Dicts.BuildKeyOrder` | display.py:14-18 | the dict lists its keys in the order of their first occurrence |
| `Dicts.Append` | display.py:80-82 | appending to one key's list leaves every existing key present, with its list extended or unchanged |
| `Dicts.AppendInTwoSteps` | display.py:80-82 | creating the empty list when the key is new and then appending equals one `Append` |
| `Dicts.BuildListsSnoc` | display.py:76-82 | one more `cbs` row appends its block to its operation's list |
| `Dicts.BuildListsKeys` | display.py:80-81 | the appending loop yields the same keys, in the same order, as a last-write-wins loop over the same pairs |
| `Dicts.BuildListsValues` | display.py:82 | each key's list holds the values of that key's pairs, in their order |
| `Dicts.BuildListsLength` | display.py:82 | each key's list has one entry per pair with that key |
| `Dicts.BuildListsExtends` | display.py:80-82 | later pairs only extend a key's list; its earlier entries are kept as a prefix |
| `Labels.IndexOfFirst` | display.py:40 | the search for `$` reports none exactly when there is none, and otherwise the first occurrence |
| `Labels.SegmentShape` | display.py:40 | `split('$')[1]` exists exactly when the label holds a `$`, and holds no `$` itself |
| `Labels.SegmentOfJoined` | display.py:65 | `prefix$segment`, possibly followed by more `$` parts, splits back into `segment` |
| `Labels.NatToStringValue` | display.py:154 | `str(n)` of a natural number is a numeral without leading zeros whose value is `n` |
| `Labels.IntToStringRoundTrip` | display.py:166 | `int(str(n)) == n`, and `str(n)` holds no `$` |
| `Labels.SuffixError` | display.py:40 | suffix parsing fails on a label without `$`, and its only error names the label |
| `Labels.SuffixOfJoined` | display.py:65 | the suffix of `prefix$n` is `n` |
| `Labels.ListToStringExample` | display.py:172 | `str([4, -9])` is `"[4, -9]"`: each item in decimal, separated by a comma and a space, in brackets |
| `Fields.DecodeRowMeaning` | display.py:15-17 | a tuple reads exactly when it has at least two atoms and its value atom parses, and then to its key atom and that value. Otherwise the error is the value atom's, or a malformed record |
| `Fields.PlainRow` | display.py:27-29 | the tuple `(op, str(n))` of a plain field maps `op` to `n` |
| `Fields.KeyedRow` | display.py:63-65 | the tuple `(key, prefix$n)` of a suffix field maps `key` to `n` |
| `Fields.SwappedRow` | display.py:39-41 | the `ops` tuple `(prefix$n, op)` maps the second atom `op` to `n` |
| `Fields.SuffixRowWithoutDollar` | display.py:79 | a suffix field's value atom without `$` stops the loop with that atom's error |
| `Fields.DecodeAll` | display.py:14-18 | the pairs read from a field number one per row |
| `Fields.TableOfValid` | display.py:24-30 | a table a loop builds lists each key once, with an entry |
| `Fields.ExtractTable` | display.py:24-30 | the last-write-wins loop returns the dict of the rows' pairs, or the first row's error |
| `Fields.ExtractBlockLists` | display.py:74-82 | the `cbs` loop returns the dict of per-operation block lists, or the first row's error |
| `Fields.TableStep` | display.py:26-30 | one turn of a last-write-wins loop either `Put`s the row's pair or ends the loop with that row's error |
| `Fields.ListTableStep` | display.py:76-82 | one turn of the `cbs` loop either appends the row's block or ends the loop with that row's error |
| `Fields.DecodeAllStep` | display.py:26-29 | reading one more row extends the pairs with that row's pair, or gives that row's error |
| `Fields.DecodeAllSnoc` | display.py:26-29 | a readable row appended to readable rows appends its pair |
| `Fields.DecodeStopsAtError` | display.py:38-42 | once a row fails, the whole field fails with that error: the loop aborts and does not skip the row |
| `Fields.DecodeAllWhenRowsOk` | display.py:50-54 | a field whose every row is readable is read in full |
| `Fields.DecodeAllOk` | display.py:50-54 | a field is read exactly when each of its rows is readable |
| `Fields.DecodeAllPair` | display.py:50-54 | pair `i` is the key atom and parsed value of row `i` |
| `Fields.DecodePrefix` | display.py:76-79 | the pairs of the first `n` rows are the first `n` pairs |
| `Fields.DecodeFirstError` | display.py:62-66 | a field fails with the error of its first unreadable row |
| `Fields.TableKeys` | display.py:24-30 | the keys of a table are exactly the key atoms of its rows |
| `Fields.TableLastWriteWins` | display.py:24-30 | each key holds the value of the last row with that key |
| `Fields.TableKeyOrder` | display.py:24-30 | of two keys of a table, the one listed first occurs in a row before the other's first row |
| `Fields.BlockListsInDocumentOrder` | display.py:76-82 | an operation's `cbs` list is its blocks' suffixes in document order |
| `Fields.BlockListLength` | display.py:76-82 | an operation's `cbs` list has one block per row of that operation |
| `Fields.BlockListsOnlyGrow` | display.py:80-82 | the list after the first `n` rows is a prefix of the final list, so no block is overwritten |
| `Extractor.Extract` | display.py:12-118 | the nine loops in the script's order give the nine tables, or the first field's error |
| `Extractor.TableOfOk` | display.py:100-106 | one field's loop succeeds exactly when every row of that field is readable |
| `Extractor.ExtractedOk` | display.py:12-118 | extraction succeeds exactly when every row of every field is readable |
| `Extractor.ExtractedStartValid` | display.py:24-30 | the `op_to_start` that extraction yields lists each operation once, with its start |
| `Extractor.EmptyDocument` | display.py:12-118 | a document without any of the nine fields gives nine empty dicts |
| `Extractor.RepeatedBlockRows` | display.py:76-79 | two `cbs` tuples for one operation read as two pairs, in document order |
| `Extractor.DecodeTwoRows` | display.py:76-79 | two rows that each read give their two pairs in order |
| `Extractor.RepeatedBlockLists` | display.py:80-82 | appending `a` and then `b` for one operation gives the single list `[a, b]` |
| `Extractor.RepeatedBlocks` | display.py:76-82 | two `cbs` tuples for one operation give one list holding both blocks in order |
| `Extractor.BlockListExample` | display.py:76-82 | the tuples `(F$1, blk$4)` and `(F$1, blk$9)` give `{'F$1': [4, 9]}` |
| `Extractor.MalformedDeadlineExample` | display.py:17 | a non-numeric deadline stops the script with that label's error |
| `Extent.Peak` | display.py:127-131 | the position the argmax settles on lies among the keys seen so far |
| `Extent.Argmax` | display.py:127-131 | the loop's `max_i` and `max_start` are those of `Peak` over all keys in insertion order |
| `Extent.PeakIsFirstMaximum` | display.py:127-131 | `max_start` is at least -1 and bounds every start. `max_i` is unbound exactly when `max_start` is -1. Otherwise `max_i` holds `max_start` and is the first key to reach it |
| `Extent.ArgmaxOfNonNegative` | display.py:127-131 | on a non-empty table of non-negative starts, `max_i` is bound to a key holding the maximum start |
| `Extent.ScrollExtent` | display.py:130-132 | the extent is `(max_start + op_to_duration[max_i]) * 100 + 100`. It fails when `max_i` is unbound or has no duration |
| `Extent.ExtentIsLatestBar` | display.py:132 | the extent is the right edge of the bar of the first latest-starting operation, which lies right of every operation's left edge when its duration is non-negative |
| `Extent.ExtentWithoutMaximum` | display.py:127-132 | the extent fails with `NoMaximum` exactly when no start exceeds -1 |
| `Extent.ExtentExample` | display.py:124-132 | starts 0, 2, 5 with durations 1 give a 700-wide scroll region |
| `Extent.TieExample` | display.py:129 | a tie goes to the first key in insertion order |
| `Extent.UnloadLastExample` | display.py:132 | when an unload operation starts last, the script stops at the extent, because unloads have no duration |
| `Render.Canvas.constructor` | display.py:139 | a new canvas has the given scroll width and no shapes |
| `Render.Canvas.CreateText` | display.py:154 | `create_text` appends one text and changes nothing else |
| `Render.Canvas.CreateRectangle` | display.py:156 | `create_rectangle` appends one rectangle and changes nothing else |
| `Render.Canvas.CreatePolygon` | display.py:179 | `create_polygon` appends one polygon and changes nothing else |
| `Render.DrawGrid` | display.py:153-156 | the grid loops append exactly `Grid()` to the canvas |
| `Render.DrawSlots` | display.py:153-156 | the outer loop over the first `n` slots appends their numbers and cells in order |
| `Render.DrawCells` | display.py:155-156 | the inner loop appends the ten cells of one slot, top to bottom |
| `Render.GridAt` | display.py:153-156 | the grid has 440 shapes. Shape `11 * i` is the number of slot `i` and the next ten are its cells |
| `Render.GridCount` | display.py:153-156 | the grid is exactly 40 number texts and 400 cells, and no polygon |
| `Render.GridGeometry` | display.py:154-156 | each cell is one slot wide and 20 high, rows are 50 apart, columns abut, and each number reads as its slot index and is centred above its slot's left edge |
| `Render.DrawOp` | display.py:159-180 | drawing one operation appends exactly `OpEmission`'s shapes and reports its error |
| `Render.DrawLoad` | display.py:165-169 | a load operation draws its bar and then its label, failing where a lookup fails |
| `Render.DrawFunctional` | display.py:171-175 | a functional operation draws its bar and its label, failing where a lookup fails |
| `Render.DrawUnload` | display.py:177-180 | an unload operation draws its triangle and its label, failing where a lookup fails |
| `Render.OpSucceeds` | display.py:159-180 | an operation draws without error exactly when everything it looks up is there, and then draws two shapes |
| `Render.UnknownKindDrawsNothing` | display.py:159-160 | an operation whose first character has no colour fails before drawing anything |
| `Render.ColourByKind` | display.py:149-160 | every filled shape of an operation has the palette colour of its first character |
| `Render.BarGeometry` | display.py:161-175 | a load or functional bar starts at `(100 + start * 100, 100 + schedule * 100)`, is `duration * 100` wide and 20 high, and its label is half a slot in, centred vertically, wrapped at the bar's width |
| `Render.TriangleGeometry` | display.py:177-180 | an unload operation is the triangle `(x, y)`, `(x - 5, y - 10)`, `(x + 5, y - 10)` with its label at `(x, y - 20)` |
| `Render.LabelText` | display.py:166-178 | the label of operation `prefix$n` is its kind letter, `n`, and its block decoration in brackets. A load label then ends with `/` and its pspr (line 169) |
| `Render.Emissions` | display.py:158 | there is one emission per key of `op_to_start` |
| `Render.RunStep` | display.py:158-180 | one more turn without earlier failure appends that operation's shapes |
| `Render.RunStopsAtFailure` | display.py:158-180 | once an operation fails, nothing more is drawn and that error is the result |
| `Render.RunSucceeds` | display.py:158-180 | the drawing loop ends without error exactly when no operation fails |
| `Render.RunLength` | display.py:158-180 | when every operation draws two shapes, the loop draws two per operation |
| `Render.RunPairAt` | display.py:158-180 | shapes `2i` and `2i+1` of the loop are those of operation `i` |
| `Render.DrawOps` | display.py:158-180 | the drawing loop appends the shapes of every operation in insertion order until the first error, and reports that error |
| `Render.OpsSucceed` | display.py:158-180 | the drawing loop ends without error exactly when every operation resolves |
| `Render.OpsShapes` | display.py:158-180 | a successful drawing loop draws two shapes per operation, in insertion order |
| `Labels.Segment` | display.py:40 | `label.split('$')[1]`: the text after the first `$`, up to the next `$` or the end; none when there is no `$` (properties in `SegmentShape` and `SegmentOfJoined`) |
| `Labels.ParseInt` | display.py:17 | `int(label)` for an optional `-` and decimal digits, and no value otherwise (round trip in `IntToStringRoundTrip`) |
| `Labels.Suffix` | display.py:40 | `int(label.split('$')[1])`, failing with the label when either step fails (properties in `SuffixError` and `SuffixOfJoined`) |
| `Labels.IntToString` | display.py:154 | `str(n)`: a minus sign for negatives, then the decimal digits without leading zeros (properties in `NatToStringValue` and `IntToStringRoundTrip`) |
| `Labels.ListToString` | display.py:172 | `str()` of a list of integers: the items in decimal, separated by `", "`, in brackets |
| `Dicts.Dict.Put` | display.py:18 | `d[k] = v`: a new key goes last, an existing key keeps its place and takes the new value (properties in `PutValid` and `BuildKeyOrder`) |
| `Fields.DecodeRow` | display.py:15-17 | one loop body on one tuple, reading the atoms in the script's order, so the `ops` loop parses the suffix of `atoms[0]` before it reads `atoms[1]` (lines 39-41; properties in `DecodeRowMeaning`) |
| `Render.Palette` | display.py:149 | `optype_to_color`: `F` is lightblue, `L` pink, `U` lightgreen, and any other kind has no colour |
| `Render.OpEmission` | display.py:159-180 | what one operation draws and its error, checked in the script's order: colour, schedule, `split('$')[1]`, then the kind's own lookups (properties in `OpSucceeds`, `ColourByKind`, `BarGeometry`, `TriangleGeometry`, `LabelText`) |
| `Render.LoadEmission` | display.py:165-169 | a load looks up its block and duration, draws its bar, and only then looks up its pspr, so a missing pspr leaves the bar drawn |
| `Render.FunctionalEmission` | display.py:171-175 | a functional operation looks up its block list and duration, then draws its bar and its label |
| `Render.UnloadEmission` | display.py:177-180 | an unload looks up its block, then draws its triangle and its label |
| `Extent.ExtentOf` | display.py:132 | `(max_start + op_to_duration[max_i]) * k_ss + k_ss`, failing when `max_i` is unbound or has no duration (properties in `ExtentIsLatestBar` and `ExtentWithoutMaximum`) |
| `Display.Execute` | display.py:12-180 | the script's outcome is `Script(doc)`, whose parts are extraction, extent, grid and operations, in order |
| `Display.ExecuteOn` | display.py:124-180 | after extraction, the script computes the extent and then draws the grid and the operations on a canvas that scrolls to that extent |
| `Display.ShowSucceeds` | display.py:124-180 | after extraction, the script runs to the end exactly when the extent exists and every operation resolves |
| `Display.ScriptSucceeds` | display.py:12-180 | the script runs to the end exactly when every row of every field is readable and the drawing then succeeds |
| `Display.NothingBeforeWindow` | display.py:132-139 | the window opens unless the script stopped, and a script stopped before the window has drawn nothing |
| `Display.ShowShapes` | display.py:139-180 | a script that runs to the end scrolls to the extent and shows the 440 grid shapes, then two shapes per operation in insertion order |
| `Display.ShowOp` | display.py:158-180 | the two shapes of operation `i` follow the grid and the shapes of the operations before it |

## Left out

- The Tk window, frame, scroll bars, title, geometry and event loop
  (lines 134-147 and 182). The canvas keeps only its scroll width, the third
  coordinate of `scrollregion`, and the shapes created on it. Nothing is
  rendered.
- XML parsing (lines 8-9) and the `findall` queries. The document is given as
  a map from field label to the rows of atom labels in document order; a
  missing field has no rows. If several `field` elements share a label, their
  tuples are taken to be concatenated. An atom without a `label` attribute is
  not modelled.
- The diagnostic `print` calls. They only write to standard output.
- The `fill="black"`, `font` and `anchor` arguments of `create_text`. A text
  keeps its position, its string and its `width=` wrap.
- The canvas background, its size and the grid cells' default outline.
- Labels.ParseInt: is weaker than Python's `int()`. It accepts an optional `-`
  followed by ASCII decimal digits. It rejects what `int()` also accepts:
  surrounding whitespace, a leading `+`, `_` separators and non-ASCII Unicode
  decimal digits such as `int('٣') == 3`.
- Render.FunctionalEmission: the label's x-coordinate uses the integer 50 for
  `k_ss/2` (line 175). In Python this is the float 50.0, the same position.
- `op[0]` on an empty op id raises IndexError in the script. The model reports
  it as `UnhandledKind`, like a first character without a colour.
- The `deadline`, `ms` and `sched` tables are extracted, with their errors, but
  nothing reads them. The script never uses them for drawing either.
- Integers are unbounded. Python's are too, so no wrap-around is needed.
