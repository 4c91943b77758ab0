# KLayout label macros: a verified model

The repository holds four Ruby macros for the KLayout layout editor. They put
text labels onto a wafer layout. This project models their two algorithms in Dafny:

- **Array text placer.** `insert_text_instances` creates one "TEXT" library cell for a
  text, magnification and layer. It then appends one instance of that cell to the top
  cell for every point of a `rows x columns` grid. The grid point of row `r` and
  column `c` is `origin + c*column_vector - r*row_vector`, so the row term is
  subtracted. Rows form the outer loop and columns the inner one. The three
  coordinate scripts (`coord_script_0.rb`, `_4`, `_8`) each carry an identical copy
  of this function and drive it from a literal parameter table. The model has one
  shared copy (`TextArray`) and one module per script for its table (`CoordScript0`,
  `CoordScript4`, `CoordScript8`).
- **Scan, sort and serial labeller** (`marker_script.rb`). It collects the
  displacement of every placement of the `sample_7x7` cell in the top cell, including
  every element of an arrayed instance. It sorts the list by `(y, x)` and then walks
  it with a counter that starts at 1. For each point it creates a text cell
  `"AGK%03d" % sn` and inserts it at the point plus a fixed offset
  (`MarkerScript`, with the formatter in `SerialFormat`).

`LayoutDb` is the part of the host database the macros touch. `Layout` is a class
with the cell table (`cells`) and the top cell's instance list (`top`). Its two
methods model `create_cell` (a fresh cell index) and `insert` (append). Every
operation of the macros is a method that changes these fields in place. Each one is
proved equal to a specification function of the old state, and the properties are
proved as lemmas about those functions.

Distances are integers in database grid units. In the scripts, the micrometre
literals are divided by `dbu`. The model writes each table as a function of `g`, the
number of grid units in 0.01 um (for example, `g = 10` when `dbu` is 0.001 um). Every
literal has at most two decimals, so it becomes an exact multiple of `g`. For
example, `sn_x: 1501.7000` becomes `150170 * g`, and the step `200 / ly.dbu` becomes
`20000 * g`.

Negative row or column counts are not rejected. Ruby's `0...n` is simply empty for
them, so the call still creates its text cell and appends nothing. The model follows
the code here (`TextArray.Count`) and raises no error for malformed dimensions.

## Model

| member | source | states |
|---|---|---|
| `LayoutDb.Layout.CreateTextCell` | coord_script_8.rb:29 | the new text cell gets the next free index and records its text, magnification and layer; no other cell changes |
| `LayoutDb.Layout.Insert` | coord_script_8.rb:37 | the instance goes at the end of the top cell's list; instances already there are unchanged |
| `TextArray.InsertTextInstances` | coord_script_8.rb:17-40 | one call adds exactly one text cell. It appends, in row-major order, one single instance of that cell per grid point. Earlier instances and cells are unchanged |
| `TextArray.ArrayPositionsCount` | coord_script_8.rb:32-33 | one call places exactly `rows*columns` points; a zero or negative dimension places none |
| `TextArray.ArrayPositionAt` | coord_script_8.rb:32-35 | the point at index `r*columns + c` is `origin + c*column_vector - r*row_vector` (row-major order, row term subtracted) |
| `TextArray.ArrayStartsAtOrigin` | coord_script_0.rb:18-19 | the `(0,0)` instance sits exactly at the converted origin |
| `TextArray.VerticalStrip` | coord_script_8.rb:34-35 | with one column and row vector `(0, s)`, every label has the origin's x and row `r` has `y = origin.y - s*r` |
| `TextArray.HorizontalBar` | coord_script_0.rb:34-35 | with one row and column vector `(s, 0)`, every label has the origin's y and column `c` has `x = origin.x + s*c` |
| `TextArray.ZeroRowVectorRepeatsRow` | coord_script_4.rb:34-35 | with a zero row vector every row repeats the first row point for point |
| `TextArray.InsertTable` | coord_script_0.rb:71-73 | the table loop creates one text cell per entry, all with the same style. It appends the entries' instances in table order, each entry row-major and using its own cell |
| `TextArray.TablePlacementsCount` | coord_script_8.rb:78-80 | a table appends the sum over its entries of `rows*columns` instances |
| `TextArray.TablePlacementsCells` | coord_script_8.rb:78-80 | every instance a table appends is a single placement of one of the cells created for that table |
| `CoordScript8.TableAppends90` | coord_script_8.rb:43-71 | the table has 18 entries (nine 1x5 and nine 5x1) and appends 90 instances |
| `CoordScript8.FirstStripDescends` | coord_script_8.rb:45 | the first entry's five labels share x and step down 200 um in y per row |
| `CoordScript8.Run` | coord_script_8.rb:73-80 | the script adds 18 text cells of text "8", magnification 10 and layer 1/0. It appends 90 instances, and every one of them refers to one of those cells |
| `CoordScript0.TableAppends63` | coord_script_0.rb:43-64 | the table has 15 entries (nine 1x5 and six 3x1) and appends 9*5 + 6*3 = 63 instances |
| `CoordScript0.FirstBarSteps` | coord_script_0.rb:56 | the first bar's three labels share y and step 300 um in x per column |
| `CoordScript0.Run` | coord_script_0.rb:66-73 | the script adds 15 text cells (one per entry) of text "0", magnification 10 and layer 1/0. It appends 63 instances, all of them referring to those cells |
| `CoordScript4.TableAppends108` | coord_script_4.rb:43-62 | the table has 12 entries (three 1x21 and nine 5x1) and appends 3*21 + 9*5 = 108 instances |
| `CoordScript4.FirstStripDescends` | coord_script_4.rb:44 | the first entry's 21 labels share x and have `y = abs_y - r * 200 um` for `r = 0..20` |
| `CoordScript4.Run` | coord_script_4.rb:64-71 | the script adds 12 text cells of text "4", magnification 10 and layer 1/0. It appends 108 instances, all of them referring to those cells |
| `SerialFormat.ZeroPadKeepsValue` | marker_script.rb:42 | zero padding gives exactly the requested width, or leaves a longer string at its own length. It adds only digits and keeps the numeric value |
| `SerialFormat.Pad3RoundTrip` | marker_script.rb:42 | `"%03d" % n` is all digits and reads back as `n`. It is exactly three digits long exactly when `n < 1000`; when it is longer it has no leading zero |
| `SerialFormat.SerialRoundTrip` | marker_script.rb:53 | `"AGK%03d" % n` is parsed back to `n` by the inverse reader `ParseSerial` |
| `SerialFormat.SerialTextInjective` | marker_script.rb:53 | different serial numbers give different texts |
| `SerialFormat.SerialTextExamples` | marker_script.rb:42 | 1 gives "AGK001", 42 gives "AGK042", 123 gives "AGK123", and 1000 gives "AGK1000" |
| `MarkerScript.CollectCoordinates` | marker_script.rb:19-32 | the scan returns the displacements of all placements of matching instances, instance by instance and then placement by placement; it changes nothing |
| `MarkerScript.CollectedMembership` | marker_script.rb:25-29 | a point is collected exactly when some instance of a cell named exactly "sample_7x7" places it |
| `MarkerScript.CollectedAppend` | marker_script.rb:22-32 | scanning two runs of instances gives the first run's points followed by the second's. Every placement contributes one point and duplicates are kept |
| `MarkerScript.CollectedNone` | marker_script.rb:25 | if no instance refers to "sample_7x7", nothing is collected |
| `MarkerScript.CollectedPermuted` | marker_script.rb:22-32 | reordering the top cell's instances (the `each_inst` order) leaves the multiset of collected points unchanged |
| `MarkerScript.CollectedPlacementsPermuted` | marker_script.rb:27-29 | reordering the placements inside instances (the `each_trans` order) leaves the multiset of collected points unchanged |
| `MarkerScript.ScanOrderIrrelevant` | marker_script.rb:22-35 | the sorted coordinate list, and so the labels, is the same whatever the order of the top cell's instances and of the placements inside them |
| `MarkerScript.SortYXCorrect` | marker_script.rb:35 | the reference sort returns a list that is ascending by `(y, x)` and has the same multiset as its input |
| `MarkerScript.SortedUnique` | marker_script.rb:35 | two ascending permutations of the same list are equal, so the sort's stability cannot change the result |
| `MarkerScript.SortYXOrderIndependent` | marker_script.rb:35 | the sorted list depends only on the multiset of the collected points, not on their order |
| `MarkerScript.SortYXExample` | marker_script.rb:35 | the points (5,2), (1,2), (1,1) sort to (1,1), (1,2), (5,2) |
| `MarkerScript.SortInPlace` | marker_script.rb:35 | the in-place sort leaves the array ascending by `(y, x)` and a permutation of its old contents, equal to the reference sort |
| `MarkerScript.SerialCellsNumbered` | marker_script.rb:53-64 | the k-th label (counting from 0) reads back as serial `k+1`, and no two labels of one run share a text |
| `MarkerScript.LabelCoordinates` | marker_script.rb:43-65 | for each point in order, the loop adds the text cell with serial `k+1` and one instance of it at the point plus the offset. The counter ends at `|points| + 1`, so it stays at 1 when there is nothing to label |
| `MarkerScript.Run` | marker_script.rb:19-65 | the whole script appends one label per collected coordinate, in `(y, x)` order, with serials 1, 2, ... at the coordinate plus (2500 um, 6300 um). The counter ends at one more than the number of labels |

## Left out

- The active layout and its top cell (`RBA::CellView.active`) are not looked up. The layout is passed to every operation as a parameter.
- `create_cell("TEXT", "Basic", ...)` is modelled as a fresh cell index that records its text, magnification and layer. The text geometry is not modelled. The host may cache or deduplicate identical text cells; the model does not, and gives every call its own cell.
- A text cell's name is taken to be its library cell's name, "TEXT". What matters for the scan is only that it is never "sample_7x7".
- The floating-point `/ ly.dbu` conversions and KLayout's rounding of them to integer vectors are not modelled. Origins, steps and offsets are exact integers in grid units, with the table literals scaled by `g`. A database unit that does not divide 0.01 um is not covered.
- The magnification and `RBA::LayerInfo` are carried through unchanged. The magnification is a `real` (10 in the coordinate scripts, 600.0 in the marker script).
- The model does not expand a regular KLayout instance array (its a/b vectors and counts) into placements. An instance is given directly as the list of displacements that `each_trans` yields, and a single instance is a one-element list.
- The model scans the top cell in list order and each instance's placements in list order. KLayout's own `each_inst` and `each_trans` orders are not modelled. `ScanOrderIrrelevant` shows that the labels do not depend on either order.
- Stability of Ruby's `sort_by!` is not modelled. `SortedUnique` shows that it cannot affect the result.
- Coordinates are unbounded integers. KLayout stores `Vector` and `Trans` coordinates as 32-bit integers, and positions outside that range are not modelled. The scripts' own tables stay far inside it.
- Persistence of the design file, rendering and viewer refresh are not modelled.
- The comments saying "2" at coord_script_8.rb:42 and coord_script_4.rb:42 describe nothing the code does.
