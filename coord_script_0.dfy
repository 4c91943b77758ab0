/** coord_script_0.rb: places the digit "0" with `insert_text_instances`
    driven by a fifteen-entry parameter table. Distances are in grid units:
    `g` is the number of grid units in 0.01 um (10 for a 0.001 um database unit). */
module CoordScript0 {
  import opened LayoutDb
  import opened TextArray

  /** A one-column, five-row entry stepping 200 um per row. */
  function Strip(x: int, y: int, g: nat): ArraySpec {
    ArraySpec(Point(x * g, y * g), 1, 5, Point(0, 0), Point(0, 20000 * g))
  }

  /** A three-column, one-row entry stepping 300 um per column. */
  function Bar(x: int, y: int, g: nat): ArraySpec {
    ArraySpec(Point(x * g, y * g), 3, 1, Point(30000 * g, 0), Point(0, 0))
  }

  /** The nine strips of the table, in table order. */
  function Strips(g: nat): seq<ArraySpec> {
    [ Strip(150170, 534153, g), Strip(150170, 394153, g), Strip(150170, 254153, g),
      Strip(290170, 534153, g), Strip(290170, 394153, g), Strip(290170, 254153, g),
      Strip(430170, 534153, g), Strip(430170, 394153, g), Strip(430170, 254153, g) ]
  }

  /** The six bars of the table, in table order. */
  function Bars(g: nat): seq<ArraySpec> {
    [ Bar(179370, 555153, g), Bar(319370, 555153, g), Bar(459370, 555153, g),
      Bar(179370, 415153, g), Bar(319370, 415153, g), Bar(459370, 415153, g) ]
  }

  /** `insert_params`. */
  function Table(g: nat): seq<ArraySpec> {
    Strips(g) + Bars(g)
  }

  /** Text "0", magnification 10, layer 1/0. */
  function Style(): LabelStyle {
    LabelStyle("0", 10.0, LayerInfo(1, 0))
  }

  /** Nine 1x5 entries and six 3x1 entries: 9*5 + 6*3 = 63 instances. */
  lemma TableAppends63(g: nat)
    ensures |Table(g)| == 15
    ensures TableSize(Table(g)) == 63
  {
    TableSizeAppend(Strips(g), Bars(g));
    TableSizeUniform(Strips(g), 5, 1);
    TableSizeUniform(Bars(g), 1, 3);
  }

  /** The first bar (zero row vector, three columns) steps 300 um in x on a constant y. */
  lemma FirstBarSteps(g: nat, c: nat)
    requires c < 3
    ensures c < |ArrayPositions(Table(g)[9])|
    ensures ArrayPositions(Table(g)[9])[c] == Point(179370 * g + 30000 * g * c, 555153 * g)
  {
    HorizontalBar(Table(g)[9], c);
  }

  /** The whole script: one text cell per entry (15), then 63 single instances
      of them appended to the top cell, entry by entry in table order. */
  method Run(ly: Layout, g: nat)
    requires ly.Valid()
    modifies ly
    ensures ly.Valid()
    ensures ly.cells == old(ly.cells) + seq(15, _ => TextLabel(Style()))
    ensures ly.top == old(ly.top) + TablePlacements(|old(ly.cells)|, Table(g))
    ensures |ly.top| == |old(ly.top)| + 63
    ensures forall k :: |old(ly.top)| <= k < |ly.top| ==>
              ly.top[k].cell < |ly.cells| && ly.cells[ly.top[k].cell] == TextLabel(Style())
  {
    TableAppends63(g);
    InsertTable(ly, Table(g), Style());
    TablePlacementsCount(|old(ly.cells)|, Table(g));
    forall k | |old(ly.top)| <= k < |ly.top|
      ensures ly.top[k].cell < |ly.cells| && ly.cells[ly.top[k].cell] == TextLabel(Style())
    {
      TablePlacementsCells(|old(ly.cells)|, Table(g), k - |old(ly.top)|);
    }
  }
}
