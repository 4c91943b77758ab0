/** coord_script_8.rb: places the digit "8" with `insert_text_instances`
    driven by an eighteen-entry parameter table. Distances are in grid units:
    `g` is the number of grid units in 0.01 um (10 for a 0.001 um database unit),
    so the table's micrometre literals become whole multiples of `g`. */
module CoordScript8 {
  import opened LayoutDb
  import opened TextArray

  /** A one-column, five-row entry stepping 200 um per row. */
  function Strip(x: int, y: int, g: nat): ArraySpec {
    ArraySpec(Point(x * g, y * g), 1, 5, Point(0, 0), Point(0, 20000 * g))
  }

  /** A five-column, one-row entry stepping 300 um per column. */
  function Bar(x: int, y: int, g: nat): ArraySpec {
    ArraySpec(Point(x * g, y * g), 5, 1, Point(30000 * g, 0), Point(0, 0))
  }

  /** The nine strips of the table, in table order. */
  function Strips(g: nat): seq<ArraySpec> {
    [ Strip(270100, 534153, g), Strip(410100, 534153, g), Strip(550100, 534153, g),
      Strip(270100, 394153, g), Strip(410100, 394153, g), Strip(550100, 394153, g),
      Strip(270100, 254153, g), Strip(410100, 254153, g), Strip(550100, 254153, g) ]
  }

  /** The nine bars of the table, in table order. */
  function Bars(g: nat): seq<ArraySpec> {
    [ Bar(149370, 475153, g), Bar(149370, 335153, g), Bar(149370, 195153, g),
      Bar(289370, 475153, g), Bar(289370, 335153, g), Bar(289370, 195153, g),
      Bar(429370, 475153, g), Bar(429370, 335153, g), Bar(429370, 195153, g) ]
  }

  /** `insert_params`. */
  function Table(g: nat): seq<ArraySpec> {
    Strips(g) + Bars(g)
  }

  /** Text "8", magnification 10, layer 1/0. */
  function Style(): LabelStyle {
    LabelStyle("8", 10.0, LayerInfo(1, 0))
  }

  /** The table has nine 1x5 and nine 5x1 entries: 90 instances in all. */
  lemma TableAppends90(g: nat)
    ensures |Table(g)| == 18
    ensures TableSize(Table(g)) == 90
  {
    TableSizeAppend(Strips(g), Bars(g));
    TableSizeUniform(Strips(g), 5, 1);
    TableSizeUniform(Bars(g), 1, 5);
  }

  /** The first entry's five labels share one x and step down 200 um per row. */
  lemma FirstStripDescends(g: nat, r: nat)
    requires r < 5
    ensures r < |ArrayPositions(Table(g)[0])|
    ensures ArrayPositions(Table(g)[0])[r] == Point(270100 * g, 534153 * g - 20000 * g * r)
  {
    VerticalStrip(Table(g)[0], r);
  }

  /** The whole script: 18 text cells of style "8", then 90 single instances of
      them appended to the top cell, entry by entry in table order. */
  method Run(ly: Layout, g: nat)
    requires ly.Valid()
    modifies ly
    ensures ly.Valid()
    ensures ly.cells == old(ly.cells) + seq(18, _ => TextLabel(Style()))
    ensures ly.top == old(ly.top) + TablePlacements(|old(ly.cells)|, Table(g))
    ensures |ly.top| == |old(ly.top)| + 90
    ensures forall k :: |old(ly.top)| <= k < |ly.top| ==>
              ly.top[k].cell < |ly.cells| && ly.cells[ly.top[k].cell] == TextLabel(Style())
  {
    TableAppends90(g);
    InsertTable(ly, Table(g), Style());
    TablePlacementsCount(|old(ly.cells)|, Table(g));
    forall k | |old(ly.top)| <= k < |ly.top|
      ensures ly.top[k].cell < |ly.cells| && ly.cells[ly.top[k].cell] == TextLabel(Style())
    {
      TablePlacementsCells(|old(ly.cells)|, Table(g), k - |old(ly.top)|);
    }
  }
}
