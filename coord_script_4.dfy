/** coord_script_4.rb: places the digit "4" with `insert_text_instances`
    driven by a twelve-entry parameter table. Distances are in grid units:
    `g` is the number of grid units in 0.01 um (10 for a 0.001 um database unit). */
module CoordScript4 {
  import opened LayoutDb
  import opened TextArray

  /** A one-column, twenty-one-row entry stepping 200 um per row. */
  function Strip(x: int, y: int, g: nat): ArraySpec {
    ArraySpec(Point(x * g, y * g), 1, 21, Point(0, 0), Point(0, 20000 * g))
  }

  /** A five-column, one-row entry stepping 300 um per column. */
  function Bar(x: int, y: int, g: nat): ArraySpec {
    ArraySpec(Point(x * g, y * g), 5, 1, Point(30000 * g, 0), Point(0, 0))
  }

  /** The three strips of the table, in table order. */
  function Strips(g: nat): seq<ArraySpec> {
    [ Strip(210100, 554153, g), Strip(350100, 554153, g), Strip(490100, 554153, g) ]
  }

  /** The nine bars of the table, in table order. */
  function Bars(g: nat): seq<ArraySpec> {
    [ Bar(149370, 515153, g), Bar(149370, 375153, g), Bar(149370, 235153, g),
      Bar(289370, 515153, g), Bar(289370, 375153, g), Bar(289370, 235153, g),
      Bar(429370, 515153, g), Bar(429370, 375153, g), Bar(429370, 235153, g) ]
  }

  /** `insert_params`. */
  function Table(g: nat): seq<ArraySpec> {
    Strips(g) + Bars(g)
  }

  /** Text "4", magnification 10, layer 1/0. */
  function Style(): LabelStyle {
    LabelStyle("4", 10.0, LayerInfo(1, 0))
  }

  /** Three 1x21 entries and nine 5x1 entries: 3*21 + 9*5 = 108 instances. */
  lemma TableAppends108(g: nat)
    ensures |Table(g)| == 12
    ensures TableSize(Table(g)) == 108
  {
    TableSizeAppend(Strips(g), Bars(g));
    TableSizeUniform(Strips(g), 21, 1);
    TableSizeUniform(Bars(g), 1, 5);
  }

  /** The first entry's 21 labels share one x, with y = abs_y - r * 200 um. */
  lemma FirstStripDescends(g: nat, r: nat)
    requires r < 21
    ensures r < |ArrayPositions(Table(g)[0])|
    ensures ArrayPositions(Table(g)[0])[r] == Point(210100 * g, 554153 * g - 20000 * g * r)
  {
    VerticalStrip(Table(g)[0], r);
  }

  /** The whole script: 12 text cells of style "4", then 108 single instances of
      them appended to the top cell, entry by entry in table order. */
  method Run(ly: Layout, g: nat)
    requires ly.Valid()
    modifies ly
    ensures ly.Valid()
    ensures ly.cells == old(ly.cells) + seq(12, _ => TextLabel(Style()))
    ensures ly.top == old(ly.top) + TablePlacements(|old(ly.cells)|, Table(g))
    ensures |ly.top| == |old(ly.top)| + 108
    ensures forall k :: |old(ly.top)| <= k < |ly.top| ==>
              ly.top[k].cell < |ly.cells| && ly.cells[ly.top[k].cell] == TextLabel(Style())
  {
    TableAppends108(g);
    InsertTable(ly, Table(g), Style());
    TablePlacementsCount(|old(ly.cells)|, Table(g));
    forall k | |old(ly.top)| <= k < |ly.top|
      ensures ly.top[k].cell < |ly.cells| && ly.cells[ly.top[k].cell] == TextLabel(Style())
    {
      TablePlacementsCells(|old(ly.cells)|, Table(g), k - |old(ly.top)|);
    }
  }
}
