/** The part of the layout database the macros touch: the cells of a layout
    and the instance list of its top cell. Everything is in database grid units. */
module LayoutDb {

  /** A point or displacement in database grid units. */
  datatype Point = Point(x: int, y: int)

  /** Translation of a point by a displacement. */
  function Translate(p: Point, d: Point): Point {
    Point(p.x + d.x, p.y + d.y)
  }

  /** A layer/datatype pair, as `RBA::LayerInfo.new(layer, datatype)`. */
  datatype LayerInfo = LayerInfo(layer: int, dataType: int)

  /** The parameters handed to the "TEXT" library cell: layer, text and magnification. */
  datatype LabelStyle = LabelStyle(text: string, mag: real, layer: LayerInfo)

  /** The index of a cell in the layout (`cell_index`). */
  type CellId = nat

  /** A cell of the layout: an ordinary named cell (the wafer's die cells, say)
      or a text cell created from the "TEXT" cell of the "Basic" library. */
  datatype Cell = Named(name: string) | TextLabel(style: LabelStyle)
  {
    /** The cell's name; a text cell is named after its library cell. */
    function Name(): string {
      match this
      case Named(n) => n
      case TextLabel(_) => "TEXT"
    }
  }

  /** A cell instance array: the referenced cell and the displacement of every
      placement it stands for (one displacement for a single instance). */
  datatype Inst = Inst(cell: CellId, disps: seq<Point>)

  /** A layout, reduced to its cell table and the instances of its top cell. */
  class Layout {
    var cells: seq<Cell>
    var top: seq<Inst>

    /** Every instance of the top cell refers to a cell of the layout. */
    ghost predicate Valid()
      reads this
    {
      forall i :: 0 <= i < |top| ==> top[i].cell < |cells|
    }

    /** `ly.create_cell("TEXT", "Basic", params)`: a new text cell with a fresh index. */
    method CreateTextCell(style: LabelStyle) returns (id: CellId)
      requires Valid()
      modifies this`cells
      ensures Valid()
      ensures id == |old(cells)| && cells == old(cells) + [TextLabel(style)]
    {
      id := |cells|;
      cells := cells + [TextLabel(style)];
    }

    /** `top.insert(CellInstArray.new(...))`: appends one instance to the top cell. */
    method Insert(inst: Inst)
      requires Valid() && inst.cell < |cells|
      modifies this`top
      ensures Valid()
      ensures top == old(top) + [inst]
    {
      top := top + [inst];
    }
  }
}
