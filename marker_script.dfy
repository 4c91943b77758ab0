/** marker_script.rb: collects the displacement of every placement of the
    "sample_7x7" cell in the top cell, sorts them by (y, x), and labels each
    with a serial text "AGK001", "AGK002", ... at a fixed offset from it. */
module MarkerScript {
  import opened LayoutDb
  import opened SerialFormat

  /** The cell whose placements are labelled. */
  const TemplateName: string := "sample_7x7"

  /** The magnification and layer of every serial label. */
  const Mag: real := 600.0
  const Layer: LayerInfo := LayerInfo(1, 0)

  /** The label's offset from its coordinate, (2500 um, 6300 um), in grid units;
      `g` is the number of grid units in 0.01 um. */
  function Offset(g: nat): Point {
    Point(250000 * g, 630000 * g)
  }

  // ---------------------------------------------------------------- scan

  /** The instance refers to a cell named exactly "sample_7x7". */
  predicate Matches(cells: seq<Cell>, inst: Inst) {
    inst.cell < |cells| && cells[inst.cell].Name() == TemplateName
  }

  /** The coordinates the scan collects: instance by instance, and within an
      instance placement by placement, the displacements of matching instances. */
  function Collected(cells: seq<Cell>, insts: seq<Inst>): seq<Point> {
    if insts == [] then []
    else Collected(cells, insts[..|insts| - 1])
         + (if Matches(cells, insts[|insts| - 1]) then insts[|insts| - 1].disps else [])
  }

  /** The scan of lines 22-32: `each_inst`, the name test, `each_trans`, `<<`.
      It only reads the layout. */
  method CollectCoordinates(ly: Layout) returns (coords: seq<Point>)
    requires ly.Valid()
    ensures coords == Collected(ly.cells, ly.top)
  {
    coords := [];
    var i := 0;
    while i < |ly.top|
      invariant 0 <= i <= |ly.top|
      invariant coords == Collected(ly.cells, ly.top[..i])
    {
      var inst := ly.top[i];
      assert ly.top[..i + 1][..i] == ly.top[..i];
      if ly.cells[inst.cell].Name() == TemplateName {
        var j := 0;
        while j < |inst.disps|
          invariant 0 <= j <= |inst.disps|
          invariant coords == Collected(ly.cells, ly.top[..i]) + inst.disps[..j]
        {
          coords := coords + [inst.disps[j]];
          assert inst.disps[..j + 1] == inst.disps[..j] + [inst.disps[j]];
          j := j + 1;
        }
        assert inst.disps[..j] == inst.disps;
      }
      i := i + 1;
    }
    assert ly.top[..i] == ly.top;
  }

  /** Every displacement of every matching instance is collected. */
  lemma {:induction false} CollectedComplete(cells: seq<Cell>, insts: seq<Inst>, i: nat, p: Point)
    requires i < |insts| && Matches(cells, insts[i]) && p in insts[i].disps
    ensures p in Collected(cells, insts)
  {
    var n := |insts| - 1;
    var front := insts[..n];
    assert Collected(cells, insts) == Collected(cells, front)
      + (if Matches(cells, insts[n]) then insts[n].disps else []);
    if i < n {
      assert front[i] == insts[i];
      CollectedComplete(cells, front, i, p);
    }
  }

  /** Every collected point is a displacement of some matching instance. */
  lemma {:induction false} CollectedSound(cells: seq<Cell>, insts: seq<Inst>, p: Point) returns (i: nat)
    requires p in Collected(cells, insts)
    ensures i < |insts| && Matches(cells, insts[i]) && p in insts[i].disps
  {
    var n := |insts| - 1;
    var front := insts[..n];
    assert Collected(cells, insts) == Collected(cells, front)
      + (if Matches(cells, insts[n]) then insts[n].disps else []);
    if p in Collected(cells, front) {
      i := CollectedSound(cells, front, p);
      assert front[i] == insts[i];
    } else {
      i := n;
    }
  }

  /** A point is collected exactly when some matching instance places the template there. */
  lemma {:induction false} CollectedMembership(cells: seq<Cell>, insts: seq<Inst>, p: Point)
    ensures p in Collected(cells, insts) <==>
            exists i :: 0 <= i < |insts| && Matches(cells, insts[i]) && p in insts[i].disps
  {
    if p in Collected(cells, insts) {
      var i := CollectedSound(cells, insts, p);
    }
    if exists i :: 0 <= i < |insts| && Matches(cells, insts[i]) && p in insts[i].disps {
      var i :| 0 <= i < |insts| && Matches(cells, insts[i]) && p in insts[i].disps;
      CollectedComplete(cells, insts, i, p);
    }
  }

  /** Scanning two runs of instances collects the first run's points, then the
      second's: every placement contributes, duplicates included. */
  lemma {:induction false} CollectedAppend(cells: seq<Cell>, a: seq<Inst>, b: seq<Inst>)
    ensures Collected(cells, a + b) == Collected(cells, a) + Collected(cells, b)
  {
    if b == [] {
      assert a + b == a;
    } else {
      assert (a + b)[..|a + b| - 1] == a + b[..|b| - 1];
      CollectedAppend(cells, a, b[..|b| - 1]);
    }
  }

  /** When no instance refers to "sample_7x7" nothing is collected. */
  lemma {:induction false} CollectedNone(cells: seq<Cell>, insts: seq<Inst>)
    requires forall i :: 0 <= i < |insts| ==> !Matches(cells, insts[i])
    ensures Collected(cells, insts) == []
  {
    if insts != [] {
      CollectedNone(cells, insts[..|insts| - 1]);
    }
  }

  lemma CollectedSingle(cells: seq<Cell>, inst: Inst)
    ensures Collected(cells, [inst]) == if Matches(cells, inst) then inst.disps else []
  {
    assert [inst][..0] == [];
  }

  lemma MultisetRemoveAt(b: seq<Inst>, k: nat)
    requires k < |b|
    ensures multiset(b[..k] + b[k + 1..]) == multiset(b) - multiset{b[k]}
  {
    assert b == b[..k] + [b[k]] + b[k + 1..];
  }

  /** Taking instance k out of the scan takes exactly its points out of the result. */
  lemma CollectedRemoveAt(cells: seq<Cell>, b: seq<Inst>, k: nat)
    requires k < |b|
    ensures multiset(Collected(cells, b))
            == multiset(Collected(cells, b[..k] + b[k + 1..])) + multiset(Collected(cells, [b[k]]))
  {
    var b1, b2 := b[..k], b[k + 1..];
    assert b == b1 + [b[k]] + b2;
    CollectedAppend(cells, b1, b2);
    CollectedAppend(cells, b1 + [b[k]], b2);
    CollectedAppend(cells, b1, [b[k]]);
  }

  /** Reordering the instances of the top cell (the order of `each_inst`) does not
      change which points are collected, nor how often. */
  lemma {:induction false} CollectedPermuted(cells: seq<Cell>, a: seq<Inst>, b: seq<Inst>)
    requires multiset(a) == multiset(b)
    ensures multiset(Collected(cells, a)) == multiset(Collected(cells, b))
  {
    if a == [] {
      assert |b| == |multiset(b)| == 0;
    } else {
      var n := |a| - 1;
      var x := a[n];
      assert a == a[..n] + [x];
      assert multiset(a[..n]) == multiset(a) - multiset{x};
      assert x in multiset(b);
      var k :| 0 <= k < |b| && b[k] == x;
      MultisetRemoveAt(b, k);
      CollectedPermuted(cells, a[..n], b[..k] + b[k + 1..]);
      CollectedRemoveAt(cells, b, k);
      CollectedAppend(cells, a[..n], [x]);
    }
  }

  /** Two instance lists that differ only in the order of each instance's
      placements (the order of `each_trans`). */
  predicate SameUpToPlacementOrder(a: seq<Inst>, b: seq<Inst>) {
    |a| == |b| &&
    forall i :: 0 <= i < |a| ==> a[i].cell == b[i].cell && multiset(a[i].disps) == multiset(b[i].disps)
  }

  /** Reordering the placements inside instances does not change which points are
      collected, nor how often. */
  lemma {:induction false} CollectedPlacementsPermuted(cells: seq<Cell>, a: seq<Inst>, b: seq<Inst>)
    requires SameUpToPlacementOrder(a, b)
    ensures multiset(Collected(cells, a)) == multiset(Collected(cells, b))
  {
    if a != [] {
      var n := |a| - 1;
      assert SameUpToPlacementOrder(a[..n], b[..n]);
      CollectedPlacementsPermuted(cells, a[..n], b[..n]);
    }
  }

  /** The labels' order depends neither on the order of the top cell's instances
      nor on the order of the placements inside them: if `b` is a reordering of
      `a`, and `c` differs from `b` only in placement order, the sorted
      coordinate lists are equal. */
  lemma ScanOrderIrrelevant(cells: seq<Cell>, a: seq<Inst>, b: seq<Inst>, c: seq<Inst>)
    requires multiset(a) == multiset(b)
    requires SameUpToPlacementOrder(b, c)
    ensures SortYX(Collected(cells, a)) == SortYX(Collected(cells, c))
  {
    CollectedPermuted(cells, a, b);
    CollectedPlacementsPermuted(cells, b, c);
    SortYXOrderIndependent(Collected(cells, a), Collected(cells, c));
  }

  // ---------------------------------------------------------------- sort

  /** The order of `sort_by! { |pt| [pt.y, pt.x] }`: by y, then by x. */
  predicate LessEqYX(p: Point, q: Point) {
    p.y < q.y || (p.y == q.y && p.x <= q.x)
  }

  predicate SortedYX(s: seq<Point>) {
    forall i, j :: 0 <= i < j < |s| ==> LessEqYX(s[i], s[j])
  }

  function InsertYX(p: Point, s: seq<Point>): seq<Point> {
    if s == [] then [p]
    else if LessEqYX(p, s[0]) then [p] + s
    else [s[0]] + InsertYX(p, s[1..])
  }

  /** A reference sort by (y, x), insertion into a sorted list. */
  function SortYX(s: seq<Point>): seq<Point> {
    if s == [] then [] else InsertYX(s[0], SortYX(s[1..]))
  }

  lemma {:induction false} InsertYXMultiset(p: Point, s: seq<Point>)
    ensures multiset(InsertYX(p, s)) == multiset(s) + multiset{p}
  {
    if s != [] && !LessEqYX(p, s[0]) {
      InsertYXMultiset(p, s[1..]);
      assert s == [s[0]] + s[1..];
    }
  }

  lemma {:induction false} InsertYXSorted(p: Point, s: seq<Point>)
    requires SortedYX(s)
    ensures SortedYX(InsertYX(p, s))
  {
    if s != [] && !LessEqYX(p, s[0]) {
      var rest := InsertYX(p, s[1..]);
      InsertYXSorted(p, s[1..]);
      InsertYXMultiset(p, s[1..]);
      forall k | 0 <= k < |rest|
        ensures LessEqYX(s[0], rest[k])
      {
        assert rest[k] in multiset(rest);
        if rest[k] != p {
          assert rest[k] in multiset(s[1..]);
          var m :| 0 <= m < |s[1..]| && s[1..][m] == rest[k];
          assert s[m + 1] == rest[k];
        }
      }
      var r := [s[0]] + rest;
      forall i, j | 0 <= i < j < |r|
        ensures LessEqYX(r[i], r[j])
      {
        if i > 0 {
          assert r[i] == rest[i - 1] && r[j] == rest[j - 1];
        }
      }
    }
  }

  /** The reference sort yields an ascending permutation of its input. */
  lemma {:induction false} SortYXCorrect(s: seq<Point>)
    ensures SortedYX(SortYX(s))
    ensures multiset(SortYX(s)) == multiset(s)
  {
    if s != [] {
      SortYXCorrect(s[1..]);
      InsertYXSorted(s[0], SortYX(s[1..]));
      InsertYXMultiset(s[0], SortYX(s[1..]));
      assert s == [s[0]] + s[1..];
    }
  }

  /** The head of an ascending list is below every element of it. */
  lemma SortedHeadLeast(s: seq<Point>, x: Point)
    requires SortedYX(s) && x in multiset(s)
    ensures LessEqYX(s[0], x)
  {
    var k :| 0 <= k < |s| && s[k] == x;
  }

  lemma MultisetTail(s: seq<Point>)
    requires s != []
    ensures multiset(s[1..]) == multiset(s) - multiset{s[0]}
  {
    assert s == [s[0]] + s[1..];
  }

  /** Two ascending permutations of one list are equal: points with equal keys are
      equal points, so the stability of the host's sort cannot show. */
  lemma {:induction false} SortedUnique(s: seq<Point>, t: seq<Point>)
    requires SortedYX(s) && SortedYX(t)
    requires multiset(s) == multiset(t)
    ensures s == t
  {
    if s != [] {
      assert s[0] in multiset(s);
      SortedHeadLeast(t, s[0]);
      assert t[0] in multiset(t);
      SortedHeadLeast(s, t[0]);
      MultisetTail(s);
      MultisetTail(t);
      SortedUnique(s[1..], t[1..]);
      assert s == [s[0]] + s[1..];
      assert t == [t[0]] + t[1..];
    }
  }

  /** The sorted order depends only on which points were collected, never on the
      order the instances sit in the top cell. */
  lemma SortYXOrderIndependent(s: seq<Point>, t: seq<Point>)
    requires multiset(s) == multiset(t)
    ensures SortYX(s) == SortYX(t)
  {
    SortYXCorrect(s);
    SortYXCorrect(t);
    SortedUnique(SortYX(s), SortYX(t));
  }

  /** Three coordinates come out by y first, then by x. */
  lemma SortYXExample()
    ensures SortYX([Point(5, 2), Point(1, 2), Point(1, 1)]) == [Point(1, 1), Point(1, 2), Point(5, 2)]
  {
  }

  method Swap(a: array<Point>, i: nat, j: nat)
    requires i < j < a.Length
    modifies a
    ensures a[i] == old(a[j]) && a[j] == old(a[i])
    ensures forall m :: 0 <= m < a.Length && m != i && m != j ==> a[m] == old(a[m])
    ensures multiset(a[..]) == multiset(old(a[..]))
  {
    a[i], a[j] := a[j], a[i];
  }

  /** One insertion step: moves a[i] down into the ascending prefix a[..i]. */
  method SinkLast(a: array<Point>, i: nat)
    requires i < a.Length && SortedYX(a[..i])
    modifies a
    ensures SortedYX(a[..i + 1])
    ensures multiset(a[..]) == multiset(old(a[..]))
  {
    var j := i;
    while j > 0 && !LessEqYX(a[j - 1], a[j])
      invariant 0 <= j <= i
      invariant forall m, n :: 0 <= m < n <= i && m != j && n != j ==> LessEqYX(a[m], a[n])
      invariant forall n :: j < n <= i ==> LessEqYX(a[j], a[n])
      invariant multiset(a[..]) == multiset(old(a[..]))
    {
      Swap(a, j - 1, j);
      j := j - 1;
    }
  }

  /** `chip_coordinates.sort_by! { |pt| [pt.y, pt.x] }`, as an in-place insertion sort. */
  method SortInPlace(a: array<Point>)
    modifies a
    ensures SortedYX(a[..]) && multiset(a[..]) == multiset(old(a[..]))
    ensures a[..] == SortYX(old(a[..]))
  {
    var i := 0;
    while i < a.Length
      invariant 0 <= i <= a.Length
      invariant SortedYX(a[..i])
      invariant multiset(a[..]) == multiset(old(a[..]))
    {
      SinkLast(a, i);
      i := i + 1;
    }
    assert a[..i] == a[..];
    SortYXCorrect(old(a[..]));
    SortedUnique(a[..], SortYX(old(a[..])));
  }

  // ---------------------------------------------------------------- label

  /** The text cells of n labels: the k-th (from 0) carries serial k + 1. */
  function SerialCells(n: nat, mag: real, layer: LayerInfo): seq<Cell> {
    seq(n, k requires 0 <= k < n => TextLabel(LabelStyle(SerialText(k + 1), mag, layer)))
  }

  /** The label instances: the k-th refers to the k-th new cell and sits at the
      k-th coordinate moved by the offset. */
  function SerialInsts(base: CellId, pts: seq<Point>, offset: Point): seq<Inst> {
    seq(|pts|, k requires 0 <= k < |pts| => Inst(base + k, [Translate(pts[k], offset)]))
  }

  /** Each label reads back as its own serial number, so no two labels of one run share a text. */
  lemma SerialCellsNumbered(n: nat, mag: real, layer: LayerInfo)
    ensures forall k :: 0 <= k < n ==>
              ParseSerial(SerialCells(n, mag, layer)[k].style.text) == Some(k + 1)
    ensures forall i, j :: 0 <= i < j < n ==>
              SerialCells(n, mag, layer)[i].style.text != SerialCells(n, mag, layer)[j].style.text
  {
    forall k | 0 <= k < n
      ensures ParseSerial(SerialCells(n, mag, layer)[k].style.text) == Some(k + 1)
    {
      SerialRoundTrip(k + 1);
    }
  }

  /** The labelling loop of lines 43-65: the counter starts at 1; per coordinate
      one text cell with the current serial, one instance of it at the coordinate
      plus the offset, then the counter steps by one. Returns the final counter. */
  method LabelCoordinates(ly: Layout, pts: seq<Point>, offset: Point, mag: real, layer: LayerInfo)
    returns (sn: nat)
    requires ly.Valid()
    modifies ly
    ensures ly.Valid()
    ensures sn == |pts| + 1
    ensures ly.cells == old(ly.cells) + SerialCells(|pts|, mag, layer)
    ensures ly.top == old(ly.top) + SerialInsts(|old(ly.cells)|, pts, offset)
  {
    sn := 1;
    var i := 0;
    while i < |pts|
      invariant 0 <= i <= |pts| && sn == i + 1
      invariant ly.Valid()
      invariant ly.cells == old(ly.cells) + SerialCells(i, mag, layer)
      invariant ly.top == old(ly.top) + SerialInsts(|old(ly.cells)|, pts[..i], offset)
    {
      var pt := pts[i];
      var trans := Point(pt.x + offset.x, pt.y + offset.y);
      var cell := ly.CreateTextCell(LabelStyle(SerialText(sn), mag, layer));
      ly.Insert(Inst(cell, [trans]));
      sn := sn + 1;
      i := i + 1;
    }
    assert pts[..i] == pts;
  }

  /** The whole script: scan, sort by (y, x), label. With nothing to label it
      appends nothing and the counter stays at 1. */
  method Run(ly: Layout, g: nat) returns (sn: nat)
    requires ly.Valid()
    modifies ly
    ensures ly.Valid()
    ensures sn == |Collected(old(ly.cells), old(ly.top))| + 1
    ensures ly.cells == old(ly.cells) + SerialCells(|Collected(old(ly.cells), old(ly.top))|, Mag, Layer)
    ensures ly.top == old(ly.top)
              + SerialInsts(|old(ly.cells)|, SortYX(Collected(old(ly.cells), old(ly.top))), Offset(g))
  {
    var coords := CollectCoordinates(ly);
    var a := new Point[|coords|](k requires 0 <= k < |coords| => coords[k]);
    assert a[..] == coords;
    SortInPlace(a);
    SortYXCorrect(coords);
    assert |a[..]| == |multiset(a[..])| == |coords|;
    sn := LabelCoordinates(ly, a[..], Offset(g), Mag, Layer);
  }
}
