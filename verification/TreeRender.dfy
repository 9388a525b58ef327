/** Drawing the grid as text: boxes 29 columns wide, connected level by level. Every line
    reads as one 29-column piece per grid column, so boxes and connectors line up. */
module TreeRender {
  import opened Results
  import opened RenderTree
  import opened LineWrap

  const LTCORNER := '\U{250C}'
  const RTCORNER := '\U{2510}'
  const LDCORNER := '\U{2514}'
  const RDCORNER := '\U{2518}'
  const TMIDDLE := '\U{252C}'
  const LMIDDLE := '\U{251C}'
  const DMIDDLE := '\U{2534}'
  const VERTICAL := '\U{2502}'
  const HORIZONTAL := '\U{2500}'

  const HALF := NODE_RENDER_WIDTH / 2

  // ---------------------------------------------------------------- the tree seen as a grid

  predicate Has(cells: Cells, x: nat, y: nat) {
    Coordinate(x, y) in cells
  }

  predicate HasBelow(cells: Cells, x: nat, y: nat) {
    Has(cells, x, y + 1)
  }

  // The columns of some side-by-side trees' roots.
  function ChildColumns(ts: seq<Tree>, x: nat): set<nat> {
    if ts == [] then {} else ChildColumns(ts[..|ts| - 1], x) + {x + WidthOf(ts[..|ts| - 1])}
  }

  lemma {:induction false} ChildColumnsSize(ts: seq<Tree>, x: nat)
    ensures |ChildColumns(ts, x)| == |ts|
    ensures forall c :: c in ChildColumns(ts, x) ==> x <= c < x + WidthOf(ts)
    ensures ts != [] ==> x in ChildColumns(ts, x)
  {
    if ts != [] {
      ChildColumnsSize(ts[..|ts| - 1], x);
    }
  }

  lemma {:induction false} ChildColumnsArePositions(ts: seq<Tree>, x: nat, y: nat, c: nat)
    ensures c in ChildColumns(ts, x) <==> Coordinate(c, y) in PositionsOf(ts, x, y)
  {
    var ps := PositionsOf(ts, x, y);
    if ts != [] {
      var front := ts[..|ts| - 1];
      var fs := PositionsOf(front, x, y);
      ChildColumnsArePositions(front, x, y, c);
      assert ps == fs + [Coordinate(x + WidthOf(front), y)];
      assert ps[|front|] == Coordinate(x + WidthOf(front), y);
      assert forall k :: 0 <= k < |front| ==> ps[k] == fs[k];
    }
  }

  // A placed operator's subtree is part of the layout.
  lemma {:induction false} SubtreePlaced(t: Tree, x: nat, y: nat, q: Coordinate, c: Coordinate)
    requires q in Placed(t, x, y) && c in Placed(Placed(t, x, y)[q], q.x, q.y)
    ensures c in Placed(t, x, y)
    decreases t
  {
    if q != Coordinate(x, y) {
      RowInside(t.children, x, y + 1);
      RowSubtreePlaced(t.children, x, y + 1, q, c);
    }
  }

  lemma {:induction false} RowSubtreePlaced(ts: seq<Tree>, x: nat, y: nat, q: Coordinate, c: Coordinate)
    requires q in PlacedRow(ts, x, y) && c in Placed(PlacedRow(ts, x, y)[q], q.x, q.y)
    ensures c in PlacedRow(ts, x, y)
    decreases ts
  {
    var front, last := ts[..|ts| - 1], ts[|ts| - 1];
    if q in Placed(last, x + WidthOf(front), y) {
      SubtreePlaced(last, x + WidthOf(front), y, q, c);
    } else {
      RowSubtreePlaced(front, x, y, q, c);
    }
  }

  function ColumnsBelow(cells: Cells, p: Coordinate): set<nat>
    requires p in cells
  {
    ChildColumns(cells[p].children, p.x)
  }

  // Every child stands in the grid.
  lemma ChildrenAreThere(t: Tree, cells: Cells, p: Coordinate, c: nat)
    requires LaidOut(t, cells) && p in cells && c in ColumnsBelow(cells, p)
    ensures HasBelow(cells, c, p.y)
  {
    var q := cells[p];
    ChildColumnsArePositions(q.children, p.x, p.y + 1, c);
    var k :| 0 <= k < |q.children| && PositionsOf(q.children, p.x, p.y + 1)[k] == Coordinate(c, p.y + 1);
    ChildrenStandThere(q.children, p.x, p.y + 1, k);
    SubtreePlaced(t, 0, 0, p, Coordinate(c, p.y + 1));
  }

  // An operator's parent stands at or left of it, and alone in between.
  lemma ParentToTheLeft(t: Tree, cells: Cells, x: nat, y: nat) returns (p: Coordinate)
    requires LaidOut(t, cells) && HasBelow(cells, x, y)
    ensures p in cells && p.y == y && p.x <= x && x in ColumnsBelow(cells, p)
    ensures forall i: nat :: p.x < i < p.x + Width(cells[p]) ==> !Has(cells, i, y)
    ensures x < p.x + Width(cells[p])
  {
    var k;
    p, k := ParentOf(t, 0, 0, Coordinate(x, y + 1));
    var q := cells[p];
    ChildColumnsArePositions(q.children, p.x, y + 1, x);
    ChildColumnsSize(q.children, p.x);
    forall i: nat | p.x < i < p.x + Width(q) ensures !Has(cells, i, y) {
      if Has(cells, i, y) {
        OwnColumns(t, 0, 0, p, Coordinate(i, y));
        RowInside(q.children, p.x, p.y + 1);
      }
    }
  }

  // No operator in columns `from` to `last` of a row.
  predicate EmptyIn(cells: Cells, from: nat, last: nat, y: nat) {
    forall i: nat :: from <= i <= last ==> !Has(cells, i, y)
  }

  // The columns from `from` to `last` with an operator below row y.
  function Below(cells: Cells, from: nat, last: nat, y: nat): (cs: set<nat>)
    ensures forall c :: c in cs <==> from <= c <= last && HasBelow(cells, c, y)
    decreases last + 1 - from
  {
    if from > last then {}
    else Below(cells, from + 1, last, y) + (if HasBelow(cells, from, y) then {from} else {})
  }

  // The grid answers what the layout says.
  lemma GridShows(root: Grid, cells: Cells, x: nat, y: nat)
    requires Renders(root, cells)
    ensures root.HasNode(x, y) <==> Has(cells, x, y)
    ensures Has(cells, x, y) ==>
              && root.GetNode(x, y).value.name == cells[Coordinate(x, y)].name
              && root.GetNode(x, y).value.extraText == cells[Coordinate(x, y)].info
              && |root.GetNode(x, y).value.childPositions| == |cells[Coordinate(x, y)].children|
  {
    assert root.GetNode(x, y) == root.NodeAt(Coordinate(x, y));
  }

  // What lies below an operator and the empty cells right of it are its own children.
  lemma OnlyItsChildren(t: Tree, cells: Cells, p: Coordinate, x: nat, c: nat)
    requires LaidOut(t, cells) && p in cells && p.x <= c <= x && EmptyIn(cells, p.x + 1, x, p.y)
    ensures HasBelow(cells, c, p.y) <==> c in ColumnsBelow(cells, p)
  {
    if c in ColumnsBelow(cells, p) {
      ChildrenAreThere(t, cells, p, c);
    }
    if HasBelow(cells, c, p.y) {
      var p' := ParentToTheLeft(t, cells, c, p.y);
      assert Has(cells, p'.x, p.y) && Has(cells, p.x, p.y);
      assert p' == p;
    }
  }

  /** Some operator at or left of x, with nothing between, has a child right of x. */
  ghost predicate ChildToTheRight(cells: Cells, x: nat, y: nat) {
    exists p, c :: p in cells && p.y == y && p.x <= x < c
      && EmptyIn(cells, p.x + 1, x, y) && c in ColumnsBelow(cells, p)
  }

  // The nearest operator at or left of x decides.
  lemma NearestDecides(cells: Cells, p: Coordinate, x: nat)
    requires p in cells && p.x <= x && EmptyIn(cells, p.x + 1, x, p.y)
    ensures ChildToTheRight(cells, x, p.y) <==> exists c :: c in ColumnsBelow(cells, p) && c > x
  {
    if ChildToTheRight(cells, x, p.y) {
      var p', c :| p' in cells && p'.y == p.y && p'.x <= x < c
                  && EmptyIn(cells, p'.x + 1, x, p.y) && c in ColumnsBelow(cells, p');
      assert Has(cells, p'.x, p.y) && Has(cells, p.x, p.y);
      assert p' == p;
    }
  }

  // Found and not found children make up all of them.
  lemma SomeLeft(found: set<nat>, all: set<nat>, x: nat)
    requires found == set c | c in all && c <= x
    ensures |found| <= |all|
    ensures |found| < |all| <==> exists c :: c in all && c > x
  {
    var right := set c | c in all && c > x;
    assert all == found + right && found !! right;
    assert |all| == |found| + |right|;
    if right == {} {
      assert forall c :: c in all ==> c <= x;
    } else {
      var c :| c in right;
      assert c in all && c > x;
    }
  }

  /** Scans left for the nearest operator and compares how many of its children were
      passed: true exactly when one of them lies to the right. */
  method ShouldRenderWhitespace(root: Grid, x: nat, y: nat, ghost t: Tree, ghost cells: Cells) returns (r: bool)
    requires LaidOut(t, cells) && Renders(root, cells)
    ensures r <==> ChildToTheRight(cells, x, y)
  {
    var foundChildren := 0;
    for i := x + 1 downto 0
      invariant EmptyIn(cells, i, x, y)
      invariant foundChildren == |Below(cells, i, x, y)|
    {
      GridShows(root, cells, i, y);
      GridShows(root, cells, i, y + 1);
      OneMoreBelow(cells, i, x, y);
      var node := root.GetNode(i, y);
      if root.HasNode(i, y + 1) {
        foundChildren := foundChildren + 1;
      }
      if node.Some? {
        DecidedHere(t, cells, Coordinate(i, y), x);
        return |node.value.childPositions| > 1 && foundChildren < |node.value.childPositions|;
      }
    }
    NobodyDecides(cells, x, y);
    return false;
  }

  lemma OneMoreBelow(cells: Cells, i: nat, x: nat, y: nat)
    requires i <= x
    ensures |Below(cells, i, x, y)| == |Below(cells, i + 1, x, y)| + if HasBelow(cells, i, y) then 1 else 0
  {
  }

  lemma NobodyDecides(cells: Cells, x: nat, y: nat)
    requires EmptyIn(cells, 0, x, y)
    ensures !ChildToTheRight(cells, x, y)
  {
    if ChildToTheRight(cells, x, y) {
      var p, c :| p in cells && p.y == y && p.x <= x < c
                  && EmptyIn(cells, p.x + 1, x, y) && c in ColumnsBelow(cells, p);
      assert Has(cells, p.x, y);
    }
  }

  lemma DecidedHere(t: Tree, cells: Cells, p: Coordinate, x: nat)
    requires LaidOut(t, cells) && p in cells && p.x <= x && EmptyIn(cells, p.x + 1, x, p.y)
    ensures var n := |cells[p].children|;
            ChildToTheRight(cells, x, p.y) <==> n > 1 && |Below(cells, p.x, x, p.y)| < n
  {
    var children, all, found := cells[p].children, ColumnsBelow(cells, p), Below(cells, p.x, x, p.y);
    ChildColumnsSize(children, p.x);
    forall c ensures c in found <==> c in all && c <= x {
      if p.x <= c <= x {
        OnlyItsChildren(t, cells, p, x, c);
      }
    }
    assert found == set c | c in all && c <= x;
    SomeLeft(found, all, x);
    NearestDecides(cells, p, x);
    if |found| < |all| {
      assert p.x in found;
      assert |found| >= |{p.x}|;
    }
  }
}
