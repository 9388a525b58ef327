/** The grid layout of an operator tree: every operator gets its own cell, children
    stand side by side one row below, the first directly under its parent. */
module RenderTree {
  import opened Results

  // An operator with the lines it displays, by key.
  datatype Tree = Operator(name: string, info: map<string, string>, children: seq<Tree>)

  datatype Coordinate = Coordinate(x: nat, y: nat)

  datatype RenderTreeNode =
    RenderTreeNode(name: string, extraText: map<string, string>, childPositions: seq<Coordinate>)

  // ---------------------------------------------------------------- measures

  function Width(t: Tree): (w: nat)
    ensures w >= 1
    decreases t
  {
    if t.children == [] then 1 else WidthOf(t.children)
  }

  // The columns a row of trees needs: one each at least.
  function WidthOf(ts: seq<Tree>): (w: nat)
    ensures w >= |ts|
    decreases ts
  {
    if ts == [] then 0 else WidthOf(ts[..|ts| - 1]) + Width(ts[|ts| - 1])
  }

  function Height(t: Tree): (h: nat)
    ensures h >= 1
    decreases t
  {
    1 + HeightOf(t.children)
  }

  function HeightOf(ts: seq<Tree>): (h: nat)
    decreases ts
  {
    if ts == [] then 0 else Max(HeightOf(ts[..|ts| - 1]), Height(ts[|ts| - 1]))
  }

  function Max(a: nat, b: nat): nat {
    if a < b then b else a
  }

  function Size(t: Tree): nat
    decreases t
  {
    1 + SizeOf(t.children)
  }

  function SizeOf(ts: seq<Tree>): nat
    decreases ts
  {
    if ts == [] then 0 else SizeOf(ts[..|ts| - 1]) + Size(ts[|ts| - 1])
  }

  // ---------------------------------------------------------------- the layout

  // Which operator stands in which cell, with `t` at (x, y).
  function Placed(t: Tree, x: nat, y: nat): map<Coordinate, Tree>
    decreases t
  {
    PlacedRow(t.children, x, y + 1)[Coordinate(x, y) := t]
  }

  // Trees side by side from (x, y) on.
  function PlacedRow(ts: seq<Tree>, x: nat, y: nat): map<Coordinate, Tree>
    decreases ts
  {
    if ts == [] then map[]
    else
      var front := ts[..|ts| - 1];
      PlacedRow(front, x, y) + Placed(ts[|ts| - 1], x + WidthOf(front), y)
  }

  function PositionsOf(ts: seq<Tree>, x: nat, y: nat): (ps: seq<Coordinate>)
    ensures |ps| == |ts| && forall k :: 0 <= k < |ps| ==> ps[k].y == y
  {
    if ts == [] then []
    else PositionsOf(ts[..|ts| - 1], x, y) + [Coordinate(x + WidthOf(ts[..|ts| - 1]), y)]
  }

  function NodeOf(t: Tree, c: Coordinate): RenderTreeNode {
    RenderTreeNode(t.name, t.info, PositionsOf(t.children, c.x, c.y + 1))
  }

  ghost predicate Inside(c: Coordinate, x: nat, y: nat, w: nat, h: nat) {
    x <= c.x < x + w && y <= c.y < y + h
  }

  /** A subtree is laid out inside its own columns and rows. */
  lemma {:induction false} PlacedInside(t: Tree, x: nat, y: nat)
    ensures forall c :: c in Placed(t, x, y) ==> Inside(c, x, y, Width(t), Height(t))
    decreases t
  {
    RowInside(t.children, x, y + 1);
  }

  lemma {:induction false} RowInside(ts: seq<Tree>, x: nat, y: nat)
    ensures forall c :: c in PlacedRow(ts, x, y) ==> Inside(c, x, y, WidthOf(ts), HeightOf(ts))
    decreases ts
  {
    if ts != [] {
      RowInside(ts[..|ts| - 1], x, y);
      PlacedInside(ts[|ts| - 1], x + WidthOf(ts[..|ts| - 1]), y);
    }
  }

  /** No row of a tree's layout is empty, and no column. */
  lemma {:induction false} RowUsed(t: Tree, x: nat, y: nat, r: nat) returns (c: nat)
    requires r < Height(t)
    ensures Coordinate(c, y + r) in Placed(t, x, y)
    decreases t
  {
    c := x;
    if r > 0 {
      c := RowUsedBy(t.children, x, y + 1, r - 1);
    }
  }

  lemma {:induction false} RowUsedBy(ts: seq<Tree>, x: nat, y: nat, r: nat) returns (c: nat)
    requires r < HeightOf(ts)
    ensures Coordinate(c, y + r) in PlacedRow(ts, x, y)
    decreases ts
  {
    var front := ts[..|ts| - 1];
    if r < HeightOf(front) {
      c := RowUsedBy(front, x, y, r);
    } else {
      c := RowUsed(ts[|ts| - 1], x + WidthOf(front), y, r);
    }
  }

  lemma {:induction false} ColumnUsed(t: Tree, x: nat, y: nat, k: nat) returns (r: nat)
    requires k < Width(t)
    ensures Coordinate(x + k, r) in Placed(t, x, y)
    decreases t
  {
    r := y;
    if t.children != [] {
      r := ColumnUsedBy(t.children, x, y + 1, k);
    }
  }

  lemma {:induction false} ColumnUsedBy(ts: seq<Tree>, x: nat, y: nat, k: nat) returns (r: nat)
    requires k < WidthOf(ts)
    ensures Coordinate(x + k, r) in PlacedRow(ts, x, y)
    decreases ts
  {
    var front := ts[..|ts| - 1];
    if k < WidthOf(front) {
      r := ColumnUsedBy(front, x, y, k);
    } else {
      r := ColumnUsed(ts[|ts| - 1], x + WidthOf(front), y, k - WidthOf(front));
    }
  }

  /** No two operators share a cell: there are as many cells as operators. */
  lemma {:induction false} OneCellEach(t: Tree, x: nat, y: nat)
    ensures |Placed(t, x, y)| == Size(t)
    decreases t
  {
    RowOneCellEach(t.children, x, y + 1);
    RowInside(t.children, x, y + 1);
    var row := PlacedRow(t.children, x, y + 1);
    DisjointSizes(row, map[Coordinate(x, y) := t]);
    assert Placed(t, x, y) == row + map[Coordinate(x, y) := t];
  }

  lemma {:induction false} RowOneCellEach(ts: seq<Tree>, x: nat, y: nat)
    ensures |PlacedRow(ts, x, y)| == SizeOf(ts)
    decreases ts
  {
    if ts != [] {
      var front, last := ts[..|ts| - 1], ts[|ts| - 1];
      RowOneCellEach(front, x, y);
      OneCellEach(last, x + WidthOf(front), y);
      RowInside(front, x, y);
      PlacedInside(last, x + WidthOf(front), y);
      SideBySide(PlacedRow(front, x, y), Placed(last, x + WidthOf(front), y), x + WidthOf(front));
    }
  }

  // What lies on either side of a column boundary shares no cell.
  lemma SideBySide(a: map<Coordinate, Tree>, b: map<Coordinate, Tree>, boundary: nat)
    requires forall c :: c in a ==> c.x < boundary
    requires forall c :: c in b ==> boundary <= c.x
    ensures |a + b| == |a| + |b|
  {
    DisjointSizes(a, b);
  }

  lemma DisjointSizes(a: map<Coordinate, Tree>, b: map<Coordinate, Tree>)
    requires a.Keys !! b.Keys
    ensures |a + b| == |a| + |b|
  {
    assert (a + b).Keys == a.Keys + b.Keys;
    assert |(a + b).Keys| == |a.Keys| + |b.Keys|;
    assert |a.Keys| == |a| && |b.Keys| == |b| && |(a + b).Keys| == |a + b|;
  }

  // ---------------------------------------------------------------- children

  /** The recorded child positions are those of the real children, left to right. */
  lemma {:induction false} ChildrenStandThere(ts: seq<Tree>, x: nat, y: nat, k: nat)
    requires k < |ts|
    ensures PositionsOf(ts, x, y)[k] == Coordinate(x + WidthOf(ts[..k]), y)
    ensures PositionsOf(ts, x, y)[k] in PlacedRow(ts, x, y)
    ensures PlacedRow(ts, x, y)[PositionsOf(ts, x, y)[k]] == ts[k]
    ensures WidthOf(ts[..k]) + Width(ts[k]) <= WidthOf(ts)
  {
    var front, last := ts[..|ts| - 1], ts[|ts| - 1];
    RowInside(front, x, y);
    PlacedInside(last, x + WidthOf(front), y);
    if k < |ts| - 1 {
      assert front[..k] == ts[..k];
      ChildrenStandThere(front, x, y, k);
    }
  }

  // Everything below some row inside a subtree's columns belongs to the subtree.
  lemma {:induction false} OwnColumns(t: Tree, x: nat, y: nat, q: Coordinate, c: Coordinate)
    requires q in Placed(t, x, y) && c in Placed(t, x, y)
    requires q.x <= c.x < q.x + Width(Placed(t, x, y)[q]) && c.y >= q.y
    ensures c in Placed(Placed(t, x, y)[q], q.x, q.y)
    ensures Placed(Placed(t, x, y)[q], q.x, q.y)[c] == Placed(t, x, y)[c]
    decreases t
  {
    RowInside(t.children, x, y + 1);
    if q != Coordinate(x, y) {
      RowOwnColumns(t.children, x, y + 1, q, c);
    }
  }

  lemma {:induction false} RowOwnColumns(ts: seq<Tree>, x: nat, y: nat, q: Coordinate, c: Coordinate)
    requires q in PlacedRow(ts, x, y) && c in PlacedRow(ts, x, y)
    requires q.x <= c.x < q.x + Width(PlacedRow(ts, x, y)[q]) && c.y >= q.y
    ensures c in Placed(PlacedRow(ts, x, y)[q], q.x, q.y)
    ensures Placed(PlacedRow(ts, x, y)[q], q.x, q.y)[c] == PlacedRow(ts, x, y)[c]
    decreases ts
  {
    var front, last := ts[..|ts| - 1], ts[|ts| - 1];
    var start := x + WidthOf(front);
    RowInside(front, x, y);
    PlacedInside(last, start, y);
    if q in Placed(last, start, y) {
      WithinColumns(last, start, y, q);
      OwnColumns(last, start, y, q, c);
    } else {
      RowWithinColumns(front, x, y, q);
      RowOwnColumns(front, x, y, q, c);
    }
  }

  // A placed operator's own columns lie inside the tree's.
  lemma {:induction false} WithinColumns(t: Tree, x: nat, y: nat, q: Coordinate)
    requires q in Placed(t, x, y)
    ensures q.x + Width(Placed(t, x, y)[q]) <= x + Width(t)
    decreases t
  {
    if q != Coordinate(x, y) {
      RowWithinColumns(t.children, x, y + 1, q);
    }
  }

  lemma {:induction false} RowWithinColumns(ts: seq<Tree>, x: nat, y: nat, q: Coordinate)
    requires q in PlacedRow(ts, x, y)
    ensures q.x + Width(PlacedRow(ts, x, y)[q]) <= x + WidthOf(ts)
    decreases ts
  {
    var front, last := ts[..|ts| - 1], ts[|ts| - 1];
    if q in Placed(last, x + WidthOf(front), y) {
      WithinColumns(last, x + WidthOf(front), y, q);
    } else {
      RowWithinColumns(front, x, y, q);
    }
  }

  /** Every operator but the root stands in a parent's row of children. */
  lemma {:induction false} ParentOf(t: Tree, x: nat, y: nat, c: Coordinate) returns (p: Coordinate, k: nat)
    requires c in Placed(t, x, y) && c != Coordinate(x, y)
    ensures p in Placed(t, x, y) && p.y + 1 == c.y
    ensures var q := Placed(t, x, y)[p];
            k < |q.children| && PositionsOf(q.children, p.x, p.y + 1)[k] == c
    decreases t
  {
    RowInside(t.children, x, y + 1);
    var top;
    p, k, top := RowParentOf(t.children, x, y + 1, c);
    if top {
      p := Coordinate(x, y);
    }
  }

  // Either a tree of the row itself, or with a parent in one of them.
  lemma {:induction false} RowParentOf(ts: seq<Tree>, x: nat, y: nat, c: Coordinate)
    returns (p: Coordinate, k: nat, top: bool)
    requires c in PlacedRow(ts, x, y)
    ensures top ==> k < |ts| && PositionsOf(ts, x, y)[k] == c
    ensures !top ==> p in PlacedRow(ts, x, y) && p.y + 1 == c.y
    ensures !top ==> var q := PlacedRow(ts, x, y)[p];
                     k < |q.children| && PositionsOf(q.children, p.x, p.y + 1)[k] == c
    decreases ts
  {
    var front, last := ts[..|ts| - 1], ts[|ts| - 1];
    var start := x + WidthOf(front);
    RowInside(front, x, y);
    PlacedInside(last, start, y);
    p, k, top := c, |ts| - 1, true;
    if c == Coordinate(start, y) {
    } else if c in Placed(last, start, y) {
      p, k := ParentOf(last, start, y, c);
      top := false;
    } else {
      p, k, top := RowParentOf(front, x, y, c);
    }
  }

  // ---------------------------------------------------------------- the grid

  function PositionIn(width: nat, x: nat, y: nat): int {
    y * width + x
  }

  lemma PositionInjective(width: nat, x: nat, y: nat, x': nat, y': nat)
    requires x < width && x' < width
    ensures PositionIn(width, x, y) == PositionIn(width, x', y') <==> x == x' && y == y'
  {
    if y < y' {
      assert y' * width >= (y + 1) * width == y * width + width;
    } else if y' < y {
      assert y * width >= (y' + 1) * width == y' * width + width;
    }
  }

  lemma PositionInBounds(width: nat, height: nat, x: nat, y: nat)
    requires x < width && y < height
    ensures 0 <= PositionIn(width, x, y) < (width + 1) * (height + 1)
  {
    assert (y + 1) * width <= height * width;
    assert (width + 1) * (height + 1) == width * height + width + height + 1;
  }

  class Grid {
    const nodes: array<Option<RenderTreeNode>>
    const width: nat
    const height: nat

    ghost predicate Valid() {
      nodes.Length == (width + 1) * (height + 1)
    }

    constructor (width: nat, height: nat)
      ensures Valid() && fresh(nodes) && this.width == width && this.height == height
      ensures forall c :: NodeAt(c) == None
    {
      this.width := width;
      this.height := height;
      assert (width + 1) * (height + 1) >= 0;
      nodes := new Option<RenderTreeNode>[(width + 1) * (height + 1)](_ => None);
    }

    function GetNode(x: nat, y: nat): Option<RenderTreeNode>
      reads nodes
    {
      if x >= width || y >= height then None
      else
        var pos := PositionIn(width, x, y);
        if 0 <= pos < nodes.Length then nodes[pos] else None
    }

    ghost function NodeAt(c: Coordinate): Option<RenderTreeNode>
      reads nodes
    {
      GetNode(c.x, c.y)
    }

    predicate HasNode(x: nat, y: nat)
      reads nodes
    {
      GetNode(x, y).Some?
    }

    // A write outside the storage is ignored; inside the grid it changes its own cell.
    method SetNode(x: nat, y: nat, node: RenderTreeNode)
      requires Valid()
      modifies nodes
      ensures forall i :: 0 <= i < nodes.Length ==>
                nodes[i] == if i == PositionIn(width, x, y) then Some(node) else old(nodes[i])
      ensures x < width && y < height ==>
                forall c :: NodeAt(c) == if c == Coordinate(x, y) then Some(node) else old(NodeAt(c))
    {
      if x < width && y < height {
        PositionInBounds(width, height, x, y);
        forall x': nat, y': nat | x' < width
          ensures PositionIn(width, x', y') == PositionIn(width, x, y) <==> x' == x && y' == y
        {
          PositionInjective(width, x', y', x, y);
        }
      }
      var pos := PositionIn(width, x, y);
      if 0 <= pos < nodes.Length {
        nodes[pos] := Some(node);
      }
    }
  }

  // The nodes of a layout, cell by cell.
  function Nodes(t: Tree, x: nat, y: nat): map<Coordinate, RenderTreeNode>
    decreases t
  {
    NodesOfRow(t.children, x, y + 1)[Coordinate(x, y) := NodeOf(t, Coordinate(x, y))]
  }

  function NodesOfRow(ts: seq<Tree>, x: nat, y: nat): map<Coordinate, RenderTreeNode>
    decreases ts
  {
    if ts == [] then map[]
    else
      var front := ts[..|ts| - 1];
      NodesOfRow(front, x, y) + Nodes(ts[|ts| - 1], x + WidthOf(front), y)
  }

  lemma {:induction false} NodesArePlaced(t: Tree, x: nat, y: nat)
    ensures Nodes(t, x, y).Keys == Placed(t, x, y).Keys
    ensures forall c :: c in Placed(t, x, y) ==> Nodes(t, x, y)[c] == NodeOf(Placed(t, x, y)[c], c)
    decreases t
  {
    RowNodesArePlaced(t.children, x, y + 1);
  }

  lemma {:induction false} RowNodesArePlaced(ts: seq<Tree>, x: nat, y: nat)
    ensures NodesOfRow(ts, x, y).Keys == PlacedRow(ts, x, y).Keys
    ensures forall c :: c in PlacedRow(ts, x, y) ==> NodesOfRow(ts, x, y)[c] == NodeOf(PlacedRow(ts, x, y)[c], c)
    decreases ts
  {
    if ts != [] {
      RowNodesArePlaced(ts[..|ts| - 1], x, y);
      NodesArePlaced(ts[|ts| - 1], x + WidthOf(ts[..|ts| - 1]), y);
    }
  }

  // A cell shows its node in `cells`, and `otherwise` outside them.
  ghost predicate Shows(node: Option<RenderTreeNode>, cells: map<Coordinate, RenderTreeNode>, c: Coordinate,
                        otherwise: Option<RenderTreeNode>)
  {
    node == if c in cells then Some(cells[c]) else otherwise
  }

  method TreeWidthHeight(t: Tree) returns (width: nat, height: nat)
    ensures width == Width(t) && height == Height(t)
    decreases t
  {
    if t.children == [] {
      return 1, 1;
    }
    width, height := 0, 0;
    for i := 0 to |t.children|
      invariant width == WidthOf(t.children[..i]) && height == HeightOf(t.children[..i])
    {
      assert t.children[..i + 1][..i] == t.children[..i];
      var w, h := TreeWidthHeight(t.children[i]);
      width, height := width + w, Max(height, h);
    }
    assert t.children[..|t.children|] == t.children;
    height := height + 1;
  }

  /** Lays the subtree out from (x, y): its cells are written, nothing else is, and the
      width returned is the measured one. */
  method CreateTreeRecursive(result: Grid, t: Tree, x: nat, y: nat) returns (width: nat)
    requires result.Valid() && x + Width(t) <= result.width && y + Height(t) <= result.height
    modifies result.nodes
    ensures width == Width(t)
    ensures forall c :: Shows(result.NodeAt(c), Nodes(t, x, y), c, old(result.NodeAt(c)))
    decreases t
  {
    if t.children == [] {
      result.SetNode(x, y, RenderTreeNode(t.name, t.info, []));
      return 1;
    }
    var positions;
    width, positions := CreateChildren(result, t.children, x, y + 1);
    result.SetNode(x, y, RenderTreeNode(t.name, t.info, positions));
  }

  lemma EmptyRow(x: nat, y: nat)
    ensures WidthOf([]) == 0 && PositionsOf([], x, y) == [] && NodesOfRow([], x, y) == map[]
  {
  }

  lemma RowPush(ts: seq<Tree>, i: nat, x: nat, y: nat)
    requires i < |ts|
    ensures var front := ts[..i];
            && WidthOf(ts[..i + 1]) == WidthOf(front) + Width(ts[i])
            && PositionsOf(ts[..i + 1], x, y) == PositionsOf(front, x, y) + [Coordinate(x + WidthOf(front), y)]
            && NodesOfRow(ts[..i + 1], x, y) == NodesOfRow(front, x, y) + Nodes(ts[i], x + WidthOf(front), y)
  {
    assert ts[..i + 1][..i] == ts[..i];
  }

  // The loop over an operator's children, left to right.
  method CreateChildren(result: Grid, children: seq<Tree>, x: nat, y: nat)
    returns (width: nat, positions: seq<Coordinate>)
    requires result.Valid() && x + WidthOf(children) <= result.width && y + HeightOf(children) <= result.height
    modifies result.nodes
    ensures width == WidthOf(children) && positions == PositionsOf(children, x, y)
    ensures forall c :: Shows(result.NodeAt(c), NodesOfRow(children, x, y), c, old(result.NodeAt(c)))
    decreases children
  {
    hide Nodes, NodesOfRow, WidthOf, HeightOf, PositionsOf, Width, Height;
    width, positions := 0, [];
    ghost var cells: map<Coordinate, RenderTreeNode> := map[];
    assert children[..0] == [];
    EmptyRow(x, y);
    for i := 0 to |children|
      invariant width == WidthOf(children[..i]) && positions == PositionsOf(children[..i], x, y)
      invariant cells == NodesOfRow(children[..i], x, y)
      invariant forall c :: Shows(result.NodeAt(c), cells, c, old(result.NodeAt(c)))
    {
      RowPush(children, i, x, y);
      ChildFits(children, i);
      positions := positions + [Coordinate(x + width, y)];
      var w := CreateTreeRecursive(result, children[i], x + width, y);
      cells := cells + Nodes(children[i], x + width, y);
      width := width + w;
    }
    assert children[..|children|] == children;
  }

  lemma {:induction false} ChildFits(ts: seq<Tree>, k: nat)
    requires k < |ts|
    ensures WidthOf(ts[..k]) + Width(ts[k]) <= WidthOf(ts) && Height(ts[k]) <= HeightOf(ts)
  {
    if k < |ts| - 1 {
      assert ts[..|ts| - 1][..k] == ts[..k];
      ChildFits(ts[..|ts| - 1], k);
    }
  }

  type Cells = map<Coordinate, Tree>

  // The layout of a whole tree, from the corner.
  ghost predicate LaidOut(t: Tree, cells: Cells) {
    cells == Placed(t, 0, 0)
  }

  // The grid holds these cells' nodes and nothing else.
  ghost predicate Renders(g: Grid, cells: Cells)
    reads g.nodes
  {
    forall c {:trigger g.NodeAt(c)} :: g.NodeAt(c) == if c in cells then Some(NodeOf(cells[c], c)) else None
  }

  method CreateTree(t: Tree) returns (g: Grid)
    ensures fresh(g) && fresh(g.nodes)
    ensures g.width == Width(t) && g.height == Height(t) && Renders(g, Placed(t, 0, 0))
  {
    var width, height := TreeWidthHeight(t);
    g := new Grid(width, height);
    var w := CreateTreeRecursive(g, t, 0, 0);
    NodesArePlaced(t, 0, 0);
  }
}
