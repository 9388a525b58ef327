/** The lines of a drawn tree. Each line of a level reads as one 29-column piece per grid
    column, although blank tails are left out. */
module TreeText {
  import opened Results
  import opened RenderTree
  import opened LineWrap
  import opened TreeRender

  // ---------------------------------------------------------------- pieces

  function CharAt(line: string, k: nat): char {
    if k < |line| then line[k] else ' '
  }

  predicate Blank(piece: string) {
    forall k :: 0 <= k < |piece| ==> piece[k] == ' '
  }

  function Spaces(n: nat): (s: string)
    ensures |s| == n && Blank(s)
  {
    Repeat(' ', n)
  }

  // What one grid column of a line shows, 29 text columns wide.
  datatype Piece =
    | Gap
    | BoxTop(junction: bool)
    | BoxRow(text: string, branches: bool)
    | BoxBottom(junction: bool)
    | Drop
    | Line
    | Branch
    | Corner

  // Twenty-nine characters: one at each end, one in the middle, and two runs between.
  function Bar(first: char, left: char, middle: char, right: char, last: char): (s: string)
    ensures |s| == NODE_RENDER_WIDTH
    ensures s[0] == first && s[HALF] == middle && s[NODE_RENDER_WIDTH - 1] == last
    ensures forall k :: 0 < k < HALF ==> s[k] == left
    ensures forall k :: HALF < k < NODE_RENDER_WIDTH - 1 ==> s[k] == right
  {
    [first] + Repeat(left, HALF - 1) + [middle] + Repeat(right, HALF - 1) + [last]
  }

  function Text(p: Piece): (s: string)
    ensures |s| == NODE_RENDER_WIDTH
  {
    match p
    case Gap => Bar(' ', ' ', ' ', ' ', ' ')
    case BoxTop(junction) => Bar(LTCORNER, HORIZONTAL, if junction then DMIDDLE else HORIZONTAL, HORIZONTAL, RTCORNER)
    case BoxRow(text, branches) =>
      [VERTICAL] + AdjustText(text, NODE_RENDER_WIDTH - 2) + [if branches then LMIDDLE else VERTICAL]
    case BoxBottom(junction) =>
      Bar(LDCORNER, HORIZONTAL, if junction then TMIDDLE else HORIZONTAL, HORIZONTAL, RDCORNER)
    case Drop => Bar(' ', ' ', VERTICAL, ' ', ' ')
    case Line => Bar(HORIZONTAL, HORIZONTAL, HORIZONTAL, HORIZONTAL, HORIZONTAL)
    case Branch => Bar(HORIZONTAL, HORIZONTAL, TMIDDLE, HORIZONTAL, HORIZONTAL)
    case Corner => Bar(HORIZONTAL, HORIZONTAL, RTCORNER, ' ', ' ')
  }

  lemma GapIsBlank()
    ensures Blank(Text(Gap)) && Text(Gap) == Spaces(NODE_RENDER_WIDTH)
  {
  }

  // Column `x` of the line, and what is past its end, reads as the piece.
  ghost predicate ShownAt(line: string, x: nat, piece: Piece) {
    forall k :: 0 <= k < NODE_RENDER_WIDTH ==> CharAt(line, NODE_RENDER_WIDTH * x + k) == Text(piece)[k]
  }

  predicate BlankFrom(pieces: seq<Piece>, x: nat) {
    forall i :: x <= i < |pieces| ==> pieces[i] == Gap
  }

  // The first `x` pieces are written, in full unless only gaps remain.
  ghost predicate Aligned(line: string, pieces: seq<Piece>, x: nat) {
    && x <= |pieces| && |line| <= NODE_RENDER_WIDTH * x
    && (forall i :: 0 <= i < x ==> ShownAt(line, i, pieces[i]))
    && (|line| == NODE_RENDER_WIDTH * x || BlankFrom(pieces, x))
  }

  // The columns that start within the maximum width; 0 means no maximum.
  function Visible(columns: nat, max: nat): nat {
    if max == 0 then columns
    else
      var fit := (max + NODE_RENDER_WIDTH - 1) / NODE_RENDER_WIDTH;
      if fit < columns then fit else columns
  }

  ghost predicate Reads(line: string, pieces: seq<Piece>, max: nat) {
    Aligned(line, pieces, Visible(|pieces|, max))
  }

  // What one column writes: its piece, whose blank end may be missing when only gaps
  // follow, and nothing at all when it is a gap itself.
  ghost predicate Writes(out: string, piece: Piece, more: bool) {
    && |out| <= NODE_RENDER_WIDTH && ShownAt(out, 0, piece)
    && (more ==> |out| == NODE_RENDER_WIDTH)
    && (piece == Gap && !more ==> out == "")
  }

  // A piece written but for a blank end.
  lemma Cut(out: string, piece: Piece)
    requires |out| <= NODE_RENDER_WIDTH && out == Text(piece)[..|out|] && Blank(Text(piece)[|out|..])
    ensures ShownAt(out, 0, piece)
  {
    forall k | 0 <= k < NODE_RENDER_WIDTH ensures CharAt(out, NODE_RENDER_WIDTH * 0 + k) == Text(piece)[k] {
      if k >= |out| {
        assert Text(piece)[|out|..][k - |out|] == ' ';
      }
    }
  }

  // What is appended past a column leaves it as it was.
  lemma StillShown(line: string, out: string, x: nat, i: nat, piece: Piece)
    requires |line| == NODE_RENDER_WIDTH * x && i < x && ShownAt(line, i, piece)
    ensures ShownAt(line + out, i, piece)
  {
    forall k | 0 <= k < NODE_RENDER_WIDTH ensures CharAt(line + out, NODE_RENDER_WIDTH * i + k) == Text(piece)[k] {
      assert CharAt(line, NODE_RENDER_WIDTH * i + k) == Text(piece)[k];
    }
  }

  lemma NowShown(line: string, out: string, x: nat, piece: Piece)
    requires |line| == NODE_RENDER_WIDTH * x && ShownAt(out, 0, piece)
    ensures ShownAt(line + out, x, piece)
  {
    forall k | 0 <= k < NODE_RENDER_WIDTH ensures CharAt(line + out, NODE_RENDER_WIDTH * x + k) == Text(piece)[k] {
      assert CharAt(out, NODE_RENDER_WIDTH * 0 + k) == Text(piece)[k];
    }
  }

  lemma Extend(line: string, pieces: seq<Piece>, x: nat, out: string)
    requires x < |pieces| && Aligned(line, pieces, x) && Writes(out, pieces[x], !BlankFrom(pieces, x + 1))
    ensures Aligned(line + out, pieces, x + 1)
  {
    if |line| == NODE_RENDER_WIDTH * x {
      forall i | 0 <= i < x ensures ShownAt(line + out, i, pieces[i]) {
        StillShown(line, out, x, i, pieces[i]);
      }
      NowShown(line, out, x, pieces[x]);
    } else {
      assert pieces[x] == Gap;
      assert line + out == line;
      GapIsBlank();
    }
  }

  // ---------------------------------------------------------------- what each column shows

  function TopPiece(cells: Cells, x: nat, y: nat): Piece {
    if Has(cells, x, y) then BoxTop(y > 0) else Gap
  }

  function BottomPiece(cells: Cells, x: nat, y: nat): Piece {
    if Has(cells, x, y) then BoxBottom(HasBelow(cells, x, y)) else if HasBelow(cells, x, y) then Drop else Gap
  }

  // Where a content line is: above, on or below the line the connections branch off at.
  datatype Height = Above | Halfway | Under

  function HeightAt(row: nat, halfway: nat): Height {
    if row < halfway then Above else if row == halfway then Halfway else Under
  }

  ghost function ContentPiece(cells: Cells, x: nat, y: nat, at: Height, text: string): Piece {
    if Has(cells, x, y) then BoxRow(text, at.Halfway? && |cells[Coordinate(x, y)].children| > 1)
    else match at
      case Above => Gap
      case Halfway =>
        if HasBelow(cells, x, y) then (if ChildToTheRight(cells, x, y) then Branch else Corner)
        else if ChildToTheRight(cells, x, y) then Line else Gap
      case Under => if HasBelow(cells, x, y) then Drop else Gap
  }

  function TopPieces(cells: Cells, y: nat, n: nat): (pieces: seq<Piece>)
    ensures |pieces| == n
  {
    if n == 0 then [] else TopPieces(cells, y, n - 1) + [TopPiece(cells, n - 1, y)]
  }

  lemma {:induction false} TopPiecesAt(cells: Cells, y: nat, n: nat, x: nat)
    requires x < n
    ensures TopPieces(cells, y, n)[x] == TopPiece(cells, x, y)
  {
    if x < n - 1 {
      TopPiecesAt(cells, y, n - 1, x);
    }
  }

  function BottomPieces(cells: Cells, y: nat, n: nat): (pieces: seq<Piece>)
    ensures |pieces| == n
  {
    if n == 0 then [] else BottomPieces(cells, y, n - 1) + [BottomPiece(cells, n - 1, y)]
  }

  lemma {:induction false} BottomPiecesAt(cells: Cells, y: nat, n: nat, x: nat)
    requires x < n
    ensures BottomPieces(cells, y, n)[x] == BottomPiece(cells, x, y)
  {
    if x < n - 1 {
      BottomPiecesAt(cells, y, n - 1, x);
    }
  }

  ghost function ContentPieces(cells: Cells, y: nat, at: Height, texts: seq<string>, n: nat): (pieces: seq<Piece>)
    requires n <= |texts|
    ensures |pieces| == n
  {
    if n == 0 then [] else ContentPieces(cells, y, at, texts, n - 1) + [ContentPiece(cells, n - 1, y, at, texts[n - 1])]
  }

  lemma {:induction false} ContentPiecesAt(cells: Cells, y: nat, at: Height, texts: seq<string>, n: nat, x: nat)
    requires x < n <= |texts|
    ensures ContentPieces(cells, y, at, texts, n)[x] == ContentPiece(cells, x, y, at, texts[x])
  {
    if x < n - 1 {
      ContentPiecesAt(cells, y, at, texts, n - 1, x);
    }
  }

  // ---------------------------------------------------------------- what is still to come

  // Something stands in this row, or hangs below it, from column x on.
  ghost predicate Busy(cells: Cells, x: nat, y: nat, below: bool) {
    exists c :: c >= x && (Has(cells, c, y) || (below && HasBelow(cells, c, y)))
  }

  lemma InColumns(t: Tree, cells: Cells, x: nat, y: nat)
    requires LaidOut(t, cells) && Has(cells, x, y)
    ensures x < RenderTree.Width(t) && y < RenderTree.Height(t)
  {
    PlacedInside(t, 0, 0);
  }

  lemma ChildStandsRight(t: Tree, cells: Cells, x: nat, y: nat)
    requires LaidOut(t, cells) && ChildToTheRight(cells, x, y)
    ensures exists c :: c > x && HasBelow(cells, c, y)
  {
    var p, c :| p in cells && p.y == y && p.x <= x < c && EmptyIn(cells, p.x + 1, x, y) && c in ColumnsBelow(cells, p);
    ChildrenAreThere(t, cells, p, c);
    assert HasBelow(cells, c, y);
  }

  // With nothing right of x in its row, a child to the right is all that can follow.
  lemma ParentReachesOver(t: Tree, cells: Cells, x: nat, y: nat, c: nat)
    requires LaidOut(t, cells) && c > x && HasBelow(cells, c, y) && forall i :: i >= x ==> !Has(cells, i, y)
    ensures ChildToTheRight(cells, x, y)
  {
    var p := ParentToTheLeft(t, cells, c, y);
    assert Has(cells, p.x, p.y);
    assert EmptyIn(cells, p.x + 1, x, y);
  }

  /** An empty cell is padded exactly when something is still to come on its right, in its
      row or below it. */
  lemma PaddedIffMore(t: Tree, cells: Cells, x: nat, y: nat)
    requires LaidOut(t, cells) && !Has(cells, x, y)
    ensures (exists c :: c >= x && Has(cells, c, y)) || ChildToTheRight(cells, x, y) <==> Busy(cells, x + 1, y, true)
  {
    if ChildToTheRight(cells, x, y) {
      ChildStandsRight(t, cells, x, y);
    }
    if Busy(cells, x + 1, y, true) && !exists c :: c >= x && Has(cells, c, y) {
      var c :| c >= x + 1 && HasBelow(cells, c, y);
      ParentReachesOver(t, cells, x, y, c);
    }
  }

  lemma TopBlankFrom(t: Tree, cells: Cells, y: nat, n: nat, x: nat)
    requires LaidOut(t, cells) && n >= RenderTree.Width(t)
    ensures BlankFrom(TopPieces(cells, y, n), x) <==> !Busy(cells, x, y, false)
  {
    var pieces := TopPieces(cells, y, n);
    forall i | 0 <= i < n ensures pieces[i] == Gap <==> !Has(cells, i, y) {
      TopPiecesAt(cells, y, n, i);
    }
    if Busy(cells, x, y, false) {
      var c :| c >= x && Has(cells, c, y);
      InColumns(t, cells, c, y);
      assert pieces[c] != Gap;
    }
  }

  lemma BottomBlankFrom(t: Tree, cells: Cells, y: nat, n: nat, x: nat)
    requires LaidOut(t, cells) && n >= RenderTree.Width(t)
    ensures BlankFrom(BottomPieces(cells, y, n), x) <==> !Busy(cells, x, y, true)
  {
    var pieces := BottomPieces(cells, y, n);
    forall i | 0 <= i < n ensures pieces[i] == Gap <==> !Has(cells, i, y) && !HasBelow(cells, i, y) {
      BottomPiecesAt(cells, y, n, i);
    }
    if Busy(cells, x, y, true) {
      var c :| c >= x && (Has(cells, c, y) || HasBelow(cells, c, y));
      InColumns(t, cells, c, if Has(cells, c, y) then y else y + 1);
      assert pieces[c] != Gap;
    }
  }

  // A content line shows something in column i.
  ghost predicate Marked(cells: Cells, i: nat, y: nat, at: Height) {
    Has(cells, i, y) || (!at.Above? && HasBelow(cells, i, y)) || (at.Halfway? && ChildToTheRight(cells, i, y))
  }

  lemma ContentBlankFrom(t: Tree, cells: Cells, y: nat, at: Height, texts: seq<string>, n: nat, x: nat)
    requires LaidOut(t, cells) && RenderTree.Width(t) <= n <= |texts|
    ensures BlankFrom(ContentPieces(cells, y, at, texts, n), x) <==> !Busy(cells, x, y, !at.Above?)
  {
    var pieces := ContentPieces(cells, y, at, texts, n);
    forall i | 0 <= i < n ensures pieces[i] == Gap <==> !Marked(cells, i, y, at) {
      ContentPiecesAt(cells, y, at, texts, n, i);
    }
    if Busy(cells, x, y, !at.Above?) {
      var c :| c >= x && (Has(cells, c, y) || (!at.Above? && HasBelow(cells, c, y)));
      InColumns(t, cells, c, if Has(cells, c, y) then y else y + 1);
      assert pieces[c] != Gap by { assert Marked(cells, c, y, at); }
    }
    if !BlankFrom(pieces, x) {
      var i :| x <= i < |pieces| && pieces[i] != Gap;
      if at.Halfway? && ChildToTheRight(cells, i, y) {
        ChildStandsRight(t, cells, i, y);
      }
    }
  }

  // ---------------------------------------------------------------- writing the columns

  // The grid being drawn is this tree's layout.
  ghost predicate Draws(root: Grid, t: Tree, cells: Cells)
    reads root.nodes
  {
    LaidOut(t, cells) && Renders(root, cells) && root.width == RenderTree.Width(t)
  }

  method HasAdjacent(root: Grid, x: nat, y: nat, ghost t: Tree, ghost cells: Cells) returns (r: bool)
    requires Draws(root, t, cells) && x <= root.width
    ensures r <==> Busy(cells, x, y, false)
  {
    r := false;
    for i := 0 to root.width - x
      invariant r <==> exists c :: x <= c < x + i && Has(cells, c, y)
    {
      GridShows(root, cells, x + i, y);
      var here := root.HasNode(x + i, y);
      r := r || here;
    }
    if Busy(cells, x, y, false) {
      var c :| c >= x && Has(cells, c, y);
      InColumns(t, cells, c, y);
    }
  }

  method TopColumn(root: Grid, x: nat, y: nat, ghost t: Tree, ghost cells: Cells) returns (out: string)
    requires Draws(root, t, cells) && x < root.width
    ensures Writes(out, TopPiece(cells, x, y), Busy(cells, x + 1, y, false))
  {
    GridShows(root, cells, x, y);
    if root.HasNode(x, y) {
      out := [LTCORNER] + Repeat(HORIZONTAL, NODE_RENDER_WIDTH / 2 - 1);
      if y == 0 {
        out := out + [HORIZONTAL];
      } else {
        out := out + [DMIDDLE];
      }
      out := out + Repeat(HORIZONTAL, NODE_RENDER_WIDTH / 2 - 1) + [RTCORNER];
      assert out == Text(BoxTop(y > 0));
      Cut(out, BoxTop(y > 0));
    } else {
      var adjacent := HasAdjacent(root, x, y, t, cells);
      out := GapColumn(adjacent);
    }
  }

  // A blank column, written only to keep what follows in place.
  method GapColumn(needed: bool) returns (out: string)
    ensures Writes(out, Gap, needed) && (!needed ==> out == "")
  {
    out := if needed then Repeat(' ', NODE_RENDER_WIDTH) else "";
    GapIsBlank();
    Cut(out, Gap);
  }

  // A connection dropping through an empty cell.
  method DropColumn(padded: bool) returns (out: string)
    ensures Writes(out, Drop, padded)
  {
    out := Repeat(' ', NODE_RENDER_WIDTH / 2) + [VERTICAL];
    if padded {
      out := out + Repeat(' ', NODE_RENDER_WIDTH / 2);
    }
    assert Text(Drop) == Spaces(HALF) + [VERTICAL] + Spaces(HALF);
    Cut(out, Drop);
  }

  method BottomColumn(root: Grid, x: nat, y: nat, ghost t: Tree, ghost cells: Cells) returns (out: string)
    requires Draws(root, t, cells) && x <= root.width
    ensures Writes(out, BottomPiece(cells, x, y), Busy(cells, x + 1, y, true))
  {
    GridShows(root, cells, x, y);
    GridShows(root, cells, x, y + 1);
    var adjacent := HasAdjacent(root, x, y, t, cells);
    if root.GetNode(x, y).Some? {
      out := [LDCORNER] + Repeat(HORIZONTAL, NODE_RENDER_WIDTH / 2 - 1);
      if root.HasNode(x, y + 1) {
        out := out + [TMIDDLE];
      } else {
        out := out + [HORIZONTAL];
      }
      out := out + Repeat(HORIZONTAL, NODE_RENDER_WIDTH / 2 - 1) + [RDCORNER];
      assert out == Text(BoxBottom(HasBelow(cells, x, y)));
      Cut(out, BoxBottom(HasBelow(cells, x, y)));
    } else {
      PaddedIffMore(t, cells, x, y);
      out := SpaceUnder(root, x, y, adjacent, t, cells);
    }
  }

  // An empty cell under the halfway line, or on a bottom line.
  method SpaceUnder(root: Grid, x: nat, y: nat, adjacent: bool, ghost t: Tree, ghost cells: Cells) returns (out: string)
    requires Draws(root, t, cells) && !Has(cells, x, y)
    requires adjacent || ChildToTheRight(cells, x, y) <==> Busy(cells, x + 1, y, true)
    ensures Writes(out, if HasBelow(cells, x, y) then Drop else Gap, Busy(cells, x + 1, y, true))
  {
    GridShows(root, cells, x, y + 1);
    var whitespace := adjacent;
    if !adjacent {
      whitespace := ShouldRenderWhitespace(root, x, y, t, cells);
    }
    if root.HasNode(x, y + 1) {
      out := DropColumn(whitespace);
    } else {
      out := GapColumn(whitespace);
    }
  }

  method ContentColumn(root: Grid, x: nat, y: nat, row: nat, halfway: nat, text: string, ghost t: Tree,
                       ghost cells: Cells)
    returns (out: string)
    requires Draws(root, t, cells) && x < root.width
    ensures var at := HeightAt(row, halfway);
            Writes(out, ContentPiece(cells, x, y, at, text), Busy(cells, x + 1, y, !at.Above?))
  {
    GridShows(root, cells, x, y);
    GridShows(root, cells, x, y + 1);
    var adjacent := HasAdjacent(root, x, y, t, cells);
    var node := root.GetNode(x, y);
    if node.Some? {
      out := [VERTICAL] + AdjustText(text, NODE_RENDER_WIDTH - 2);
      var branches := row == halfway && |node.value.childPositions| > 1;
      if branches {
        out := out + [LMIDDLE];
      } else {
        out := out + [VERTICAL];
      }
      assert out == Text(BoxRow(text, branches));
      Cut(out, BoxRow(text, branches));
    } else {
      out := EmptyColumn(root, x, y, row, halfway, text, adjacent, t, cells);
    }
  }

  // A cell without an operator may carry the connections of its neighbours.
  method EmptyColumn(root: Grid, x: nat, y: nat, row: nat, halfway: nat, ghost text: string, adjacent: bool,
                     ghost t: Tree, ghost cells: Cells)
    returns (out: string)
    requires Draws(root, t, cells) && x < root.width && !Has(cells, x, y) && adjacent == Busy(cells, x, y, false)
    ensures var at := HeightAt(row, halfway);
            Writes(out, ContentPiece(cells, x, y, at, text), Busy(cells, x + 1, y, !at.Above?))
  {
    PaddedIffMore(t, cells, x, y);
    if row == halfway {
      out := HalfwayColumn(root, x, y, adjacent, t, cells);
    } else if row >= halfway {
      out := SpaceUnder(root, x, y, adjacent, t, cells);
    } else {
      out := GapColumn(adjacent);
    }
  }

  // An empty cell on the halfway line carries the horizontal connections.
  method HalfwayColumn(root: Grid, x: nat, y: nat, adjacent: bool, ghost t: Tree, ghost cells: Cells)
    returns (out: string)
    requires Draws(root, t, cells) && !Has(cells, x, y)
    requires adjacent || ChildToTheRight(cells, x, y) <==> Busy(cells, x + 1, y, true)
    ensures Writes(out, ContentPiece(cells, x, y, Halfway, ""), Busy(cells, x + 1, y, true))
  {
    GridShows(root, cells, x, y + 1);
    var childRight := ShouldRenderWhitespace(root, x, y, t, cells);
    if root.HasNode(x, y + 1) {
      out := Repeat(HORIZONTAL, NODE_RENDER_WIDTH / 2);
      if childRight {
        out := out + [TMIDDLE] + Repeat(HORIZONTAL, NODE_RENDER_WIDTH / 2);
        assert out == Text(Branch);
        Cut(out, Branch);
      } else {
        out := CornerColumn(out, adjacent);
      }
    } else if childRight {
      out := Repeat(HORIZONTAL, NODE_RENDER_WIDTH);
      assert out == Text(Line);
      Cut(out, Line);
    } else {
      out := GapColumn(adjacent);
    }
  }

  // The last child's corner.
  method CornerColumn(before: string, padded: bool) returns (out: string)
    requires before == Repeat(HORIZONTAL, HALF)
    ensures Writes(out, Corner, padded)
  {
    out := before + [RTCORNER];
    if padded {
      out := out + Repeat(' ', NODE_RENDER_WIDTH / 2);
    }
    assert Text(Corner) == before + [RTCORNER] + Spaces(HALF);
    Cut(out, Corner);
  }

  // ---------------------------------------------------------------- writing the lines

  lemma StopsAt(columns: nat, max: nat, x: nat)
    requires x <= columns && (x == columns || (max > 0 && x * NODE_RENDER_WIDTH >= max))
    requires x == 0 || max == 0 || (x - 1) * NODE_RENDER_WIDTH < max
    ensures Visible(columns, max) == x
  {
  }

  method AddTopColumn(root: Grid, line: string, x: nat, y: nat, ghost t: Tree, ghost cells: Cells)
    returns (longer: string)
    requires Draws(root, t, cells) && x < root.width && Aligned(line, TopPieces(cells, y, root.width), x)
    ensures Aligned(longer, TopPieces(cells, y, root.width), x + 1)
  {
    var out := TopColumn(root, x, y, t, cells);
    TopBlankFrom(t, cells, y, root.width, x + 1);
    TopPiecesAt(cells, y, root.width, x);
    Extend(line, TopPieces(cells, y, root.width), x, out);
    longer := line + out;
  }

  method RenderTopLayer(root: Grid, y: nat, max: nat, ghost t: Tree, ghost cells: Cells) returns (line: string)
    requires Draws(root, t, cells)
    ensures Reads(line, TopPieces(cells, y, root.width), max)
  {
    line := "";
    var x := 0;
    while x < root.width
      invariant x <= root.width && (x == 0 || max == 0 || (x - 1) * NODE_RENDER_WIDTH < max)
      invariant Aligned(line, TopPieces(cells, y, root.width), x)
    {
      if max > 0 && x * NODE_RENDER_WIDTH >= max {
        break;
      }
      line := AddTopColumn(root, line, x, y, t, cells);
      x := x + 1;
    }
    StopsAt(root.width, max, x);
  }

  method AddBottomColumn(root: Grid, line: string, x: nat, y: nat, ghost t: Tree, ghost cells: Cells)
    returns (longer: string)
    requires Draws(root, t, cells) && x <= root.width && Aligned(line, BottomPieces(cells, y, root.width + 1), x)
    ensures Aligned(longer, BottomPieces(cells, y, root.width + 1), x + 1)
  {
    var out := BottomColumn(root, x, y, t, cells);
    BottomBlankFrom(t, cells, y, root.width + 1, x + 1);
    BottomPiecesAt(cells, y, root.width + 1, x);
    Extend(line, BottomPieces(cells, y, root.width + 1), x, out);
    longer := line + out;
  }

  // One column more than the grid has is visited; nothing is written there.
  method RenderBottomLayer(root: Grid, y: nat, max: nat, ghost t: Tree, ghost cells: Cells) returns (line: string)
    requires Draws(root, t, cells)
    ensures Reads(line, BottomPieces(cells, y, root.width + 1), max)
  {
    line := "";
    var x := 0;
    while x < root.width + 1
      invariant x <= root.width + 1 && (x == 0 || max == 0 || (x - 1) * NODE_RENDER_WIDTH < max)
      invariant Aligned(line, BottomPieces(cells, y, root.width + 1), x)
    {
      if max > 0 && x * NODE_RENDER_WIDTH >= max {
        break;
      }
      line := AddBottomColumn(root, line, x, y, t, cells);
      x := x + 1;
    }
    StopsAt(root.width + 1, max, x);
  }

  method AddContentColumn(root: Grid, line: string, x: nat, y: nat, row: nat, halfway: nat, texts: seq<string>,
                          ghost t: Tree, ghost cells: Cells) returns (longer: string)
    requires Draws(root, t, cells) && x < root.width == |texts|
    requires Aligned(line, ContentPieces(cells, y, HeightAt(row, halfway), texts, root.width), x)
    ensures Aligned(longer, ContentPieces(cells, y, HeightAt(row, halfway), texts, root.width), x + 1)
  {
    var out := ContentColumn(root, x, y, row, halfway, texts[x], t, cells);
    ContentBlankFrom(t, cells, y, HeightAt(row, halfway), texts, root.width, x + 1);
    ContentPiecesAt(cells, y, HeightAt(row, halfway), texts, root.width, x);
    Extend(line, ContentPieces(cells, y, HeightAt(row, halfway), texts, root.width), x, out);
    longer := line + out;
  }

  method RenderContentLine(root: Grid, y: nat, max: nat, row: nat, halfway: nat, texts: seq<string>, ghost t: Tree,
                           ghost cells: Cells)
    returns (line: string)
    requires Draws(root, t, cells) && |texts| == root.width
    ensures Reads(line, ContentPieces(cells, y, HeightAt(row, halfway), texts, root.width), max)
  {
    line := "";
    var x := 0;
    while x < root.width
      invariant x <= root.width && (x == 0 || max == 0 || (x - 1) * NODE_RENDER_WIDTH < max)
      invariant Aligned(line, ContentPieces(cells, y, HeightAt(row, halfway), texts, root.width), x)
    {
      if max > 0 && x * NODE_RENDER_WIDTH >= max {
        break;
      }
      line := AddContentColumn(root, line, x, y, row, halfway, texts, t, cells);
      x := x + 1;
    }
    StopsAt(root.width, max, x);
  }

  // What an operator shows on one row of its box: its name, then its details.
  function TextAt(cells: Cells, details: seq<seq<string>>, x: nat, y: nat, row: nat): string
    requires x < |details|
  {
    if !Has(cells, x, y) then ""
    else if row == 0 then cells[Coordinate(x, y)].name
    else if row <= |details[x]| then details[x][row - 1]
    else ""
  }

  function TextsUpTo(cells: Cells, details: seq<seq<string>>, y: nat, row: nat, n: nat): (texts: seq<string>)
    requires n <= |details|
    ensures |texts| == n
  {
    if n == 0 then [] else TextsUpTo(cells, details, y, row, n - 1) + [TextAt(cells, details, n - 1, y, row)]
  }

  function TextsAt(cells: Cells, details: seq<seq<string>>, y: nat, row: nat): (texts: seq<string>)
    ensures |texts| == |details|
  {
    TextsUpTo(cells, details, y, row, |details|)
  }

  lemma {:induction false} TextsAtColumn(cells: Cells, details: seq<seq<string>>, y: nat, row: nat, n: nat, x: nat)
    requires x < n <= |details|
    ensures TextsUpTo(cells, details, y, row, n)[x] == TextAt(cells, details, x, y, row)
  {
    if x < n - 1 {
      TextsAtColumn(cells, details, y, row, n - 1, x);
    }
  }

  // The details of every operator of a row, as wrapped for its box.
  ghost predicate AreDetails(cells: Cells, details: seq<seq<string>>, y: nat) {
    forall x :: 0 <= x < |details| ==>
      && Narrow(details[x]) && |details[x]| <= 31
      && (details[x] == [] <==> !Has(cells, x, y) || cells[Coordinate(x, y)].info == map[])
      && (details[x] != [] ==> Lists(cells[Coordinate(x, y)].info, 30, details[x]))
  }

  function Tallest(details: seq<seq<string>>): nat {
    if details == [] then 0
    else RenderTree.Max(Tallest(details[..|details| - 1]), |details[|details| - 1]|)
  }

  method DetailsOfRow(root: Grid, y: nat, ghost t: Tree, ghost cells: Cells) returns (details: seq<seq<string>>)
    requires Draws(root, t, cells)
    ensures |details| == root.width && AreDetails(cells, details, y)
  {
    hide Lists;
    details := [];
    for x := 0 to root.width
      invariant |details| == x && AreDetails(cells, details, y)
    {
      GridShows(root, cells, x, y);
      var node := root.GetNode(x, y);
      var item := [];
      if node.Some? {
        item := SplitUpExtraInfo(node.value.extraText, MAX_EXTRA_LINES);
      }
      details := details + [item];
    }
  }

  ghost predicate ContentLineReads(cells: Cells, y: nat, max: nat, details: seq<seq<string>>, row: nat, line: string) {
    var at := HeightAt(row, (Tallest(details) + 1) / 2);
    Reads(line, ContentPieces(cells, y, at, TextsAt(cells, details, y, row), |details|), max)
  }

  ghost predicate ContentLinesRead(cells: Cells, y: nat, max: nat, details: seq<seq<string>>, lines: seq<string>) {
    lines == [] ||
    (ContentLinesRead(cells, y, max, details, lines[..|lines| - 1])
     && ContentLineReads(cells, y, max, details, |lines| - 1, lines[|lines| - 1]))
  }

  lemma {:induction false} ContentLineAt(cells: Cells, y: nat, max: nat, details: seq<seq<string>>,
                                         lines: seq<string>, row: nat)
    requires ContentLinesRead(cells, y, max, details, lines) && row < |lines|
    ensures ContentLineReads(cells, y, max, details, row, lines[row])
  {
    if row < |lines| - 1 {
      ContentLineAt(cells, y, max, details, lines[..|lines| - 1], row);
    }
  }

  // The content lines of one level: one for the names and one per row of details.
  ghost predicate ContentReads(cells: Cells, w: nat, y: nat, max: nat, details: seq<seq<string>>, lines: seq<string>) {
    && |details| == w && AreDetails(cells, details, y)
    && |lines| == Tallest(details) + 1 && ContentLinesRead(cells, y, max, details, lines)
  }

  method RenderBoxContent(root: Grid, y: nat, max: nat, ghost t: Tree, ghost cells: Cells)
    returns (lines: seq<string>, details: seq<seq<string>>)
    requires Draws(root, t, cells)
    ensures ContentReads(cells, root.width, y, max, details, lines)
  {
    details := DetailsOfRow(root, y, t, cells);
    lines := RenderContentLines(root, y, max, details, t, cells);
  }

  method RenderContentLines(root: Grid, y: nat, max: nat, details: seq<seq<string>>, ghost t: Tree, ghost cells: Cells)
    returns (lines: seq<string>)
    requires Draws(root, t, cells) && |details| == root.width
    ensures |lines| == Tallest(details) + 1 && ContentLinesRead(cells, y, max, details, lines)
  {
    hide ContentLineReads, Draws, AreDetails;
    var extraHeight := ExtraHeight(details);
    var halfway := (extraHeight + 1) / 2;
    lines := [];
    for row := 0 to extraHeight + 1
      invariant |lines| == row && ContentLinesRead(cells, y, max, details, lines)
    {
      var line := RenderContentRow(root, y, max, row, halfway, details, t, cells);
      assert (lines + [line])[..row] == lines;
      lines := lines + [line];
    }
  }

  method RenderContentRow(root: Grid, y: nat, max: nat, row: nat, halfway: nat, details: seq<seq<string>>,
                          ghost t: Tree, ghost cells: Cells)
    returns (line: string)
    requires Draws(root, t, cells) && |details| == root.width && halfway == (Tallest(details) + 1) / 2
    ensures ContentLineReads(cells, y, max, details, row, line)
  {
    var texts := ReadTexts(root, details, y, row, t, cells);
    line := RenderContentLine(root, y, max, row, halfway, texts, t, cells);
  }

  method ExtraHeight(details: seq<seq<string>>) returns (h: nat)
    ensures h == Tallest(details)
  {
    h := 0;
    for x := 0 to |details|
      invariant h == Tallest(details[..x])
    {
      assert details[..x + 1][..x] == details[..x];
      if |details[x]| > h {
        h := |details[x]|;
      }
    }
    assert details[..|details|] == details;
  }

  method ReadTexts(root: Grid, details: seq<seq<string>>, y: nat, row: nat, ghost t: Tree, ghost cells: Cells)
    returns (texts: seq<string>)
    requires Draws(root, t, cells) && |details| == root.width
    ensures texts == TextsAt(cells, details, y, row)
  {
    texts := [];
    for x := 0 to |details|
      invariant texts == TextsUpTo(cells, details, y, row, x)
    {
      GridShows(root, cells, x, y);
      var node := root.GetNode(x, y);
      var text := if node.None? then "" else if row == 0 then node.value.name
                  else if row <= |details[x]| then details[x][row - 1] else "";
      texts := texts + [text];
    }
  }

  // The lines of one level, and the details its boxes show.
  datatype Level = Level(top: string, content: seq<string>, bottom: string, details: seq<seq<string>>)

  ghost predicate LevelReads(cells: Cells, w: nat, y: nat, max: nat, level: Level) {
    && Reads(level.top, TopPieces(cells, y, w), max)
    && ContentReads(cells, w, y, max, level.details, level.content)
    && Reads(level.bottom, BottomPieces(cells, y, w + 1), max)
  }

  method RenderLevel(root: Grid, y: nat, max: nat, ghost t: Tree, ghost cells: Cells) returns (level: Level)
    requires Draws(root, t, cells)
    ensures LevelReads(cells, root.width, y, max, level)
  {
    var top := RenderTopLayer(root, y, max, t, cells);
    var content, details := RenderBoxContent(root, y, max, t, cells);
    var bottom := RenderBottomLayer(root, y, max, t, cells);
    return Level(top, content, bottom, details);
  }

  ghost predicate LevelsRead(cells: Cells, w: nat, max: nat, levels: seq<Level>) {
    levels == [] ||
    (LevelsRead(cells, w, max, levels[..|levels| - 1]) && LevelReads(cells, w, |levels| - 1, max, levels[|levels| - 1]))
  }

  lemma {:induction false} LevelAt(cells: Cells, w: nat, max: nat, levels: seq<Level>, y: nat)
    requires LevelsRead(cells, w, max, levels) && y < |levels|
    ensures LevelReads(cells, w, y, max, levels[y])
  {
    if y < |levels| - 1 {
      LevelAt(cells, w, max, levels[..|levels| - 1], y);
    }
  }

  // Lines as they are written, each with its newline.
  function Written(lines: seq<string>): string {
    if lines == [] then "" else Written(lines[..|lines| - 1]) + lines[|lines| - 1] + "\n"
  }

  function Lines(level: Level): seq<string> {
    [level.top] + level.content + [level.bottom]
  }

  function AllLines(levels: seq<Level>): seq<string> {
    if levels == [] then [] else AllLines(levels[..|levels| - 1]) + Lines(levels[|levels| - 1])
  }

  // What drawing a tree under a maximum width comes to: its levels, and the text made of
  // their lines.
  ghost predicate Drawn(t: Tree, max: nat, levels: seq<Level>, output: string) {
    && |levels| == RenderTree.Height(t) && output == Written(AllLines(levels))
    && LevelsRead(Placed(t, 0, 0), RenderTree.Width(t), max, levels)
  }

  lemma {:induction false} WrittenAppend(a: seq<string>, b: seq<string>)
    ensures Written(a + b) == Written(a) + Written(b)
  {
    if b == [] {
      assert a + b == a;
    } else {
      var front, last := b[..|b| - 1], b[|b| - 1];
      assert (a + b)[..|a + b| - 1] == a + front;
      WrittenAppend(a, front);
      assert Written(a) + Written(b) == (Written(a) + Written(front)) + last + "\n";
    }
  }

  method WriteLines(output: string, lines: seq<string>) returns (longer: string)
    ensures longer == output + Written(lines)
  {
    longer := output;
    for i := 0 to |lines|
      invariant longer == output + Written(lines[..i])
    {
      assert lines[..i + 1][..i] == lines[..i];
      longer := longer + lines[i] + "\n";
    }
    assert lines[..|lines|] == lines;
  }

  /** Draws a plan level by level: top borders, box contents, bottom borders. */
  method Visit(t: Tree, max: nat) returns (output: string, levels: seq<Level>)
    ensures Drawn(t, max, levels, output)
  {
    var root := CreateTree(t);
    ghost var cells := Placed(t, 0, 0);
    output, levels := "", [];
    for y := 0 to root.height
      invariant |levels| == y && Draws(root, t, cells)
      invariant LevelsRead(cells, root.width, max, levels)
      invariant output == Written(AllLines(levels))
    {
      var level := RenderLevel(root, y, max, t, cells);
      OneMoreLevel(levels, level);
      ghost var above := output;
      output := output + level.top + "\n";
      output := WriteLines(output, level.content);
      output := output + level.bottom + "\n";
      LevelWritten(above, level);
      levels := levels + [level];
    }
  }

  lemma LevelWritten(above: string, level: Level)
    ensures above + level.top + "\n" + Written(level.content) + level.bottom + "\n" == above + Written(Lines(level))
  {
    hide Written;
    WrittenAppend([level.top] + level.content, [level.bottom]);
    WrittenAppend([level.top], level.content);
    WrittenOne(level.top);
    WrittenOne(level.bottom);
  }

  lemma WrittenOne(line: string)
    ensures Written([line]) == line + "\n"
  {
    assert [line][..0] == [];
    assert "" + line == line;
  }

  lemma OneMoreLevel(levels: seq<Level>, level: Level)
    ensures (levels + [level])[..|levels|] == levels
    ensures Written(AllLines(levels + [level])) == Written(AllLines(levels)) + Written(Lines(level))
  {
    assert (levels + [level])[..|levels|] == levels;
    WrittenAppend(AllLines(levels), Lines(level));
  }

  // ---------------------------------------------------------------- what lines up

  lemma PieceShown(line: string, pieces: seq<Piece>, max: nat, x: nat, piece: Piece)
    requires Reads(line, pieces, max) && x < Visible(|pieces|, max) && pieces[x] == piece
    ensures ShownAt(line, x, piece)
  {
  }

  // A shown piece's first, middle and last characters.
  lemma Marks(line: string, x: nat, piece: Piece)
    requires ShownAt(line, x, piece)
    ensures CharAt(line, NODE_RENDER_WIDTH * x) == Text(piece)[0]
    ensures CharAt(line, NODE_RENDER_WIDTH * x + HALF) == Text(piece)[HALF]
    ensures CharAt(line, NODE_RENDER_WIDTH * x + (NODE_RENDER_WIDTH - 1)) == Text(piece)[NODE_RENDER_WIDTH - 1]
  {
    assert CharAt(line, NODE_RENDER_WIDTH * x + 0) == Text(piece)[0];
  }

  lemma TopShown(cells: Cells, w: nat, y: nat, max: nat, line: string, x: nat)
    requires Reads(line, TopPieces(cells, y, w), max) && x < Visible(w, max)
    ensures ShownAt(line, x, TopPiece(cells, x, y))
  {
    TopPiecesAt(cells, y, w, x);
    PieceShown(line, TopPieces(cells, y, w), max, x, TopPiece(cells, x, y));
  }

  lemma BottomShown(cells: Cells, w: nat, y: nat, max: nat, line: string, x: nat)
    requires Reads(line, BottomPieces(cells, y, w + 1), max) && x < Visible(w, max)
    ensures ShownAt(line, x, BottomPiece(cells, x, y))
  {
    BottomPiecesAt(cells, y, w + 1, x);
    PieceShown(line, BottomPieces(cells, y, w + 1), max, x, BottomPiece(cells, x, y));
  }

  // A box's left and right border characters stand where column x starts and ends.
  predicate Framed(line: string, x: nat, left: char, right: set<char>) {
    && CharAt(line, NODE_RENDER_WIDTH * x) == left
    && CharAt(line, NODE_RENDER_WIDTH * x + (NODE_RENDER_WIDTH - 1)) in right
  }

  lemma ContentFramed(cells: Cells, x: nat, y: nat, max: nat, details: seq<seq<string>>, row: nat, line: string)
    requires ContentLineReads(cells, y, max, details, row, line) && Has(cells, x, y) && x < Visible(|details|, max)
    ensures Framed(line, x, VERTICAL, {VERTICAL, LMIDDLE})
  {
    var at, texts := HeightAt(row, (Tallest(details) + 1) / 2), TextsAt(cells, details, y, row);
    var pieces := ContentPieces(cells, y, at, texts, |details|);
    ContentPiecesAt(cells, y, at, texts, |details|, x);
    PieceShown(line, pieces, max, x, pieces[x]);
    Marks(line, x, pieces[x]);
  }

  lemma BordersFramed(cells: Cells, w: nat, x: nat, y: nat, max: nat, top: string, bottom: string)
    requires Reads(top, TopPieces(cells, y, w), max) && Reads(bottom, BottomPieces(cells, y, w + 1), max)
    requires Has(cells, x, y) && x < Visible(w, max)
    ensures Framed(top, x, LTCORNER, {RTCORNER}) && Framed(bottom, x, LDCORNER, {RDCORNER})
  {
    TopShown(cells, w, y, max, top, x);
    Marks(top, x, TopPiece(cells, x, y));
    BottomShown(cells, w, y, max, bottom, x);
    Marks(bottom, x, BottomPiece(cells, x, y));
  }

  /** Within the maximum width, the box of the operator at (x, y) starts at text column
      29x and ends at 29x + 28 on every line of its level. */
  lemma BoxesLineUp(cells: Cells, w: nat, x: nat, y: nat, max: nat, level: Level)
    requires LevelReads(cells, w, y, max, level) && Has(cells, x, y) && x < Visible(w, max)
    ensures Framed(level.top, x, LTCORNER, {RTCORNER})
    ensures Framed(level.bottom, x, LDCORNER, {RDCORNER})
    ensures forall row :: 0 <= row < |level.content| ==> Framed(level.content[row], x, VERTICAL, {VERTICAL, LMIDDLE})
  {
    BordersFramed(cells, w, x, y, max, level.top, level.bottom);
    forall row | 0 <= row < |level.content| ensures Framed(level.content[row], x, VERTICAL, {VERTICAL, LMIDDLE}) {
      ContentLineAt(cells, y, max, level.details, level.content, row);
      ContentFramed(cells, x, y, max, level.details, row, level.content[row]);
    }
  }

  lemma BottomConnects(cells: Cells, w: nat, x: nat, y: nat, max: nat, line: string)
    requires Reads(line, BottomPieces(cells, y, w + 1), max) && x < Visible(w, max)
    ensures CharAt(line, NODE_RENDER_WIDTH * x + HALF) in {TMIDDLE, VERTICAL} <==> HasBelow(cells, x, y)
  {
    BottomShown(cells, w, y, max, line, x);
    Marks(line, x, BottomPiece(cells, x, y));
  }

  lemma TopConnects(cells: Cells, w: nat, x: nat, y: nat, max: nat, line: string)
    requires Reads(line, TopPieces(cells, y + 1, w), max) && x < Visible(w, max)
    ensures CharAt(line, NODE_RENDER_WIDTH * x + HALF) == DMIDDLE <==> HasBelow(cells, x, y)
  {
    TopShown(cells, w, y + 1, max, line, x);
    Marks(line, x, TopPiece(cells, x, y + 1));
  }

  /** The bottom line of a level has a downward connector at column 29x + 14 exactly when
      an operator stands below, and there its box has the upward junction. */
  lemma ConnectorsMeet(cells: Cells, w: nat, x: nat, y: nat, max: nat, level: Level, next: Level)
    requires LevelReads(cells, w, y, max, level) && LevelReads(cells, w, y + 1, max, next) && x < Visible(w, max)
    ensures CharAt(level.bottom, NODE_RENDER_WIDTH * x + HALF) in {TMIDDLE, VERTICAL} <==> HasBelow(cells, x, y)
    ensures CharAt(next.top, NODE_RENDER_WIDTH * x + HALF) == DMIDDLE <==> HasBelow(cells, x, y)
  {
    BottomConnects(cells, w, x, y, max, level.bottom);
    TopConnects(cells, w, x, y, max, next.top);
  }

  // ---------------------------------------------------------------- edges

  // What the halfway line shows right of an operator, as far as its last child.
  function EdgePiece(cells: Cells, p: Coordinate, x: nat): Piece
    requires p in cells
  {
    if x !in ColumnsBelow(cells, p) then Line
    else if exists c :: c in ColumnsBelow(cells, p) && c > x then Branch
    else Corner
  }

  lemma EdgeRuns(t: Tree, cells: Cells, p: Coordinate, x: nat, last: nat, text: string)
    requires LaidOut(t, cells) && p in cells && p.x < x <= last && last in ColumnsBelow(cells, p)
    ensures ContentPiece(cells, x, p.y, Halfway, text) == EdgePiece(cells, p, x)
  {
    ChildrenAreThere(t, cells, p, last);
    var q := ParentToTheLeft(t, cells, last, p.y);
    ChildColumnsSize(cells[p].children, p.x);
    assert Has(cells, q.x, p.y) && Has(cells, p.x, p.y);
    OwnRow(t, cells, p);
    OnlyItsChildren(t, cells, p, x, x);
    NearestDecides(cells, p, x);
  }

  // An operator stands alone in its columns of its row.
  lemma OwnRow(t: Tree, cells: Cells, p: Coordinate)
    requires LaidOut(t, cells) && p in cells
    ensures forall i: nat :: p.x < i < p.x + RenderTree.Width(cells[p]) ==> !Has(cells, i, p.y)
  {
    forall i: nat | p.x < i < p.x + RenderTree.Width(cells[p]) ensures !Has(cells, i, p.y) {
      if Has(cells, i, p.y) {
        OwnColumns(t, 0, 0, p, Coordinate(i, p.y));
        RowInside(cells[p].children, p.x, p.y + 1);
      }
    }
  }

  // What a content line holds in one column.
  lemma ColumnPiece(cells: Cells, y: nat, max: nat, details: seq<seq<string>>, row: nat, line: string, x: nat)
    returns (text: string)
    requires ContentLineReads(cells, y, max, details, row, line) && x < Visible(|details|, max)
    ensures ShownAt(line, x, ContentPiece(cells, x, y, HeightAt(row, (Tallest(details) + 1) / 2), text))
  {
    var at, texts := HeightAt(row, (Tallest(details) + 1) / 2), TextsAt(cells, details, y, row);
    text := texts[x];
    var pieces := ContentPieces(cells, y, at, texts, |details|);
    ContentPiecesAt(cells, y, at, texts, |details|, x);
    PieceShown(line, pieces, max, x, pieces[x]);
  }

  /** On the halfway line of its level an operator with several children has a junction at
      the end of its box, and from there an unbroken line runs to its last child, with a
      branch above each child passed and a corner above the last. */
  lemma EdgesAreUnbroken(t: Tree, cells: Cells, p: Coordinate, x: nat, last: nat, max: nat,
                         details: seq<seq<string>>, line: string)
    requires LaidOut(t, cells) && p in cells && p.x < x <= last && last in ColumnsBelow(cells, p)
    requires ContentLineReads(cells, p.y, max, details, (Tallest(details) + 1) / 2, line) && x < Visible(|details|, max)
    ensures CharAt(line, NODE_RENDER_WIDTH * p.x + (NODE_RENDER_WIDTH - 1)) == LMIDDLE
    ensures ShownAt(line, x, EdgePiece(cells, p, x))
  {
    hide ShownAt, EdgePiece, ContentLineReads;
    SeveralChildren(cells, p, last);
    JunctionDrawn(cells, p, max, details, line);
    EdgeDrawn(t, cells, p, x, last, max, details, line);
  }

  lemma EdgeDrawn(t: Tree, cells: Cells, p: Coordinate, x: nat, last: nat, max: nat, details: seq<seq<string>>,
                  line: string)
    requires LaidOut(t, cells) && p in cells && p.x < x <= last && last in ColumnsBelow(cells, p)
    requires ContentLineReads(cells, p.y, max, details, (Tallest(details) + 1) / 2, line) && x < Visible(|details|, max)
    ensures ShownAt(line, x, EdgePiece(cells, p, x))
  {
    var text := ColumnPiece(cells, p.y, max, details, (Tallest(details) + 1) / 2, line, x);
    EdgeRuns(t, cells, p, x, last, text);
  }

  lemma JunctionDrawn(cells: Cells, p: Coordinate, max: nat, details: seq<seq<string>>, line: string)
    requires p in cells && |cells[p].children| > 1
    requires ContentLineReads(cells, p.y, max, details, (Tallest(details) + 1) / 2, line)
    requires p.x < Visible(|details|, max)
    ensures CharAt(line, NODE_RENDER_WIDTH * p.x + (NODE_RENDER_WIDTH - 1)) == LMIDDLE
  {
    hide ContentPiece, ContentLineReads, Text, Bar, ShownAt, CharAt;
    var text := ColumnPiece(cells, p.y, max, details, (Tallest(details) + 1) / 2, line, p.x);
    BranchesHalfway(cells, p, text);
    Marks(line, p.x, BoxRow(text, true));
    RowBranches(text);
  }

  lemma RowBranches(text: string)
    ensures Text(BoxRow(text, true))[NODE_RENDER_WIDTH - 1] == LMIDDLE
  {
    hide Bar, AdjustText;
  }

  lemma BranchesHalfway(cells: Cells, p: Coordinate, text: string)
    requires p in cells && |cells[p].children| > 1
    ensures ContentPiece(cells, p.x, p.y, Halfway, text) == BoxRow(text, true)
  {
    assert p == Coordinate(p.x, p.y);
  }

  lemma SeveralChildren(cells: Cells, p: Coordinate, last: nat)
    requires p in cells && last in ColumnsBelow(cells, p) && last > p.x
    ensures |cells[p].children| > 1
  {
    ChildColumnsSize(cells[p].children, p.x);
    assert {p.x, last} <= ColumnsBelow(cells, p);
  }

  // ---------------------------------------------------------------- a drawn tree

  // A line of the box: the operator's name, one of its details or nothing, centred or cut
  // to fit.
  ghost predicate RowShows(cells: Cells, p: Coordinate, level: Level, row: nat)
    requires p in cells && p.x < |level.details| && row < |level.content|
  {
    var details := level.details[p.x];
    var shown := if row == 0 then cells[p].name else if row <= |details| then details[row - 1] else "";
    forall k :: 0 <= k < 27 ==> CharAt(level.content[row], 29 * p.x + 1 + k) == AdjustText(shown, 27)[k]
  }

  // The operator's own details, in key order.
  ghost predicate OwnDetails(info: map<string, string>, details: seq<string>) {
    (details == [] <==> info == map[]) && (info != map[] ==> Lists(info, 30, details))
  }

  // The box shows the operator's name and all of its details.
  ghost predicate BoxShows(cells: Cells, p: Coordinate, level: Level) {
    && p in cells && p.x < |level.details| && OwnDetails(cells[p].info, level.details[p.x])
    && |level.details[p.x]| < |level.content|
    && forall row :: 0 <= row < |level.content| ==> RowShows(cells, p, level, row)
  }

  // Every line of the level holds the box's two borders.
  ghost predicate BoxFramed(x: nat, level: Level) {
    && CharAt(level.top, 29 * x) == '\U{250C}' && CharAt(level.top, 29 * x + 28) == '\U{2510}'
    && CharAt(level.bottom, 29 * x) == '\U{2514}' && CharAt(level.bottom, 29 * x + 28) == '\U{2518}'
    && forall row :: 0 <= row < |level.content| ==>
         && CharAt(level.content[row], 29 * x) == '\U{2502}'
         && CharAt(level.content[row], 29 * x + 28) in {'\U{2502}', '\U{251C}'}
  }

  lemma {:induction false} TallestIsTallest(details: seq<seq<string>>, x: nat)
    requires x < |details|
    ensures |details[x]| <= Tallest(details)
  {
    if x < |details| - 1 {
      TallestIsTallest(details[..|details| - 1], x);
    }
  }

  lemma BoxRowShown(cells: Cells, p: Coordinate, max: nat, details: seq<seq<string>>, row: nat, line: string)
    returns (branches: bool)
    requires ContentLineReads(cells, p.y, max, details, row, line) && p in cells && p.x < Visible(|details|, max)
    ensures ShownAt(line, p.x, BoxRow(TextAt(cells, details, p.x, p.y, row), branches))
  {
    var at, texts := HeightAt(row, (Tallest(details) + 1) / 2), TextsAt(cells, details, p.y, row);
    var pieces := ContentPieces(cells, p.y, at, texts, |details|);
    ContentPiecesAt(cells, p.y, at, texts, |details|, p.x);
    TextsAtColumn(cells, details, p.y, row, |details|, p.x);
    PieceShown(line, pieces, max, p.x, pieces[p.x]);
    assert p == Coordinate(p.x, p.y);
    branches := at.Halfway? && |cells[p].children| > 1;
  }

  lemma TextShown(cells: Cells, p: Coordinate, level: Level, row: nat, branches: bool)
    requires p in cells && p.x < |level.details| && row < |level.content|
    requires ShownAt(level.content[row], p.x, BoxRow(TextAt(cells, level.details, p.x, p.y, row), branches))
    ensures RowShows(cells, p, level, row)
  {
    hide CharAt, AdjustText;
    var text, line := TextAt(cells, level.details, p.x, p.y, row), level.content[row];
    assert p == Coordinate(p.x, p.y);
    forall k | 0 <= k < 27 ensures CharAt(line, 29 * p.x + 1 + k) == AdjustText(text, 27)[k] {
      assert CharAt(line, NODE_RENDER_WIDTH * p.x + (k + 1)) == Text(BoxRow(text, branches))[k + 1];
    }
  }

  lemma OwnDetailsShown(cells: Cells, details: seq<seq<string>>, p: Coordinate)
    requires AreDetails(cells, details, p.y) && p in cells && p.x < |details|
    ensures OwnDetails(cells[p].info, details[p.x])
  {
    hide Lists;
    assert p == Coordinate(p.x, p.y);
  }

  lemma BoxIsShown(cells: Cells, w: nat, p: Coordinate, max: nat, level: Level)
    requires LevelReads(cells, w, p.y, max, level) && p in cells && p.x < Visible(w, max)
    ensures BoxShows(cells, p, level)
  {
    hide ShownAt, ContentLineReads, AreDetails, OwnDetails, TextAt;
    OwnDetailsShown(cells, level.details, p);
    TallestIsTallest(level.details, p.x);
    forall row | 0 <= row < |level.content| ensures RowShows(cells, p, level, row) {
      ContentLineAt(cells, p.y, max, level.details, level.content, row);
      var branches := BoxRowShown(cells, p, max, level.details, row, level.content[row]);
      TextShown(cells, p, level, row, branches);
    }
  }

  lemma PlacedWithin(t: Tree, p: Coordinate)
    requires p in Placed(t, 0, 0)
    ensures p.x < RenderTree.Width(t) && p.y < RenderTree.Height(t)
  {
    PlacedInside(t, 0, 0);
  }

  /** The drawn tree: every operator within the maximum width has its box on its own level,
      framed at text columns 29x and 29x + 28 on every line, and it shows the operator's
      name and its details in key order. */
  lemma DrawnBoxes(t: Tree, max: nat, levels: seq<Level>, output: string, p: Coordinate)
    requires Drawn(t, max, levels, output) && p in Placed(t, 0, 0) && p.x < Visible(RenderTree.Width(t), max)
    ensures p.y < |levels| && BoxShows(Placed(t, 0, 0), p, levels[p.y]) && BoxFramed(p.x, levels[p.y])
  {
    hide Placed, LevelsRead, LevelReads, BoxShows, CharAt;
    var cells, w := Placed(t, 0, 0), RenderTree.Width(t);
    PlacedWithin(t, p);
    LevelAt(cells, w, max, levels, p.y);
    BoxIsShown(cells, w, p, max, levels[p.y]);
    assert p == Coordinate(p.x, p.y);
    BoxesLineUp(cells, w, p.x, p.y, max, levels[p.y]);
  }

  /** In any column of any level within that width, a connector leads down at 29x + 14
      exactly when an operator stands below; its box has its junction there. */
  lemma DrawnConnectors(t: Tree, max: nat, levels: seq<Level>, output: string, x: nat, y: nat)
    requires Drawn(t, max, levels, output) && y < |levels| && x < Visible(RenderTree.Width(t), max)
    ensures CharAt(levels[y].bottom, 29 * x + 14) in {'\U{252C}', '\U{2502}'}
            <==> Coordinate(x, y + 1) in Placed(t, 0, 0)
    ensures Coordinate(x, y + 1) in Placed(t, 0, 0)
            <==> y + 1 < |levels| && CharAt(levels[y + 1].top, 29 * x + 14) == '\U{2534}'
  {
    hide Placed, LevelsRead, CharAt, Visible, Reads, TopPieces, BottomPieces, ContentReads;
    var cells, w := Placed(t, 0, 0), RenderTree.Width(t);
    LevelAt(cells, w, max, levels, y);
    BottomConnects(cells, w, x, y, max, levels[y].bottom);
    if HasBelow(cells, x, y) {
      PlacedWithin(t, Coordinate(x, y + 1));
    }
    if y + 1 < |levels| {
      LevelAt(cells, w, max, levels, y + 1);
      ConnectorsMeet(cells, w, x, y, max, levels[y], levels[y + 1]);
    }
  }

  // What an edge looks like in one column: a line up to its middle, where it passes on,
  // branches down or turns down, and a line behind it unless it ends.
  ghost predicate EdgeAt(line: string, x: nat, child: bool, last: bool) {
    && (forall k: nat :: 29 * x <= k < 29 * x + 14 ==> CharAt(line, k) == '\U{2500}')
    && CharAt(line, 29 * x + 14) == (if !child then '\U{2500}' else if !last then '\U{252C}' else '\U{2510}')
    && (!(child && last) ==> forall k: nat :: 29 * x + 14 < k < 29 * x + 29 ==> CharAt(line, k) == '\U{2500}')
  }

  lemma EdgePieceShown(cells: Cells, p: Coordinate, x: nat, last: nat, line: string)
    requires p in cells && last in ColumnsBelow(cells, p) && x <= last
    requires forall c :: c in ColumnsBelow(cells, p) ==> c <= last
    requires ShownAt(line, x, EdgePiece(cells, p, x))
    ensures EdgeAt(line, x, x in ColumnsBelow(cells, p), x == last)
  {
    hide CharAt, ColumnsBelow;
    var piece := EdgePiece(cells, p, x);
    assert piece == if x !in ColumnsBelow(cells, p) then Line else if x < last then Branch else Corner;
    forall k: nat | 29 * x <= k < 29 * x + 29 ensures CharAt(line, k) == Text(piece)[k - 29 * x] {
      assert CharAt(line, NODE_RENDER_WIDTH * x + (k - 29 * x)) == Text(piece)[k - 29 * x];
    }
  }

  /** From an operator with several children an unbroken line runs to its last child, with a
      branch above each child passed and a corner above the last. */
  lemma DrawnEdges(t: Tree, max: nat, levels: seq<Level>, output: string, p: Coordinate, x: nat, last: nat)
    returns (row: nat)
    requires Drawn(t, max, levels, output) && p in Placed(t, 0, 0)
    requires p.x < x <= last && last in ColumnsBelow(Placed(t, 0, 0), p) && x < Visible(RenderTree.Width(t), max)
    requires forall c :: c in ColumnsBelow(Placed(t, 0, 0), p) ==> c <= last
    ensures p.y < |levels| && row < |levels[p.y].content| && row == (Tallest(levels[p.y].details) + 1) / 2
    ensures CharAt(levels[p.y].content[row], 29 * p.x + 28) == '\U{251C}'
    ensures EdgeAt(levels[p.y].content[row], x, x in ColumnsBelow(Placed(t, 0, 0), p), x == last)
  {
    hide Placed, LevelsRead, CharAt, Visible, ShownAt, EdgePiece, ContentLineReads, AreDetails, EdgeAt, ColumnsBelow;
    var cells, w := Placed(t, 0, 0), RenderTree.Width(t);
    PlacedWithin(t, p);
    LevelAt(cells, w, max, levels, p.y);
    var level := levels[p.y];
    row := (Tallest(level.details) + 1) / 2;
    ContentLineAt(cells, p.y, max, level.details, level.content, row);
    EdgesAreUnbroken(t, cells, p, x, last, max, level.details, level.content[row]);
    EdgePieceShown(cells, p, x, last, level.content[row]);
  }

  /** Where no operator stands but one hangs below, the line the edge starts there goes
      straight down through every further line of the level. */
  lemma DrawnDrops(t: Tree, max: nat, levels: seq<Level>, output: string, x: nat, y: nat, row: nat)
    requires Drawn(t, max, levels, output) && y < |levels| && x < Visible(RenderTree.Width(t), max)
    requires Coordinate(x, y) !in Placed(t, 0, 0) && Coordinate(x, y + 1) in Placed(t, 0, 0)
    requires row < |levels[y].content| && row >= (Tallest(levels[y].details) + 1) / 2
    ensures var mark := CharAt(levels[y].content[row], 29 * x + 14);
            if row > (Tallest(levels[y].details) + 1) / 2 then mark == '\U{2502}'
            else mark in {'\U{252C}', '\U{2510}'}
  {
    hide Placed, LevelsRead, CharAt, Visible, ShownAt, ContentLineReads, AreDetails, ContentPiece, Text, Reads;
    var cells, w := Placed(t, 0, 0), RenderTree.Width(t);
    LevelAt(cells, w, max, levels, y);
    var level := levels[y];
    ContentLineAt(cells, y, max, level.details, level.content, row);
    var at := HeightAt(row, (Tallest(level.details) + 1) / 2);
    var text := ColumnPiece(cells, y, max, level.details, row, level.content[row], x);
    Marks(level.content[row], x, ContentPiece(cells, x, y, at, text));
    DropMark(cells, x, y, at, text);
  }

  lemma DropMark(cells: Cells, x: nat, y: nat, at: Height, text: string)
    requires !Has(cells, x, y) && HasBelow(cells, x, y) && !at.Above?
    ensures var mark := Text(ContentPiece(cells, x, y, at, text))[HALF];
            if at.Under? then mark == '\U{2502}' else mark in {'\U{252C}', '\U{2510}'}
  {
    hide ChildToTheRight;
  }

  /** The levels follow one another in the output, each with its top line first, then its
      content, then its bottom line. */
  lemma DrawnInOrder(t: Tree, max: nat, levels: seq<Level>, output: string, y: nat)
    requires Drawn(t, max, levels, output) && y < |levels|
    ensures var level := levels[y];
            output == Written(AllLines(levels[..y])) + level.top + "\n" + Written(level.content) + level.bottom + "\n"
                      + Written(AllLines(levels[y + 1..]))
  {
    hide Written, AllLines, Lines, LevelsRead, RenderTree.Height;
    var front := Written(AllLines(levels[..y]));
    assert levels == levels[..y + 1] + levels[y + 1..] && levels[..y + 1] == levels[..y] + [levels[y]];
    LinesAppend(levels[..y + 1], levels[y + 1..]);
    WrittenAppend(AllLines(levels[..y + 1]), AllLines(levels[y + 1..]));
    OneMoreLevel(levels[..y], levels[y]);
    LevelWritten(front, levels[y]);
  }

  lemma {:induction false} LinesAppend(a: seq<Level>, b: seq<Level>)
    ensures AllLines(a + b) == AllLines(a) + AllLines(b)
  {
    hide Lines;
    if b == [] {
      assert a + b == a;
    } else {
      var front := b[..|b| - 1];
      assert (a + b)[..|a + b| - 1] == a + front;
      LinesAppend(a, front);
      Sequences.Associative(AllLines(a), AllLines(front), Lines(b[|b| - 1]));
    }
  }
}
