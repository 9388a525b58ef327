/** Printing binary expressions with as few parentheses as precedence allows. */
module ExprDisplay {
  import opened Operators

  datatype Expr = Leaf(name: string) | Binary(left: Expr, op: Operator, right: Expr)

  datatype Token = Atom(name: string) | Op(op: Operator) | Open | Close

  // ---------------------------------------------------------------- the printer

  predicate BindsLooser(child: Expr, parent: Operator) {
    child.Binary? && child.op.Precedence() < parent.Precedence()
  }

  function Print(e: Expr): seq<Token>
    decreases e, 0
  {
    match e
    case Leaf(name) => [Atom(name)]
    case Binary(l, op, r) => PrintChild(l, op) + [Op(op)] + PrintChild(r, op)
  }

  function PrintChild(child: Expr, parent: Operator): seq<Token>
    decreases child, 1
  {
    if BindsLooser(child, parent) then [Open] + Print(child) + [Close] else Print(child)
  }

  method Fmt(e: Expr, f: seq<Token>) returns (out: seq<Token>)
    ensures out == f + Print(e)
    decreases e, 0
  {
    match e
    case Leaf(name) => out := f + [Atom(name)];
    case Binary(l, op, r) =>
      out := WriteChild(l, op, f);
      out := out + [Op(op)];
      out := WriteChild(r, op, out);
  }

  method WriteChild(child: Expr, parent: Operator, f: seq<Token>) returns (out: seq<Token>)
    ensures out == f + PrintChild(child, parent)
    decreases child, 1
  {
    if child.Binary? && child.op.Precedence() < parent.Precedence() {
      out := Fmt(child, f + [Open]);
      out := out + [Close];
    } else {
      out := Fmt(child, f);
    }
  }

  // ---------------------------------------------------------------- chains

  // What is printed between two parentheses: operands and operators in turn.
  datatype Chain = Chain(first: Operand, rest: seq<Link>)

  datatype Link = Link(op: Operator, operand: Operand)

  datatype Operand = Name(name: string) | Group(chain: Chain)

  function Join(a: Chain, op: Operator, b: Chain): Chain {
    Chain(a.first, a.rest + [Link(op, b.first)] + b.rest)
  }

  function ChainOf(e: Expr): Chain
    decreases e, 0
  {
    match e
    case Leaf(name) => Chain(Name(name), [])
    case Binary(l, op, r) => Join(ChildChain(l, op), op, ChildChain(r, op))
  }

  function ChildChain(child: Expr, parent: Operator): Chain
    decreases child, 1
  {
    if BindsLooser(child, parent) then Chain(Group(ChainOf(child)), []) else ChainOf(child)
  }

  function Tokens(c: Chain): seq<Token>
    decreases c
  {
    OperandTokens(c.first) + LinkTokens(c.rest)
  }

  function LinkTokens(links: seq<Link>): seq<Token>
    decreases links
  {
    if links == [] then []
    else
      var link := links[0];
      assert link.operand < link;
      [Op(link.op)] + OperandTokens(link.operand) + LinkTokens(links[1..])
  }

  function OperandTokens(o: Operand): seq<Token>
    decreases o
  {
    match o
    case Name(name) => [Atom(name)]
    case Group(chain) => [Open] + Tokens(chain) + [Close]
  }

  lemma {:induction false} LinkTokensAppend(a: seq<Link>, b: seq<Link>)
    ensures LinkTokens(a + b) == LinkTokens(a) + LinkTokens(b)
  {
    if a == [] {
      assert a + b == b;
    } else {
      assert (a + b)[1..] == a[1..] + b;
      LinkTokensAppend(a[1..], b);
    }
  }

  lemma JoinTokens(a: Chain, op: Operator, b: Chain)
    ensures Tokens(Join(a, op, b)) == Tokens(a) + [Op(op)] + Tokens(b)
  {
    var link := Link(op, b.first);
    LinkTokensAppend(a.rest + [link], b.rest);
    LinkTokensAppend(a.rest, [link]);
    OneLink(link);
    assert [Op(op)] + OperandTokens(b.first) + LinkTokens(b.rest) == [Op(op)] + Tokens(b);
  }

  lemma OneLink(link: Link)
    ensures LinkTokens([link]) == [Op(link.op)] + OperandTokens(link.operand)
  {
    assert [link][1..] == [];
    assert LinkTokens([link][1..]) == [];
  }

  lemma {:induction false} PrintsItsChain(e: Expr)
    ensures Print(e) == Tokens(ChainOf(e))
  {
    match e
    case Leaf(_) =>
    case Binary(l, op, r) =>
      PrintsItsChain(l);
      PrintsItsChain(r);
      GroupTokens(l, op);
      GroupTokens(r, op);
      JoinTokens(ChildChain(l, op), op, ChildChain(r, op));
  }

  lemma GroupTokens(child: Expr, parent: Operator)
    requires Print(child) == Tokens(ChainOf(child))
    ensures PrintChild(child, parent) == Tokens(ChildChain(child, parent))
  {
  }

  // Tokens that cannot continue a chain.
  predicate Ends(tokens: seq<Token>) {
    tokens == [] || tokens[0] == Close
  }

  // Reading tokens back gives one operand, or one chain, and what follows it.
  lemma {:induction false} OperandsRead(a: Operand, b: Operand, x: seq<Token>, y: seq<Token>)
    requires OperandTokens(a) + x == OperandTokens(b) + y
    ensures a == b && x == y
    decreases a
  {
    var s, t := OperandTokens(a) + x, OperandTokens(b) + y;
    assert s[0] == t[0];
    match a
    case Name(_) =>
      assert s[1..] == x && t[1..] == y;
    case Group(c) =>
      assert b.Group?;
      assert s[1..] == Tokens(c) + ([Close] + x) && t[1..] == Tokens(b.chain) + ([Close] + y);
      ChainsRead(c, b.chain, [Close] + x, [Close] + y);
      assert x == ([Close] + x)[1..] && y == ([Close] + y)[1..];
  }

  lemma {:induction false} ChainsRead(a: Chain, b: Chain, x: seq<Token>, y: seq<Token>)
    requires Ends(x) && Ends(y) && Tokens(a) + x == Tokens(b) + y
    ensures a == b && x == y
    decreases a
  {
    assert Tokens(a) + x == OperandTokens(a.first) + (LinkTokens(a.rest) + x);
    assert Tokens(b) + y == OperandTokens(b.first) + (LinkTokens(b.rest) + y);
    OperandsRead(a.first, b.first, LinkTokens(a.rest) + x, LinkTokens(b.rest) + y);
    LinksRead(a.rest, b.rest, x, y);
  }

  lemma {:induction false} LinksRead(a: seq<Link>, b: seq<Link>, x: seq<Token>, y: seq<Token>)
    requires Ends(x) && Ends(y) && LinkTokens(a) + x == LinkTokens(b) + y
    ensures a == b && x == y
    decreases a
  {
    if a == [] || b == [] {
      NoLinks(a, x, b, y);
    } else {
      var link := a[0];
      assert link.operand < link;
      var x', y' := LinkTokens(a[1..]) + x, LinkTokens(b[1..]) + y;
      FirstLink(a, x);
      FirstLink(b, y);
      OperandsRead(link.operand, b[0].operand, x', y');
      LinksRead(a[1..], b[1..], x, y);
      assert a == [a[0]] + a[1..] && b == [b[0]] + b[1..];
    }
  }

  lemma FirstLink(links: seq<Link>, x: seq<Token>)
    requires links != []
    ensures var s := LinkTokens(links) + x;
            && s[0] == Op(links[0].op)
            && s[1..] == OperandTokens(links[0].operand) + (LinkTokens(links[1..]) + x)
  {
    var o, rest := OperandTokens(links[0].operand), LinkTokens(links[1..]);
    assert LinkTokens(links) + x == [Op(links[0].op)] + (o + (rest + x));
  }

  lemma NoLinks(a: seq<Link>, x: seq<Token>, b: seq<Link>, y: seq<Token>)
    requires Ends(x) && Ends(y) && LinkTokens(a) + x == LinkTokens(b) + y
    requires a == [] || b == []
    ensures a == b && x == y
  {
    assert LinkTokens([]) + x == x && LinkTokens([]) + y == y;
    if a != [] {
      FirstLink(a, x);
    }
    if b != [] {
      FirstLink(b, y);
    }
  }

  // ---------------------------------------------------------------- trees back from chains

  datatype Tree = Operand(operand: Operand) | Node(left: Tree, op: Operator, right: Tree)

  // How a reader ranks the operators, loosest first.
  function Level(op: Operator): nat {
    match op
    case Or => 0
    case And => 1
    case BitwiseAnd | BitwiseOr | BitwiseXor => 2
    case BitwiseShiftLeft | BitwiseShiftRight => 3
    case Eq | NotEq | Lt | LtEq | Gt | GtEq | IsDistinctFrom | IsNotDistinctFrom => 4
    case AtArrow | ArrowAt => 5
    case LikeMatch | ILikeMatch | NotLikeMatch | NotILikeMatch => 6
    case RegexMatch | RegexIMatch | RegexNotMatch | RegexNotIMatch => 6
    case StringConcat => 7
    case Plus | Minus => 8
    case Multiply | Divide | Modulo => 9
  }

  lemma LevelsAgree(a: Operator, b: Operator)
    ensures a.Precedence() < b.Precedence() <==> Level(a) < Level(b)
  {
  }

  // The tree a reader builds, operators of one level grouping to the left.
  function Insert(t: Tree, op: Operator, o: Operand): Tree {
    if t.Node? && Level(t.op) < Level(op) then Node(t.left, t.op, Insert(t.right, op, o))
    else Node(t, op, Tree.Operand(o))
  }

  function Build(t: Tree, links: seq<Link>): Tree
    decreases links
  {
    if links == [] then t else Build(Insert(t, links[0].op, links[0].operand), links[1..])
  }

  predicate AllTighter(links: seq<Link>, p: int) {
    forall i :: 0 <= i < |links| ==> links[i].op.Precedence() > p
  }

  lemma {:induction false} BuildAppend(t: Tree, a: seq<Link>, b: seq<Link>)
    ensures Build(t, a + b) == Build(Build(t, a), b)
    decreases a
  {
    if a == [] {
      assert a + b == b;
    } else {
      assert (a + b)[1..] == a[1..] + b;
      BuildAppend(Insert(t, a[0].op, a[0].operand), a[1..], b);
    }
  }

  // Tighter operators stay within the right operand.
  lemma {:induction false} BuildRight(l: Tree, op: Operator, r: Tree, links: seq<Link>)
    requires AllTighter(links, op.Precedence())
    ensures Build(Node(l, op, r), links) == Node(l, op, Build(r, links))
    decreases links
  {
    if links != [] {
      LevelsAgree(op, links[0].op);
      BuildRight(l, op, Insert(r, links[0].op, links[0].operand), links[1..]);
    }
  }

  // The tree of an expression down to its parentheses.
  function Skeleton(e: Expr): Tree
    decreases e, 0
  {
    match e
    case Leaf(name) => Tree.Operand(Name(name))
    case Binary(l, op, r) => Node(ChildSkeleton(l, op), op, ChildSkeleton(r, op))
  }

  function ChildSkeleton(child: Expr, parent: Operator): Tree
    decreases child, 1
  {
    if BindsLooser(child, parent) then Tree.Operand(Group(ChainOf(child))) else Skeleton(child)
  }

  // No right operand has its parent's precedence.
  predicate NoRightTie(e: Expr) {
    e.Binary? ==>
      && NoRightTie(e.left) && NoRightTie(e.right)
      && (e.right.Binary? ==> e.right.op.Precedence() != e.op.Precedence())
  }

  // An expression's unparenthesised operators bind at least as tightly as its own.
  lemma {:induction false} ChainTighter(e: Expr, p: int)
    requires e.Binary? ==> e.op.Precedence() > p
    ensures AllTighter(ChainOf(e).rest, p)
    decreases e, 0
  {
    if e.Binary? {
      ChildTighter(e.left, e.op, p);
      ChildTighter(e.right, e.op, p);
    }
  }

  lemma {:induction false} ChildTighter(child: Expr, parent: Operator, p: int)
    requires parent.Precedence() > p
    ensures AllTighter(ChildChain(child, parent).rest, p)
    decreases child, 1
  {
    if !BindsLooser(child, parent) {
      ChainTighter(child, p);
    }
  }

  lemma {:induction false} BuildsItsSkeleton(e: Expr)
    requires NoRightTie(e)
    ensures var c := ChainOf(e); Build(Tree.Operand(c.first), c.rest) == Skeleton(e)
  {
    match e
    case Leaf(_) =>
    case Binary(l, op, r) =>
      var a, b := ChildChain(l, op), ChildChain(r, op);
      BuildsItsSkeleton(l);
      BuildsItsSkeleton(r);
      assert Build(Tree.Operand(a.first), a.rest) == ChildSkeleton(l, op);
      assert Build(Tree.Operand(b.first), b.rest) == ChildSkeleton(r, op);
      BuildAppend(Tree.Operand(a.first), a.rest + [Link(op, b.first)], b.rest);
      BuildAppend(Tree.Operand(a.first), a.rest, [Link(op, b.first)]);
      BuildOne(ChildSkeleton(l, op), op, b.first);
      if l.Binary? {
        LevelsAgree(l.op, op);
      }
      if !BindsLooser(r, op) {
        ChainTighter(r, op.Precedence());
      }
      BuildRight(ChildSkeleton(l, op), op, Tree.Operand(b.first), b.rest);
  }

  lemma BuildOne(t: Tree, op: Operator, o: Operand)
    ensures Build(t, [Link(op, o)]) == Insert(t, op, o)
  {
    assert [Link(op, o)][1..] == [];
    assert Build(Insert(t, op, o), [Link(op, o)][1..]) == Insert(t, op, o);
  }

  lemma {:induction false} ChainsDetermine(a: Expr, b: Expr)
    requires NoRightTie(a) && NoRightTie(b) && ChainOf(a) == ChainOf(b)
    ensures a == b
    decreases a, 1
  {
    BuildsItsSkeleton(a);
    BuildsItsSkeleton(b);
    SkeletonsDetermine(a, b);
  }

  lemma {:induction false} SkeletonsDetermine(a: Expr, b: Expr)
    requires NoRightTie(a) && NoRightTie(b) && Skeleton(a) == Skeleton(b)
    ensures a == b
    decreases a, 0
  {
    if a.Binary? {
      ChildrenDetermine(a.left, b.left, a.op);
      ChildrenDetermine(a.right, b.right, a.op);
    }
  }

  lemma {:induction false} ChildrenDetermine(a: Expr, b: Expr, parent: Operator)
    requires NoRightTie(a) && NoRightTie(b) && ChildSkeleton(a, parent) == ChildSkeleton(b, parent)
    ensures a == b
    decreases a, 2
  {
    if BindsLooser(a, parent) {
      ChainsDetermine(a, b);
    } else {
      SkeletonsDetermine(a, b);
    }
  }

  /** The printer is unambiguous among trees in which no right operand has its parent's
      precedence. */
  lemma PrintDetermines(a: Expr, b: Expr)
    requires NoRightTie(a) && NoRightTie(b) && Print(a) == Print(b)
    ensures a == b
  {
    PrintsItsChain(a);
    PrintsItsChain(b);
    assert Tokens(ChainOf(a)) + [] == Tokens(ChainOf(b)) + [];
    ChainsRead(ChainOf(a), ChainOf(b), [], []);
    ChainsDetermine(a, b);
  }

  // ---------------------------------------------------------------- when it is ambiguous

  // The same operands in the same order, ties grouped to the left.
  function Normalize(e: Expr): Expr {
    match e
    case Leaf(_) => e
    case Binary(l, op, r) => Attach(Normalize(l), op, Normalize(r))
  }

  function Attach(l: Expr, op: Operator, r: Expr): (e: Expr)
    ensures e.Binary? && e.op.Precedence() == op.Precedence()
    decreases r
  {
    if r.Binary? && r.op.Precedence() == op.Precedence() then Binary(Attach(l, op, r.left), r.op, r.right)
    else Binary(l, op, r)
  }

  lemma {:induction false} AttachPrints(l: Expr, op: Operator, r: Expr)
    ensures Print(Attach(l, op, r)) == Print(Binary(l, op, r))
    decreases r
  {
    if r.Binary? && r.op.Precedence() == op.Precedence() {
      AttachPrints(l, op, r.left);
      var x, y, z := PrintChild(l, op), PrintChild(r.left, r.op), PrintChild(r.right, r.op);
      assert PrintChild(r.left, op) == y;
      assert Print(Attach(l, op, r.left)) == x + [Op(op)] + y;
      assert Print(Attach(l, op, r)) == (x + [Op(op)] + y) + [Op(r.op)] + z;
      assert PrintChild(r, op) == Print(r) == y + [Op(r.op)] + z;
      assert Print(Binary(l, op, r)) == x + [Op(op)] + (y + [Op(r.op)] + z);
    }
  }

  lemma {:induction false} AttachHasNoTie(l: Expr, op: Operator, r: Expr)
    requires NoRightTie(l) && NoRightTie(r)
    ensures NoRightTie(Attach(l, op, r))
    decreases r
  {
    if r.Binary? && r.op.Precedence() == op.Precedence() {
      AttachHasNoTie(l, op, r.left);
    }
  }

  lemma {:induction false} NormalizeKeepsPrint(e: Expr)
    ensures Print(Normalize(e)) == Print(e) && NoRightTie(Normalize(e))
    ensures e.Binary? ==> Normalize(e).Binary? && Normalize(e).op.Precedence() == e.op.Precedence()
    ensures e.Leaf? ==> Normalize(e) == e
  {
    match e
    case Leaf(_) =>
    case Binary(l, op, r) =>
      NormalizeKeepsPrint(l);
      NormalizeKeepsPrint(r);
      AttachPrints(Normalize(l), op, Normalize(r));
      AttachHasNoTie(Normalize(l), op, Normalize(r));
  }

  /** A tree is its own grouping to the left exactly when it has no tie on the right. */
  lemma {:induction false} NormalStays(e: Expr)
    ensures Normalize(e) == e <==> NoRightTie(e)
  {
    NormalizeKeepsPrint(e);
    if e.Binary? && NoRightTie(e) {
      NormalStays(e.left);
      NormalStays(e.right);
    }
  }

  /** Exactly the grouping of ties is lost: two expressions print the same if and only if
      they are equal once ties are grouped to the left. */
  lemma PrintsSameIff(a: Expr, b: Expr)
    ensures Print(a) == Print(b) <==> Normalize(a) == Normalize(b)
  {
    NormalizeKeepsPrint(a);
    NormalizeKeepsPrint(b);
    if Print(a) == Print(b) {
      PrintDetermines(Normalize(a), Normalize(b));
    }
  }

  /** `a - (b - c)` and `(a - b) - c` print alike, although the comment on the printer says
      parentheses keep expressions unambiguous. */
  lemma MinusIsAmbiguous(a: string, b: string, c: string)
    ensures var x := Binary(Leaf(a), Minus, Binary(Leaf(b), Minus, Leaf(c)));
            var y := Binary(Binary(Leaf(a), Minus, Leaf(b)), Minus, Leaf(c));
            x != y && Print(x) == Print(y) && !NoRightTie(x) && NoRightTie(y)
  {
    AttachPrints(Leaf(a), Minus, Binary(Leaf(b), Minus, Leaf(c)));
  }

  // ---------------------------------------------------------------- read back

  function TreeOf(c: Chain): Tree {
    Build(Tree.Operand(c.first), c.rest)
  }

  // The expression a tree stands for, what is in parentheses read in its turn.
  ghost predicate Reads(t: Tree, e: Expr)
    decreases e, 1
  {
    match t
    case Operand(Name(name)) => e == Leaf(name)
    case Operand(Group(c)) => ReadsNode(TreeOf(c), e)
    case Node(_, _, _) => ReadsNode(t, e)
  }

  ghost predicate ReadsNode(t: Tree, e: Expr)
    decreases e, 0
  {
    t.Node? && e.Binary? && t.op == e.op && Reads(t.left, e.left) && Reads(t.right, e.right)
  }

  lemma {:induction false} SkeletonReads(e: Expr)
    requires NoRightTie(e)
    ensures Reads(Skeleton(e), e)
    decreases e, 0
  {
    if e.Binary? {
      ChildReads(e.left, e.op);
      ChildReads(e.right, e.op);
    }
  }

  lemma {:induction false} ChildReads(child: Expr, parent: Operator)
    requires NoRightTie(child)
    ensures Reads(ChildSkeleton(child, parent), child)
    decreases child, 1
  {
    SkeletonReads(child);
    if BindsLooser(child, parent) {
      BuildsItsSkeleton(child);
    }
  }

  /** A printed expression, read back with every operator at its level and those of one
      level grouping to the left, is the expression with its ties grouped to the left: there
      is one way to cut the tokens into operands and operators, and its tree is that. */
  lemma PrintReadsBack(e: Expr)
    ensures Tokens(ChainOf(e)) == Print(e)
    ensures forall c :: Tokens(c) == Print(e) ==> Reads(TreeOf(c), Normalize(e))
  {
    NormalizeKeepsPrint(e);
    PrintsItsChain(e);
    PrintsItsChain(Normalize(e));
    BuildsItsSkeleton(Normalize(e));
    SkeletonReads(Normalize(e));
    forall c | Tokens(c) == Print(e) ensures Reads(TreeOf(c), Normalize(e)) {
      var own := ChainOf(Normalize(e));
      assert Tokens(c) + [] == Tokens(own) + [];
      ChainsRead(c, own, [], []);
    }
  }
}
