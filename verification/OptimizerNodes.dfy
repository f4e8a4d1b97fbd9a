/** Constant folding as it runs (src/ir/optimize.c:159-348): expression nodes on the heap that
    are overwritten in place, their children destroyed. */
module OptimizerNodes {
  import opened Ir
  import opened Values
  import opened Optimizer

  /** A node without its children. */
  datatype Head =
    | HInt(n: int) | HBool(b: bool) | HStr(s: string) | HLocal(name: Name)
    | HUnary(uop: UnaryOp) | HBinary(bop: BinaryOp, operands: Type) | HIf
    | HCall(target: Target, ret: Type) | HField(field: FieldName) | HOk
    | HErr(resultType: Type) | HZAlloc(allocType: Type, zone: Name)

  function HeadOf(e: Expr): Head {
    match e
    case Int(n) => HInt(n)
    case Bool(b) => HBool(b)
    case Str(s) => HStr(s)
    case Local(x) => HLocal(x)
    case Unary(op, _) => HUnary(op)
    case Binary(op, t, _, _) => HBinary(op, t)
    case IfExpr(_, _, _) => HIf
    case Call(target, ret, _) => HCall(target, ret)
    case Field(_, f) => HField(f)
    case Ok(_) => HOk
    case Err(t) => HErr(t)
    case ZAlloc(t, z) => HZAlloc(t, z)
  }

  function KidsOf(e: Expr): (ks: seq<Expr>)
    ensures forall k :: 0 <= k < |ks| ==> ks[k] < e
  {
    match e
    case Unary(_, a) => [a]
    case Binary(_, _, l, r) => [l, r]
    case IfExpr(c, t, f) => [c, t, f]
    case Call(_, _, args) => args
    case Field(a, _) => [a]
    case Ok(a) => [a]
    case _ => []
  }

  /** The same node over other children. */
  function Over(e: Expr, ks: seq<Expr>): (r: Expr)
    requires |ks| == |KidsOf(e)|
    ensures HeadOf(r) == HeadOf(e) && KidsOf(r) == ks
  {
    match e
    case Unary(op, _) => Unary(op, ks[0])
    case Binary(op, t, _, _) => Binary(op, t, ks[0], ks[1])
    case IfExpr(_, _, _) => IfExpr(ks[0], ks[1], ks[2])
    case Call(target, ret, _) => Call(target, ret, ks)
    case Field(_, f) => Field(ks[0], f)
    case Ok(_) => Ok(ks[0])
    case _ => e
  }

  /** Folding at the top of an expression whose children are folded. */
  function FoldTop(h: Host, e: Expr): Expr {
    match e
    case Unary(op, a) => FoldUnary(h, op, a)
    case Binary(op, t, l, r) => FoldBinary(h, op, t, l, r)
    case IfExpr(c, t, f) => FoldIf(c, t, f)
    case _ => e
  }

  lemma {:induction false} OptArgsAt(h: Host, args: seq<Expr>, k: nat)
    requires k < |args|
    ensures OptArgs(h, args)[k] == OptExpr(h, args[k])
    decreases args
  {
    hide OptExpr;
    if k > 0 {
      OptArgsAt(h, args[1..], k - 1);
    }
  }

  /** Optimizing is optimizing the children and folding at the top. */
  lemma OptExprBottomUp(h: Host, e: Expr)
    ensures OptExpr(h, e) == FoldTop(h, Over(e, OptArgs(h, KidsOf(e))))
  {
    hide FoldUnary, FoldBinary, FoldIf;
    var ks := KidsOf(e);
    forall k | 0 <= k < |ks|
      ensures OptArgs(h, ks)[k] == OptExpr(h, ks[k])
    {
      OptArgsAt(h, ks, k);
    }
  }

  /** All nodes below these. */
  ghost function Below(kids: seq<Node>): set<Node>
    reads kids
  {
    set k, o | 0 <= k < |kids| && o in kids[k].repr :: o
  }

  class Node {
    var head: Head
    var kids: seq<Node>
    ghost var tree: Expr
    ghost var repr: set<Node>

    /** The node and all below it form a tree of separate nodes, which repr holds exactly. */
    ghost predicate Valid()
      reads this, repr
      decreases repr
    {
      && this in repr && head == HeadOf(tree) && |kids| == |KidsOf(tree)|
      && (forall k :: 0 <= k < |kids| ==>
            kids[k] in repr && kids[k].repr <= repr - {this} && kids[k].Valid() && kids[k].tree == KidsOf(tree)[k])
      && (forall j, k :: 0 <= j < k < |kids| ==> kids[j].repr !! kids[k].repr)
      && repr == {this} + Below(kids)
    }
  }

  /** The nodes of `was` are those still in use and those destroyed, none of them both. */
  ghost predicate Accounted(was: set<Node>, used: set<Node>, destroyed: set<Node>) {
    used + destroyed == was && used !! destroyed
  }

  /** Rewrites an expression; every node it no longer uses is destroyed once. */
  method OptimizeNode(h: Host, n: Node) returns (ghost destroyed: set<Node>)
    requires n.Valid()
    modifies n.repr
    ensures n.Valid() && n in n.repr && n.tree == OptExpr(h, old(n.tree)) && Accounted(old(n.repr), n.repr, destroyed)
    decreases n.tree, 5
  {
    hide OptExpr, FoldTop, Over, OptArgs, Node.Valid, HeadOf, KidsOf;
    ghost var e := n.tree;
    destroyed := OptimizeKids(h, n);
    OptExprBottomUp(h, e);
    ghost var more := FoldNode(h, n);
    destroyed := destroyed + more;
  }

  method OptimizeKids(h: Host, n: Node) returns (ghost destroyed: set<Node>)
    requires n.Valid()
    modifies n.repr
    ensures n.Valid() && n in n.repr && n.tree == Over(old(n.tree), OptArgs(h, KidsOf(old(n.tree))))
    ensures Accounted(old(n.repr), n.repr, destroyed)
    decreases n.tree, 4
  {
    hide OptExpr, Over, OptArgs, HeadOf, KidsOf, Below;
    ghost var e := n.tree;
    ghost var ks := KidsOf(e);
    BelowKids(n);
    destroyed := OptimizeEach(h, e, n.kids, ks, n.repr - {n});
    forall k | 0 <= k < |ks|
      ensures OptArgs(h, ks)[k] == n.kids[k].tree
    {
      OptArgsAt(h, ks, k);
    }
    BelowHolds(n.kids, n.repr - {n});
    n.tree := Over(e, OptArgs(h, ks));
    n.repr := {n} + Below(n.kids);
  }

  lemma BelowHolds(kids: seq<Node>, inside: set<Node>)
    requires Separate(kids, inside)
    ensures Below(kids) <= inside
    ensures forall k :: 0 <= k < |kids| ==> kids[k] in Below(kids) && kids[k].repr <= Below(kids)
  {
    hide Node.Valid;
  }

  /** Separate trees inside a set of nodes. */
  ghost predicate Separate(kids: seq<Node>, inside: set<Node>)
    reads kids, inside
  {
    && (forall k :: 0 <= k < |kids| ==> kids[k] in kids[k].repr && kids[k].repr <= inside && kids[k].Valid())
    && (forall j, k :: 0 <= j < k < |kids| ==> kids[j].repr !! kids[k].repr)
  }

  /** The children, one after the other. */
  method OptimizeEach(h: Host, ghost e: Expr, kids: seq<Node>, ghost ks: seq<Expr>, ghost inside: set<Node>)
    returns (ghost destroyed: set<Node>)
    requires Separate(kids, inside) && |ks| == |kids| && forall k :: 0 <= k < |ks| ==>
      kids[k].tree == ks[k] && ks[k] < e
    modifies inside
    ensures Separate(kids, inside) && forall k :: 0 <= k < |ks| ==> kids[k].tree == OptExpr(h, ks[k])
    ensures Accounted(old(Below(kids)), Below(kids), destroyed)
    decreases e, 3
  {
    hide OptExpr, Node.Valid, Below;
    destroyed := {};
    var i := 0;
    while i < |kids|
      invariant i <= |kids| && Separate(kids, inside)
      invariant forall k :: 0 <= k < |ks| ==> kids[k].tree == if k < i then OptExpr(h, ks[k]) else ks[k]
      invariant Accounted(old(Below(kids)), Below(kids), destroyed)
    {
      ghost var more := OptimizeOne(h, e, kids, i, inside);
      destroyed := destroyed + more;
      i := i + 1;
    }
  }

  /** One of the children; the others stay as they are. */
  method OptimizeOne(h: Host, ghost e: Expr, kids: seq<Node>, i: nat, ghost inside: set<Node>)
    returns (ghost destroyed: set<Node>)
    requires Separate(kids, inside) && i < |kids| && kids[i].tree < e
    modifies kids[i].repr
    ensures Separate(kids, inside) && kids[i].tree == OptExpr(h, old(kids[i].tree))
    ensures forall k :: 0 <= k < |kids| && k != i ==> kids[k].tree == old(kids[k].tree)
    ensures Accounted(old(Below(kids)), Below(kids), destroyed)
    decreases e, 2
  {
    hide OptExpr, Node.Valid;
    assert forall k :: 0 <= k < |kids| && k != i ==> kids[k].repr !! kids[i].repr && kids[k] !in kids[i].repr;
    destroyed := OptimizeNode(h, kids[i]);
    assert forall k :: 0 <= k < |kids| && k != i ==> kids[k].repr == old(kids[k].repr) && kids[k].Valid();
  }

  /** Frees a whole tree: no node twice, and none left. */
  method DestroyTree(n: Node) returns (ghost destroyed: set<Node>)
    requires n.Valid()
    ensures destroyed == n.repr
    decreases n.tree, 1
  {
    hide HeadOf, KidsOf, Below;
    BelowKids(n);
    destroyed := DestroyEach(n.kids, n.repr - {n}, n.tree);
    assert n !in destroyed;
    destroyed := destroyed + {n};
  }

  method DestroyEach(kids: seq<Node>, ghost inside: set<Node>, ghost e: Expr) returns (ghost destroyed: set<Node>)
    requires Separate(kids, inside) && forall k :: 0 <= k < |kids| ==> kids[k].tree < e
    ensures destroyed == Below(kids)
    decreases e, 0
  {
    hide Node.Valid;
    destroyed := {};
    assert kids[..0] == [];
    for i := 0 to |kids|
      invariant destroyed == Below(kids[..i])
    {
      ghost var more := DestroyTree(kids[i]);
      assert more !! destroyed;
      assert kids[..i + 1] == kids[..i] + [kids[i]];
      BelowPush(kids[..i], kids[i]);
      destroyed := destroyed + more;
    }
    assert kids[..|kids|] == kids;
  }

  lemma BelowPush(kids: seq<Node>, n: Node)
    ensures Below(kids + [n]) == Below(kids) + n.repr
  {
    var all := kids + [n];
    assert all[|kids|] == n;
    assert forall k :: 0 <= k < |kids| ==> all[k] == kids[k];
  }

  /** The node becomes a literal; its children are destroyed. */
  method Replace(n: Node, head: Head, ghost e: Expr) returns (ghost destroyed: set<Node>)
    requires n.Valid() && HeadOf(e) == head && KidsOf(e) == []
    modifies n
    ensures n.Valid() && n.tree == e && Accounted(old(n.repr), n.repr, destroyed)
  {
    hide HeadOf, KidsOf;
    BelowKids(n);
    destroyed := DestroyEach(n.kids, n.repr - {n}, n.tree);
    n.head, n.kids, n.tree, n.repr := head, [], e, {n};
    assert Below(n.kids) == {};
  }

  /** The node becomes a copy of one of its children, whose own node is destroyed with the
      other children. */
  method ReplaceWithChild(n: Node, k: nat) returns (ghost destroyed: set<Node>)
    requires n.Valid() && k < |n.kids|
    modifies n
    ensures n.Valid() && n.tree == KidsOf(old(n.tree))[k] && Accounted(old(n.repr), n.repr, destroyed)
  {
    hide HeadOf, KidsOf, Below;
    var selected := n.kids[k];
    BelowKids(n);
    var others := n.kids[..k] + n.kids[k + 1..];
    assert forall i :: 0 <= i < |others| ==> others[i] == n.kids[if i < k then i else i + 1];
    destroyed := DestroyEach(others, n.repr - {n}, n.tree);
    destroyed := destroyed + {selected};
    BelowSplit(n.kids, k);
    assert selected.Valid() && n !in selected.repr;
    assert selected.repr == {selected} + Below(selected.kids) && selected !in Below(selected.kids) by {
      BelowKids(selected);
    }
    n.head, n.kids, n.tree, n.repr := selected.head, selected.kids, selected.tree, {n} + Below(selected.kids);
  }

  lemma BelowKids(n: Node)
    requires n.Valid()
    ensures n !in Below(n.kids) && n.repr == {n} + Below(n.kids)
    ensures forall k :: 0 <= k < |n.kids| ==> n.kids[k] in Below(n.kids) && n.kids[k].repr <= Below(n.kids)
  {
    assert forall k :: 0 <= k < |n.kids| ==> n.kids[k].Valid();
  }

  lemma BelowSplit(kids: seq<Node>, k: nat)
    requires k < |kids| && forall i, j :: 0 <= i < j < |kids| ==> kids[i].repr !! kids[j].repr
    ensures Accounted(Below(kids), kids[k].repr, Below(kids[..k] + kids[k + 1..]))
  {
    var others := kids[..k] + kids[k + 1..];
    forall o | o in Below(kids)
      ensures o in kids[k].repr || o in Below(others)
    {
      var i :| 0 <= i < |kids| && o in kids[i].repr;
      if i != k {
        assert others[if i < k then i else i - 1] == kids[i];
      }
    }
    forall o | o in Below(others)
      ensures o in Below(kids) && o !in kids[k].repr
    {
      var i :| 0 <= i < |others| && o in others[i].repr;
      assert others[i] == kids[if i < k then i else i + 1];
    }
  }

  method FoldNode(h: Host, n: Node) returns (ghost destroyed: set<Node>)
    requires n.Valid()
    modifies n
    ensures n.Valid() && n in n.repr && n.tree == FoldTop(h, old(n.tree)) && Accounted(old(n.repr), n.repr, destroyed)
  {
    hide FoldUnary, FoldBinary, FoldIf, Below;
    destroyed := {};
    if n.head.HUnary? {
      destroyed := FoldUnaryNode(h, n);
    } else if n.head.HBinary? {
      destroyed := FoldBinaryNode(h, n);
    } else if n.head.HIf? {
      destroyed := FoldIfNode(n);
    }
  }

  method FoldUnaryNode(h: Host, n: Node) returns (ghost destroyed: set<Node>)
    requires n.Valid() && n.head.HUnary?
    modifies n
    ensures n.Valid() && n.tree == FoldUnary(h, old(n.tree).uop, old(n.tree).operand)
    ensures Accounted(old(n.repr), n.repr, destroyed)
  {
    hide Below;
    destroyed := {};
    var op, a := n.head.uop, n.kids[0].head;
    if op.Negate? && a.HInt? {
      var value := if InInt64(-a.n) then -a.n else h(Sub, 0, a.n);
      destroyed := Replace(n, HInt(value), Int(value));
    } else if op.Not? && a.HBool? {
      destroyed := Replace(n, HBool(!a.b), Bool(!a.b));
    }
  }

  method FoldIfNode(n: Node) returns (ghost destroyed: set<Node>)
    requires n.Valid() && n.head.HIf?
    modifies n
    ensures n.Valid() && n.tree == FoldIf(old(n.tree).cond, old(n.tree).thenExpr, old(n.tree).elseExpr)
    ensures Accounted(old(n.repr), n.repr, destroyed)
  {
    hide Below;
    destroyed := {};
    var c := n.kids[0].head;
    if c.HBool? {
      destroyed := ReplaceWithChild(n, if c.b then 1 else 2);
    }
  }

  method FoldBinaryNode(h: Host, n: Node) returns (ghost destroyed: set<Node>)
    requires n.Valid() && n.head.HBinary?
    modifies n
    ensures n.Valid()
    ensures n.tree == FoldBinary(h, old(n.tree).bop, old(n.tree).operands, old(n.tree).left, old(n.tree).right)
    ensures Accounted(old(n.repr), n.repr, destroyed)
  {
    hide Arithmetic, Below;
    destroyed := {};
    var op, l, r := n.head.bop, n.kids[0].head, n.kids[1].head;
    if l.HInt? && r.HInt? {
      if IsArithmetic(op) {
        if (op.Div? || op.Mod?) && r.n == 0 {
          return;
        }
        var value := HostArithmetic(h, op, l.n, r.n);
        destroyed := Replace(n, HInt(value), Int(value));
      } else if !op.And? && !op.Or? {
        var value := if op.Equal? then l.n == r.n else if op.NotEqual? then l.n != r.n else Compare(op, l.n, r.n);
        destroyed := Replace(n, HBool(value), Bool(value));
      }
    } else if l.HBool? && r.HBool? {
      if op.Equal? || op.NotEqual? || op.And? || op.Or? {
        var value :=
          if op.Equal? then l.b == r.b
          else if op.NotEqual? then l.b != r.b
          else if op.And? then l.b && r.b
          else l.b || r.b;
        destroyed := Replace(n, HBool(value), Bool(value));
      }
    } else if l.HStr? && r.HStr? {
      if op.Equal? || op.NotEqual? {
        var value := (l.s == r.s) == op.Equal?;
        destroyed := Replace(n, HBool(value), Bool(value));
      }
    }
  }
}
