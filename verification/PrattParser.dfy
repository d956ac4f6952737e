/** The infix core of the parser: literal operands joined by binary operators, grouped by binding power.
    Comparison chains, `in`, `not`, member access and application have rules of their own and are not
    among these operators. */
module PrattParser {
  import opened Collections

  datatype Token = Literal(value: nat) | Ident(src: string) | Sep(src: string) | Other

  datatype Power = Power(left: nat, right: nat)

  function InfixBp(tok: Token): Option<Power> {
    match tok
    case Ident(src) =>
      if src in {"or", "xor"} then Some(Power(20, 21))
      else if src == "and" then Some(Power(30, 31))
      else if src == "in" then Some(Power(40, 41))
      else None
    case Sep(src) =>
      if src in {"..", "..."} then Some(Power(50, 51))
      else if src in {"==", "!=", "<", "<=", ">", ">=", "><"} then Some(Power(60, 61))
      else if src in {">>", "<<", ">>>", "<<<"} then Some(Power(90, 91))
      else if src in {"+", "-"} then Some(Power(100, 101))
      else if src in {"*", "/", "//", "%", "%%", "/%"} then Some(Power(110, 111))
      else if src == "**" then Some(Power(121, 120))
      else if src == "." then Some(Power(140, 141))
      else None
    case _ => None
  }

  /** An operator whose grouping its binding power alone decides. */
  predicate IsPlain(tok: Token) {
    match InfixBp(tok)
    case None => false
    case Some(p) => p.left !in {40, 60, 140}
  }

  type Operator = t: Token | IsPlain(t) witness Sep("+")

  function Left(op: Operator): nat {
    InfixBp(op).value.left
  }

  function Right(op: Operator): nat {
    InfixBp(op).value.right
  }

  /** Every operator is plain and stands before a literal; nothing else is an operator. */
  ghost predicate Joined(toks: seq<Token>) {
    forall k :: 0 <= k < |toks| ==> JoinedAt(toks, k)
  }

  ghost predicate JoinedAt(toks: seq<Token>, k: nat)
    requires k < |toks|
  {
    && (InfixBp(toks[k]).Some? ==> IsPlain(toks[k]) && k + 1 < |toks| && toks[k + 1].Literal?)
    && toks[k] != Ident("not")
  }

  datatype Tree = Leaf(value: nat) | Infix(op: Operator, lhs: Tree, rhs: Tree)

  // ---- The parser as a function ---------------------------------------------------------------------

  /** Parses from the literal at `pos` everything that binds at least as tightly as `min`. */
  function Parse(toks: seq<Token>, pos: nat, min: nat): (r: (Tree, nat))
    requires Joined(toks) && pos < |toks| && toks[pos].Literal?
    ensures pos < r.1 <= |toks|
    decreases |toks| - pos, 0
  {
    ParseFrom(toks, pos + 1, min, Leaf(toks[pos].value))
  }

  /** Goes on with what is already parsed on the left. */
  function ParseFrom(toks: seq<Token>, pos: nat, min: nat, lhs: Tree): (r: (Tree, nat))
    requires Joined(toks) && pos <= |toks|
    ensures pos <= r.1 <= |toks|
    decreases |toks| - pos, 1
  {
    if pos == |toks| || !IsPlain(toks[pos]) || Left(toks[pos]) < min then (lhs, pos)
    else
      assert JoinedAt(toks, pos);
      var op := toks[pos];
      var rhs := Parse(toks, pos + 1, Right(op));
      ParseFrom(toks, rhs.1, min, Infix(op, lhs, rhs.0))
  }

  // ---- The parser as it runs ------------------------------------------------------------------------

  datatype Node = LitNode(value: nat) | InfixNode(op: Operator, lhs: nat, rhs: nat)

  /** Children come before their parents in the arena. */
  predicate WellFormed(nodes: seq<Node>) {
    forall i :: 0 <= i < |nodes| && nodes[i].InfixNode? ==> nodes[i].lhs < i && nodes[i].rhs < i
  }

  function TreeAt(nodes: seq<Node>, id: nat): Tree
    requires WellFormed(nodes) && id < |nodes|
    decreases id
  {
    match nodes[id]
    case LitNode(v) => Leaf(v)
    case InfixNode(op, l, r) => Infix(op, TreeAt(nodes, l), TreeAt(nodes, r))
  }

  /** Appending to the arena leaves the trees in it alone. */
  lemma {:induction false} TreeKept(nodes: seq<Node>, more: seq<Node>, id: nat)
    requires WellFormed(nodes) && WellFormed(more) && nodes <= more && id < |nodes|
    ensures TreeAt(more, id) == TreeAt(nodes, id)
    decreases id
  {
    match nodes[id]
    case LitNode(_) =>
    case InfixNode(_, l, r) =>
      TreeKept(nodes, more, l);
      TreeKept(nodes, more, r);
  }

  class Parser {
    const toks: seq<Token>
    var pos: nat
    var nodes: seq<Node>

    ghost predicate Valid()
      reads this
    {
      Joined(toks) && pos <= |toks| && WellFormed(nodes)
    }

    constructor (toks: seq<Token>)
      requires Joined(toks)
      ensures Valid() && this.toks == toks && pos == 0 && nodes == []
    {
      this.toks := toks;
      pos := 0;
      nodes := [];
    }

    method Bump() returns (tok: Token)
      requires Valid() && pos < |toks|
      modifies this`pos
      ensures Valid() && tok == toks[old(pos)] && pos == old(pos) + 1
    {
      tok := toks[pos];
      pos := pos + 1;
    }

    method NewNode(n: Node) returns (id: nat)
      requires Valid() && (n.InfixNode? ==> n.lhs < |nodes| && n.rhs < |nodes|)
      modifies this`nodes
      ensures Valid() && id == |old(nodes)| && nodes == old(nodes) + [n]
    {
      id := |nodes|;
      nodes := nodes + [n];
    }

    /** Whether the next token goes on the expression at this level. */
    predicate GoesOn(min: nat)
      reads this
    {
      pos < |toks| && IsPlain(toks[pos]) && Left(toks[pos]) >= min
    }

    method ParseInfix(min: nat) returns (id: nat)
      requires Valid() && pos < |toks| && toks[pos].Literal?
      modifies this
      ensures Valid() && old(nodes) <= nodes && id < |nodes| && pos > old(pos)
      ensures (TreeAt(nodes, id), pos) == Parse(toks, old(pos), min)
      decreases |toks| - pos, 0
    {
      var atom := Bump();
      var lhs: nat := NewNode(LitNode(atom.value));
      while GoesOn(min)
        invariant Valid() && old(nodes) <= nodes && lhs < |nodes| && pos > old(pos)
        invariant ParseFrom(toks, pos, min, TreeAt(nodes, lhs)) == Parse(toks, old(pos), min)
        decreases |toks| - pos
      {
        lhs := ParseRight(lhs);
      }
      id := lhs;
    }

    method ParseInfixFrom(start: nat, min: nat) returns (id: nat)
      requires Valid() && start < |nodes|
      modifies this
      ensures Valid() && old(nodes) <= nodes && id < |nodes| && pos >= old(pos)
      ensures (TreeAt(nodes, id), pos) == ParseFrom(toks, old(pos), min, TreeAt(old(nodes), start))
    {
      var lhs: nat := start;
      while GoesOn(min)
        invariant Valid() && old(nodes) <= nodes && lhs < |nodes| && pos >= old(pos)
        invariant ParseFrom(toks, pos, min, TreeAt(nodes, lhs)) == ParseFrom(toks, old(pos), min, TreeAt(old(nodes), start))
        decreases |toks| - pos
      {
        lhs := ParseRight(lhs);
      }
      id := lhs;
    }

    /** Takes the operator and its right operand. */
    method ParseRight(lhs: nat) returns (id: nat)
      requires Valid() && pos < |toks| && IsPlain(toks[pos]) && lhs < |nodes|
      modifies this
      ensures Valid() && old(nodes) <= nodes && id < |nodes| && pos > old(pos)
      ensures JoinedAt(toks, old(pos))
      ensures var op := toks[old(pos)];
              var rhs := Parse(toks, old(pos) + 1, Right(op));
              TreeAt(nodes, id) == Infix(op, TreeAt(old(nodes), lhs), rhs.0) && pos == rhs.1
      decreases |toks| - pos
    {
      ghost var before := nodes;
      assert JoinedAt(toks, pos);
      var op := Bump();
      var rhs := ParseInfix(Right(op));
      ghost var middle := nodes;
      TreeKept(before, middle, lhs);
      id := NewNode(InfixNode(op, lhs, rhs));
      TreeKept(middle, nodes, lhs);
      TreeKept(middle, nodes, rhs);
    }
  }

  // ---- What the tree is -----------------------------------------------------------------------------

  /** The tokens of a tree, from left to right. */
  function Yield(t: Tree): (r: seq<Token>)
    ensures |r| > 0
  {
    match t
    case Leaf(v) => [Literal(v)]
    case Infix(op, l, r) => Yield(l) + [op] + Yield(r)
  }

  /** Every expression that ends where `t` ends binds its operator tighter than `next` would. */
  predicate EndsBefore(t: Tree, next: Operator) {
    match t
    case Leaf(_) => true
    case Infix(op, _, r) => Left(next) < Right(op) && EndsBefore(r, next)
  }

  /** The tree is grouped by binding powers: an operator binds at least as tightly as its surroundings
      ask, its right operand at least as tightly as the operator asks, and what ends at an operator's left
      would not have taken the operator in. */
  predicate Respects(t: Tree, min: nat) {
    match t
    case Leaf(_) => true
    case Infix(op, l, r) => Left(op) >= min && Respects(l, min) && EndsBefore(l, op) && Respects(r, Right(op))
  }

  /** What stands at `pos` does not go on an expression parsed at `min`. */
  predicate Stops(toks: seq<Token>, pos: nat, min: nat) {
    pos >= |toks| || !IsPlain(toks[pos]) || Left(toks[pos]) < min
  }

  predicate EndsAt(t: Tree, toks: seq<Token>, pos: nat) {
    pos >= |toks| || !IsPlain(toks[pos]) || EndsBefore(t, toks[pos])
  }

  /** The parser's tree is grouped by binding powers, its tokens are exactly the ones consumed, and what
      comes next does not belong to it. */
  lemma {:induction false} ParseSound(toks: seq<Token>, pos: nat, min: nat)
    requires Joined(toks) && pos < |toks| && toks[pos].Literal?
    ensures var (t, end) := Parse(toks, pos, min);
            Respects(t, min) && Yield(t) == toks[pos..end] && EndsAt(t, toks, end) && Stops(toks, end, min)
    decreases |toks| - pos, 0
  {
    assert toks[pos..pos + 1] == [toks[pos]];
    ParseFromSound(toks, pos, pos + 1, min, Leaf(toks[pos].value));
  }

  lemma Cut(toks: seq<Token>, start: nat, mid: nat, end: nat)
    requires start <= mid < end <= |toks|
    ensures toks[start..end] == toks[start..mid] + [toks[mid]] + toks[mid + 1..end]
  {
  }

  lemma {:induction false} ParseFromSound(toks: seq<Token>, start: nat, pos: nat, min: nat, lhs: Tree)
    requires Joined(toks) && start <= pos <= |toks|
    requires Respects(lhs, min) && Yield(lhs) == toks[start..pos] && EndsAt(lhs, toks, pos)
    ensures var (t, end) := ParseFrom(toks, pos, min, lhs);
            Respects(t, min) && Yield(t) == toks[start..end] && EndsAt(t, toks, end) && Stops(toks, end, min)
    decreases |toks| - pos, 1
  {
    hide InfixBp;
    if !Stops(toks, pos, min) {
      assert JoinedAt(toks, pos);
      var op := toks[pos];
      var (rhs, end) := Parse(toks, pos + 1, Right(op));
      ParseSound(toks, pos + 1, Right(op));
      Cut(toks, start, pos, end);
      ParseFromSound(toks, start, end, min, Infix(op, lhs, rhs));
    }
  }

  /** Any tree grouped by binding powers is found by the parser on its tokens. */
  lemma {:induction false} ParseComplete(toks: seq<Token>, pos: nat, min: nat, t: Tree, end: nat)
    requires Joined(toks) && pos < end <= |toks| && Yield(t) == toks[pos..end] && toks[pos].Literal?
    requires Respects(t, min) && EndsAt(t, toks, end)
    ensures Parse(toks, pos, min) == ParseFrom(toks, end, min, t)
    decreases t
  {
    match t
    case Leaf(v) =>
      assert toks[pos] == toks[pos..end][0] && end == pos + 1;
    case Infix(op, l, r) =>
      hide InfixBp, Joined, Yield;
      var mid := pos + |Yield(l)|;
      YieldParts(toks, pos, end, op, l, r);
      ParseComplete(toks, pos, min, l, mid);
      ParseComplete(toks, mid + 1, Right(op), r, end);
      assert Stops(toks, end, Right(op));
      assert ParseFrom(toks, end, Right(op), r) == (r, end);
  }

  lemma YieldParts(toks: seq<Token>, pos: nat, end: nat, op: Operator, l: Tree, r: Tree)
    requires Joined(toks) && pos < end <= |toks| && Yield(Infix(op, l, r)) == toks[pos..end]
    ensures var mid := pos + |Yield(l)|;
            && mid + 1 < end && toks[pos..mid] == Yield(l) && toks[mid] == op && toks[mid + 1..end] == Yield(r)
            && IsPlain(toks[mid]) && toks[mid + 1].Literal?
  {
    hide InfixBp;
    var all, n := toks[pos..end], |Yield(l)|;
    assert all == Yield(l) + [op] + Yield(r);
    assert toks[pos..pos + n] == all[..n];
    assert toks[pos + n] == all[n];
    assert toks[pos + n + 1..end] == all[n + 1..];
    assert JoinedAt(toks, pos + n);
  }

  /** So the parser's tree is the only one: for any tree, being grouped by binding powers, yielding the
      tokens up to `end` and ending where nothing goes on is the same as being what the parser returns. */
  lemma OnlyTree(toks: seq<Token>, pos: nat, min: nat, t: Tree, end: nat)
    requires Joined(toks) && pos < end <= |toks| && toks[pos].Literal?
    ensures Parse(toks, pos, min) == (t, end)
            <==> Respects(t, min) && Yield(t) == toks[pos..end] && EndsAt(t, toks, end) && Stops(toks, end, min)
  {
    ParseSound(toks, pos, min);
    if Respects(t, min) && Yield(t) == toks[pos..end] && EndsAt(t, toks, end) && Stops(toks, end, min) {
      ParseComplete(toks, pos, min, t, end);
    }
  }

  /** At the lowest level the parser takes operands and operators as long as they alternate. */
  lemma {:induction false} TakesAll(toks: seq<Token>, pos: nat, lhs: Tree)
    requires Joined(toks) && pos <= |toks|
    ensures var end := ParseFrom(toks, pos, 0, lhs).1; end == |toks| || !IsPlain(toks[end])
    decreases |toks| - pos
  {
    if !Stops(toks, pos, 0) {
      assert JoinedAt(toks, pos);
      var rhs := Parse(toks, pos + 1, Right(toks[pos]));
      TakesAll(toks, rhs.1, Infix(toks[pos], lhs, rhs.0));
    }
  }

  lemma LeafRespects(v: nat, min: nat)
    ensures Respects(Leaf(v), min)
  {
  }

  /** Two operators in a row group to the left exactly when the second binds less than the first asks of
      its right operand. So every operator but `**` is left-associative. */
  lemma TwoOperators(a: nat, op: Operator, b: nat, op': Operator, c: nat)
    ensures var toks := [Literal(a), op, Literal(b), op', Literal(c)];
            && Joined(toks)
            && Parse(toks, 0, 0) == (if Left(op') < Right(op) then Infix(op', Infix(op, Leaf(a), Leaf(b)), Leaf(c))
                                     else Infix(op, Leaf(a), Infix(op', Leaf(b), Leaf(c))), 5)
  {
    var toks := [Literal(a), op, Literal(b), op', Literal(c)];
    assert forall k :: 0 <= k < 5 ==> JoinedAt(toks, k) by {
      assert JoinedAt(toks, 0) && JoinedAt(toks, 1) && JoinedAt(toks, 2) && JoinedAt(toks, 3) && JoinedAt(toks, 4);
    }
    var t := if Left(op') < Right(op) then Infix(op', Infix(op, Leaf(a), Leaf(b)), Leaf(c))
             else Infix(op, Leaf(a), Infix(op', Leaf(b), Leaf(c)));
    assert Yield(Infix(op, Leaf(a), Leaf(b))) == [Literal(a)] + [op] + [Literal(b)];
    assert Yield(Infix(op', Leaf(b), Leaf(c))) == [Literal(b)] + [op'] + [Literal(c)];
    assert toks[0..5] == toks && Yield(t) == toks;
    LeafRespects(b, Right(op));
    LeafRespects(c, Right(op'));
    if Left(op') < Right(op) {
      assert Respects(t.lhs, 0) && EndsBefore(t.lhs, op') && Respects(t.rhs, Right(op'));
    } else {
      assert Respects(t.rhs, Right(op)) && EndsBefore(t.lhs, op) && Respects(t.lhs, 0);
    }
    assert Respects(t, 0) && EndsAt(t, toks, 5) && Stops(toks, 5, 0);
    OnlyTree(toks, 0, 0, t, 5);
  }
  /** The operators from the loosest to the tightest. */
  const LADDER: seq<set<Token>> :=
    [{Ident("or"), Ident("xor")}, {Ident("and")}, {Sep(".."), Sep("...")}, {Sep(">>"), Sep("<<"), Sep(">>>"), Sep("<<<")},
     {Sep("+"), Sep("-")}, {Sep("*"), Sep("/"), Sep("//"), Sep("%"), Sep("%%"), Sep("/%")}, {Sep("**")}]

  lemma StepPower(i: nat, op: Token)
    requires i < |LADDER| && op in LADDER[i]
    ensures InfixBp(op) == Some([Power(20, 21), Power(30, 31), Power(50, 51), Power(90, 91),
                                 Power(100, 101), Power(110, 111), Power(121, 120)][i])
  {
  }

  /** Exactly the operators on the ladder are plain. Of two in a row the one on the higher step takes the operand
      between them, and of two on one step the first, but for `**`, whose step groups to the right. */
  lemma Ladder(a: nat, i: nat, op: Token, b: nat, j: nat, op': Token, c: nat)
    requires i < |LADDER| && j < |LADDER| && op in LADDER[i] && op' in LADDER[j]
    ensures IsPlain(op) && IsPlain(op')
    ensures Parse([Literal(a), op, Literal(b), op', Literal(c)], 0, 0).0
            == if i > j || (i == j && op != Sep("**")) then Infix(op', Infix(op, Leaf(a), Leaf(b)), Leaf(c))
               else Infix(op, Leaf(a), Infix(op', Leaf(b), Leaf(c)))
  {
    hide InfixBp, Parse;
    StepPower(i, op);
    StepPower(j, op');
    TwoOperators(a, op, b, op', c);
  }

  lemma PlainIsOnLadder(op: Token)
    ensures IsPlain(op) <==> exists i: nat :: i < |LADDER| && op in LADDER[i]
  {
    if IsPlain(op) {
      var i := match InfixBp(op).value.left
        case 20 => 0
        case 30 => 1
        case 50 => 2
        case 90 => 3
        case 100 => 4
        case 110 => 5
        case _ => 6;
      assert op in LADDER[i];
    }
  }
}
