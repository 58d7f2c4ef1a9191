/** What the shunting-yard converter computes on an input without
    parentheses: the postfix form of a parse tree whose root is the operator
    of least precedence — the leftmost such operator when ties are kept on
    the stack (equal precedences group to the right), the rightmost when
    they are popped (equal precedences group to the left), which the
    corrected converter does for every operator but `^`. */
module ShuntingYardChain {
  import opened Results
  import opened Tokens
  import opened ShuntingYard
  import ShuntingYardProps

  /** An operator followed by its right-hand operand. */
  datatype Link = Link(op: char, arg: Token)

  /** An alternating input `x0 op1 x1 … opn xn` of operands and binary
      operators. */
  predicate IsChain(x0: Token, links: seq<Link>) {
    IsOperand(x0) && forall j :: 0 <= j < |links| ==> IsBinaryOperator(links[j].op) && IsOperand(links[j].arg)
  }

  function LinkTokens(links: seq<Link>): seq<Token> {
    if links == [] then [] else [Operator(links[0].op), links[0].arg] + LinkTokens(links[1..])
  }

  /** The tokens of the input `x0 op1 x1 … opn xn`. */
  function Infix(x0: Token, links: seq<Link>): seq<Token> {
    [x0] + LinkTokens(links)
  }

  function Level(c: char): nat
    requires IsBinaryOperator(c)
  {
    Precedence(c).value
  }

  /** The position of the root operator: one of least precedence, the
      first of them when their ties are kept and the last when they are
      popped. */
  function Root(ties: Ties, links: seq<Link>): (i: nat)
    requires links != []
    requires forall j :: 0 <= j < |links| ==> IsBinaryOperator(links[j].op)
    ensures i < |links|
    ensures forall j :: 0 <= j < |links| ==> Level(links[i].op) <= Level(links[j].op)
    ensures KeepsTie(ties, Level(links[i].op)) ==> forall j :: 0 <= j < i ==> Level(links[i].op) < Level(links[j].op)
    ensures !KeepsTie(ties, Level(links[i].op)) ==> forall j :: i < j < |links| ==> Level(links[i].op) < Level(links[j].op)
    decreases |links|
  {
    if |links| == 1 then 0
    else
      var k := 1 + Root(ties, links[1..]);
      var a, b := Level(links[0].op), Level(links[k].op);
      if a < b || (a == b && KeepsTie(ties, a)) then 0 else k
  }

  datatype Tree = Leaf(operand: Token) | Node(left: Tree, op: char, right: Tree)

  lemma ChainParts(x0: Token, links: seq<Link>, i: nat)
    requires IsChain(x0, links) && i < |links|
    ensures IsChain(x0, links[..i]) && IsChain(links[i].arg, links[i + 1..])
  {
    var left, right := links[..i], links[i + 1..];
    assert forall j :: 0 <= j < |left| ==> left[j] == links[j];
    assert forall j :: 0 <= j < |right| ==> right[j] == links[i + 1 + j];
  }

  /** The parse tree of a chain: split at the root operator. */
  function Parse(ties: Ties, x0: Token, links: seq<Link>): Tree
    requires IsChain(x0, links)
    decreases |links|
  {
    if links == [] then Leaf(x0)
    else
      var i := Root(ties, links);
      ChainParts(x0, links, i);
      Node(Parse(ties, x0, links[..i]), links[i].op, Parse(ties, links[i].arg, links[i + 1..]))
  }

  /** The tree written out in infix, without parentheses. */
  function Flatten(t: Tree): seq<Token> {
    match t
    case Leaf(x) => [x]
    case Node(l, c, r) => Flatten(l) + [Operator(c)] + Flatten(r)
  }

  /** The tree written out in postfix. */
  function Postfix(t: Tree): seq<Token> {
    match t
    case Leaf(x) => [x]
    case Node(l, c, r) => Postfix(l) + Postfix(r) + [Operator(c)]
  }

  lemma {:induction false} LinkTokensAppend(a: seq<Link>, b: seq<Link>)
    ensures LinkTokens(a + b) == LinkTokens(a) + LinkTokens(b)
  {
    if a == [] {
      assert a + b == b;
    } else {
      assert (a + b)[1..] == a[1..] + b;
      LinkTokensAppend(a[1..], b);
    }
  }

  /** The input around position `i`: the chain before it, the operator,
      and the chain after it. */
  lemma InfixSplit(x0: Token, links: seq<Link>, i: nat)
    requires i < |links|
    ensures Infix(x0, links) == Infix(x0, links[..i]) + [Operator(links[i].op)] + Infix(links[i].arg, links[i + 1..])
  {
    assert links == links[..i] + links[i..];
    LinkTokensAppend(links[..i], links[i..]);
    assert links[i..][1..] == links[i + 1..];
  }

  /** Parsing loses nothing: the tree reads back as the input. */
  lemma {:induction false} FlattenParse(ties: Ties, x0: Token, links: seq<Link>)
    requires IsChain(x0, links)
    ensures Flatten(Parse(ties, x0, links)) == Infix(x0, links)
    decreases |links|
  {
    if links != [] {
      var i := Root(ties, links);
      ChainParts(x0, links, i);
      FlattenParse(ties, x0, links[..i]);
      FlattenParse(ties, links[i].arg, links[i + 1..]);
      InfixSplit(x0, links, i);
    }
  }

  // ---------------------------------------------------------------------
  // The converter on a chain
  // ---------------------------------------------------------------------

  /** The output a chain adds while it is read. */
  function Emitted(t: Tree): seq<Token> {
    match t
    case Leaf(x) => [x]
    case Node(l, c, r) => Emitted(l) + Ops(Reverse(Pending(l))) + Emitted(r)
  }

  /** The operators a chain leaves on the stack once it is read, bottom
      first. */
  function Pending(t: Tree): seq<char> {
    match t
    case Leaf(_) => []
    case Node(_, c, r) => [c] + Pending(r)
  }

  lemma {:induction false} EmittedThenPending(t: Tree)
    ensures Emitted(t) + Ops(Reverse(Pending(t))) == Postfix(t)
  {
    match t
    case Leaf(x) =>
      assert Ops(Reverse(Pending(t))) == [];
    case Node(l, c, r) =>
      EmittedThenPending(l);
      EmittedThenPending(r);
      ReverseCons(c, Pending(r));
      OpsAppend(Reverse(Pending(r)), [c]);
      assert Ops([c]) == [Operator(c)];
  }

  lemma ReverseCons<T>(x: T, s: seq<T>)
    ensures Reverse([x] + s) == Reverse(s) + [x]
  {
    assert ([x] + s)[1..] == s;
  }

  lemma {:induction false} OpsAppend(a: seq<char>, b: seq<char>)
    ensures Ops(a + b) == Ops(a) + Ops(b)
  {
    assert |Ops(a + b)| == |Ops(a) + Ops(b)|;
  }

  /** An operator that pops every entry of `above` but not the entry below
      them pops exactly `above`. */
  lemma {:induction false} RemainingExact(below: seq<char>, above: seq<char>, p: nat, ties: Ties)
    requires forall k :: 0 <= k < |above| ==> PoppedBy(above[k], p, ties)
    requires below == [] || !PoppedBy(below[|below| - 1], p, ties)
    ensures Remaining(below + above, p, ties) == |below|
    decreases |above|
  {
    if above == [] {
      assert below + above == below;
    } else {
      var s := below + above;
      assert s[..|s| - 1] == below + above[..|above| - 1];
      RemainingExact(below, above[..|above| - 1], p, ties);
    }
  }

  lemma PopHigherExact(below: seq<char>, above: seq<char>, p: nat, ties: Ties)
    requires forall k :: 0 <= k < |above| ==> PoppedBy(above[k], p, ties)
    requires below == [] || !PoppedBy(below[|below| - 1], p, ties)
    ensures PopHigher(below + above, p, ties) == Popped(Reverse(above), below)
  {
    RemainingExact(below, above, p, ties);
    assert (below + above)[|below|..] == above;
    assert (below + above)[..|below|] == below;
  }

  /** The operators a chain leaves pending are operators of the chain. */
  lemma {:induction false} PendingFromChain(ties: Ties, x0: Token, links: seq<Link>, p: nat)
    requires IsChain(x0, links)
    requires forall j :: 0 <= j < |links| ==> PoppedBy(links[j].op, p, ties)
    ensures forall k :: 0 <= k < |Pending(Parse(ties, x0, links))| ==> PoppedBy(Pending(Parse(ties, x0, links))[k], p, ties)
    decreases |links|
  {
    if links != [] {
      var i := Root(ties, links);
      ChainParts(x0, links, i);
      var right := links[i + 1..];
      assert forall j :: 0 <= j < |right| ==> right[j] == links[i + 1 + j];
      PendingFromChain(ties, links[i].arg, links[i + 1..], p);
    }
  }

  lemma {:induction false} PendingAreBinary(ties: Ties, x0: Token, links: seq<Link>)
    requires IsChain(x0, links)
    ensures forall k :: 0 <= k < |Pending(Parse(ties, x0, links))| ==> IsBinaryOperator(Pending(Parse(ties, x0, links))[k])
    decreases |links|
  {
    if links != [] {
      var i := Root(ties, links);
      ChainParts(x0, links, i);
      PendingAreBinary(ties, links[i].arg, links[i + 1..]);
    }
  }

  /** The stack `stack` is not disturbed by any operator of `links`. */
  predicate Below(ties: Ties, stack: seq<char>, links: seq<Link>)
    requires forall j :: 0 <= j < |links| ==> IsBinaryOperator(links[j].op)
  {
    stack == [] || forall j :: 0 <= j < |links| ==> !PoppedBy(stack[|stack| - 1], Level(links[j].op), ties)
  }

  lemma BelowLeft(ties: Ties, stack: seq<char>, x0: Token, links: seq<Link>, i: nat)
    requires IsChain(x0, links) && i < |links|
    requires Below(ties, stack, links)
    ensures IsChain(x0, links[..i]) && Below(ties, stack, links[..i])
  {
    ChainParts(x0, links, i);
    var left := links[..i];
    assert forall j :: 0 <= j < |left| ==> left[j] == links[j];
  }

  /** The root operator pops every operator before it. */
  lemma RootPopsLeft(ties: Ties, x0: Token, links: seq<Link>)
    requires IsChain(x0, links) && links != []
    ensures var i := Root(ties, links);
      forall j :: 0 <= j < i ==> PoppedBy(links[..i][j].op, Level(links[i].op), ties)
  {
  }

  /** No operator after the root pops it. */
  lemma RootStaysRight(ties: Ties, stack: seq<char>, x0: Token, links: seq<Link>)
    requires IsChain(x0, links) && links != []
    ensures var i := Root(ties, links);
      IsChain(links[i].arg, links[i + 1..]) && Below(ties, stack + [links[i].op], links[i + 1..])
  {
    var i := Root(ties, links);
    ChainParts(x0, links, i);
    var right := links[i + 1..];
    assert forall j :: 0 <= j < |right| ==> right[j] == links[i + 1 + j];
  }

  /** The root operator arriving after its left chain was read. */
  lemma RootStep(ties: Ties, out: seq<Token>, stack: seq<char>, l: Tree, c: char)
    requires IsBinaryOperator(c)
    requires forall k :: 0 <= k < |Pending(l)| ==> PoppedBy(Pending(l)[k], Level(c), ties)
    requires stack == [] || !PoppedBy(stack[|stack| - 1], Level(c), ties)
    ensures Step(ties, State(out, stack + Pending(l), true), Operator(c)) ==
      Ok(State(out + Ops(Reverse(Pending(l))), stack + [c], false))
  {
    var st := State(out, stack + Pending(l), true);
    assert c != '(' && c != ')' && Precedence(c) == Some(Level(c));
    PopHigherExact(stack, Pending(l), Level(c), ties);
    assert Step(ties, st, Operator(c)) == Ok(State(out + Ops(Reverse(Pending(l))), stack + [c], false));
  }

  lemma OperandStep(ties: Ties, out: seq<Token>, stack: seq<char>, x: Token)
    requires IsOperand(x)
    ensures Run(ties, State(out, stack, false), [x]) == Ok(State(out + [x], stack + [], true))
  {
    assert stack + [] == stack;
  }

  lemma RunThree(ties: Ties, st: State, a: seq<Token>, c: char, b: seq<Token>, mid: State, next: State)
    requires Run(ties, st, a) == Ok(mid)
    requires Step(ties, mid, Operator(c)) == Ok(next)
    ensures Run(ties, st, a + [Operator(c)] + b) == Run(ties, next, b)
  {
    ShuntingYardProps.RunAppend(ties, st, a, [Operator(c)] + b);
    assert a + [Operator(c)] + b == a + ([Operator(c)] + b);
    assert ([Operator(c)] + b)[1..] == b;
  }

  lemma ParseNode(ties: Ties, x0: Token, links: seq<Link>)
    requires IsChain(x0, links) && links != []
    ensures var i := Root(ties, links);
      IsChain(x0, links[..i]) && IsChain(links[i].arg, links[i + 1..]) &&
      Parse(ties, x0, links) == Node(Parse(ties, x0, links[..i]), links[i].op, Parse(ties, links[i].arg, links[i + 1..]))
  {
    var i := Root(ties, links);
    ChainParts(x0, links, i);
    assert Parse(ties, x0, links) == Node(Parse(ties, x0, links[..i]), links[i].op, Parse(ties, links[i].arg, links[i + 1..]));
  }

  lemma NodeParts(out: seq<Token>, stack: seq<char>, l: Tree, c: char, r: Tree)
    ensures out + Emitted(l) + Ops(Reverse(Pending(l))) + Emitted(r) == out + Emitted(Node(l, c, r))
    ensures stack + [c] + Pending(r) == stack + Pending(Node(l, c, r))
  {
  }

  /** A left chain, the root operator and a right chain read in turn. */
  lemma RunNode(ties: Ties, out: seq<Token>, stack: seq<char>, a: seq<Token>, c: char, b: seq<Token>, l: Tree, r: Tree)
    requires IsBinaryOperator(c)
    requires forall k :: 0 <= k < |Pending(l)| ==> PoppedBy(Pending(l)[k], Level(c), ties)
    requires stack == [] || !PoppedBy(stack[|stack| - 1], Level(c), ties)
    requires Run(ties, State(out, stack, false), a) == Ok(State(out + Emitted(l), stack + Pending(l), true))
    requires var out2 := out + Emitted(l) + Ops(Reverse(Pending(l)));
      Run(ties, State(out2, stack + [c], false), b) == Ok(State(out2 + Emitted(r), stack + [c] + Pending(r), true))
    ensures Run(ties, State(out, stack, false), a + [Operator(c)] + b) ==
      Ok(State(out + Emitted(Node(l, c, r)), stack + Pending(Node(l, c, r)), true))
  {
    var out2 := out + Emitted(l) + Ops(Reverse(Pending(l)));
    RootStep(ties, out + Emitted(l), stack, l, c);
    RunThree(ties, State(out, stack, false), a, c, b,
      State(out + Emitted(l), stack + Pending(l), true), State(out2, stack + [c], false));
    NodeParts(out, stack, l, c, r);
  }

  /** Reading a chain from a stack it does not disturb emits `Emitted` and
      leaves `Pending` on top of the stack. */
  lemma {:induction false} RunChain(ties: Ties, out: seq<Token>, stack: seq<char>, x0: Token, links: seq<Link>)
    requires IsChain(x0, links)
    requires Below(ties, stack, links)
    ensures var t := Parse(ties, x0, links);
      Run(ties, State(out, stack, false), Infix(x0, links)) == Ok(State(out + Emitted(t), stack + Pending(t), true))
    decreases |links|
  {
    if links == [] {
      assert Infix(x0, links) == [x0];
      OperandStep(ties, out, stack, x0);
    } else {
      var i := Root(ties, links);
      var left, c, y, right := links[..i], links[i].op, links[i].arg, links[i + 1..];
      ParseNode(ties, x0, links);
      BelowLeft(ties, stack, x0, links, i);
      RootStaysRight(ties, stack, x0, links);
      var l, r := Parse(ties, x0, left), Parse(ties, y, right);
      InfixSplit(x0, links, i);
      RunChain(ties, out, stack, x0, left);
      RootPopsLeft(ties, x0, links);
      PendingFromChain(ties, x0, left, Level(c));
      RunChain(ties, out + Emitted(l) + Ops(Reverse(Pending(l))), stack + [c], y, right);
      RunNode(ties, out, stack, Infix(x0, left), c, Infix(y, right), l, r);
    }
  }

  /** On a chain, the converter's output is the postfix form of the parse
      tree: operators of higher precedence bind first and ties group as
      `ties` says. */
  lemma ConvertChain(ties: Ties, x0: Token, links: seq<Link>)
    requires IsChain(x0, links)
    ensures ConvertWith(ties, Infix(x0, links)) == Ok(Postfix(Parse(ties, x0, links)))
  {
    var t := Parse(ties, x0, links);
    RunChain(ties, [], [], x0, links);
    PendingAreBinary(ties, x0, links);
    assert '(' !in Pending(t);
    EmittedThenPending(t);
    assert [] + Emitted(t) == Emitted(t);
    assert [] + Pending(t) == Pending(t);
  }

  /** All operators of the chain have the same precedence. */
  predicate SameLevel(x0: Token, links: seq<Link>)
    requires IsChain(x0, links)
  {
    forall j :: 0 <= j < |links| ==> Level(links[j].op) == Level(links[0].op)
  }

  /** Where ties are kept — always as written, and for `^` with ties
      popped — `x0 op x1 op x2 …` at one precedence groups to the right:
      `x0 op (x1 op (x2 …))`. */
  lemma KeptTiesGroupRight(ties: Ties, x0: Token, links: seq<Link>)
    requires IsChain(x0, links) && links != [] && SameLevel(x0, links)
    requires KeepsTie(ties, Level(links[0].op))
    ensures IsChain(links[0].arg, links[1..])
    ensures Parse(ties, x0, links) == Node(Leaf(x0), links[0].op, Parse(ties, links[0].arg, links[1..]))
  {
    var i := Root(ties, links);
    assert Level(links[i].op) == Level(links[0].op);
    assert i == 0;
    ParseNode(ties, x0, links);
  }

  /** With ties popped, `… x2 op x1 op x0` at one precedence other than
      that of `^` groups to the left: `((… x2) op x1) op x0`. */
  lemma PoppedTiesGroupLeft(x0: Token, links: seq<Link>)
    requires IsChain(x0, links) && links != [] && SameLevel(x0, links)
    requires links[0].op != '^'
    ensures var n := |links| - 1;
      IsChain(x0, links[..n]) &&
      Parse(PopOnTie, x0, links) == Node(Parse(PopOnTie, x0, links[..n]), links[n].op, Leaf(links[n].arg))
  {
    var n := |links| - 1;
    ParseNode(PopOnTie, x0, links);
    var i := Root(PopOnTie, links);
    assert Level(links[i].op) == Level(links[0].op) && Level(links[n].op) == Level(links[0].op) < 4;
    assert i == n;
    assert links[i + 1..] == [];
  }
}
