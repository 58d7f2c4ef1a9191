/** The converter's output handed to the postfix evaluator: what an
    operator chain evaluates to, and how equal precedences group. */
module Evaluation {
  import opened Results
  import T = Tokens
  import C = Calculator
  import SY = ShuntingYard
  import SYP = ShuntingYardProps
  import Ch = ShuntingYardChain

  /** Why a token sequence has no value. */
  datatype Failure =
    | ConvertFailed(convert: SY.ConvertError)
    | HasVariable
    | EvalFailed(eval: C.EvalError)

  predicate IsNumeric(t: T.Token) {
    t.Number? || t.Float?
  }

  /** A token as the evaluator reads it; the evaluator has no variables. */
  function ToRpn(t: T.Token): Option<C.RpnToken> {
    match t
    case Number(v) => Some(C.Number(C.Fin(v)))
    case Float(v) => Some(C.Number(C.Fin(v)))
    case Operator(c) => Some(C.Operator(c))
    case Variable(_) => None
  }

  /** Every token as the evaluator reads it; none if one is a variable. */
  function ToRpnAll(ts: seq<T.Token>): Option<seq<C.RpnToken>> {
    if ts == [] then Some([])
    else
      var r, rs := ToRpn(ts[0]), ToRpnAll(ts[1..]);
      if r.Some? && rs.Some? then Some([r.value] + rs.value) else None
  }

  /** Infix tokens converted with `ties` and evaluated, as
      `calculate_infix` does. A converter error is the one reported, before
      anything is evaluated, and an empty input converts but has no value. */
  function Evaluate(ties: SY.Ties, ts: seq<T.Token>): (r: Result<C.Val, Failure>)
    ensures SY.ConvertWith(ties, ts).Err? <==> r.Err? && r.error.ConvertFailed?
    ensures SY.ConvertWith(ties, ts).Err? ==> r.error.convert == SY.ConvertWith(ties, ts).error
    ensures ts == [] ==> r == Err(EvalFailed(C.TooManyOperators))
  {
    match SY.ConvertWith(ties, ts)
    case Err(e) => Err(ConvertFailed(e))
    case Ok(postfix) =>
      match ToRpnAll(postfix)
      case None => Err(HasVariable)
      case Some(rpn) =>
        match C.EvalPostfix(rpn)
        case Err(e) => Err(EvalFailed(e))
        case Ok(v) => Ok(v)
  }

  /** Whether a token sequence holds a variable. */
  predicate MentionsVariable(ts: seq<T.Token>) {
    exists k :: 0 <= k < |ts| && ts[k].Variable?
  }

  lemma {:induction false} MentionsVariableCons(ts: seq<T.Token>)
    requires ts != []
    ensures MentionsVariable(ts) <==> ts[0].Variable? || MentionsVariable(ts[1..])
  {
    if MentionsVariable(ts) && !ts[0].Variable? {
      var k :| 0 <= k < |ts| && ts[k].Variable?;
      assert ts[1..][k - 1].Variable?;
    }
    if MentionsVariable(ts[1..]) {
      var k :| 0 <= k < |ts[1..]| && ts[1..][k].Variable?;
      assert ts[k + 1].Variable?;
    }
  }

  /** The evaluator's reading of a token sequence fails exactly when the
      sequence holds a variable. */
  lemma {:induction false} ToRpnAllFails(ts: seq<T.Token>)
    ensures ToRpnAll(ts).None? <==> MentionsVariable(ts)
  {
    if ts != [] {
      ToRpnAllFails(ts[1..]);
      MentionsVariableCons(ts);
    }
  }

  /** A token sequence holds a variable exactly when its operands do. */
  lemma {:induction false} OperandsMentionVariable(ts: seq<T.Token>)
    ensures MentionsVariable(SYP.OperandsOf(ts)) <==> MentionsVariable(ts)
  {
    if ts != [] {
      OperandsMentionVariable(ts[1..]);
      MentionsVariableCons(ts);
      var head := if T.IsOperand(ts[0]) then [ts[0]] else [];
      SYP.OperandsOfAppend(head, ts[1..]);
      assert SYP.OperandsOf(ts) == head + SYP.OperandsOf(ts[1..]);
      if head != [] {
        MentionsVariableCons(SYP.OperandsOf(ts));
        assert SYP.OperandsOf(ts)[0] == ts[0];
        assert SYP.OperandsOf(ts)[1..] == SYP.OperandsOf(ts[1..]);
      } else {
        assert SYP.OperandsOf(ts) == SYP.OperandsOf(ts[1..]);
        assert !ts[0].Variable?;
      }
    }
  }

  /** The evaluator has no variables: an input that converts is refused for
      a variable exactly when it holds one. */
  lemma VariablesAreRejected(ties: SY.Ties, ts: seq<T.Token>)
    ensures Evaluate(ties, ts) == Err(HasVariable) <==> SY.ConvertWith(ties, ts).Ok? && MentionsVariable(ts)
  {
    if SY.ConvertWith(ties, ts).Ok? {
      var postfix := SY.ConvertWith(ties, ts).value;
      ToRpnAllFails(postfix);
      SYP.ConvertKeepsOrder(ties, ts);
      OperandsMentionVariable(postfix);
      OperandsMentionVariable(ts);
    }
  }

  /** The evaluator's one message differs from each of the converter's. */
  lemma MessagesDiffer(e: SY.ConvertError)
    ensures C.Message(C.TooManyOperators) != SY.Message(e)
  {
    assert |C.Message(C.TooManyOperators)| == 18;
  }

  lemma {:induction false} ToRpnAllAppend(a: seq<T.Token>, b: seq<T.Token>)
    ensures ToRpnAll(a + b) ==
      if ToRpnAll(a).Some? && ToRpnAll(b).Some? then Some(ToRpnAll(a).value + ToRpnAll(b).value) else None
  {
    if a == [] {
      assert a + b == b;
      if ToRpnAll(b).Some? {
        assert [] + ToRpnAll(b).value == ToRpnAll(b).value;
      }
    } else {
      assert (a + b)[0] == a[0];
      assert (a + b)[1..] == a[1..] + b;
      ToRpnAllAppend(a[1..], b);
      if ToRpnAll(a).Some? && ToRpnAll(b).Some? {
        var r := ToRpn(a[0]).value;
        assert [r] + (ToRpnAll(a[1..]).value + ToRpnAll(b).value) == [r] + ToRpnAll(a[1..]).value + ToRpnAll(b).value;
      }
    }
  }

  lemma ToRpnAllOne(t: T.Token)
    ensures ToRpnAll([t]) == if ToRpn(t).Some? then Some([ToRpn(t).value]) else None
  {
    assert [t][1..] == [];
    if ToRpn(t).Some? {
      assert [ToRpn(t).value] + [] == [ToRpn(t).value];
    }
  }

  // ---------------------------------------------------------------------
  // Parse trees of numeric chains as expressions
  // ---------------------------------------------------------------------

  predicate AllNumeric(t: Ch.Tree) {
    match t
    case Leaf(x) => IsNumeric(x)
    case Node(l, _, r) => AllNumeric(l) && AllNumeric(r)
  }

  function ToExpr(t: Ch.Tree): C.Expr
    requires AllNumeric(t)
  {
    match t
    case Leaf(x) => C.Const(C.Fin(x.value))
    case Node(l, c, r) => C.Apply(ToExpr(l), c, ToExpr(r))
  }

  /** The postfix form of a numeric tree reads as the evaluator's postfix
      form of the same expression. */
  lemma {:induction false} PostfixAsRpn(t: Ch.Tree)
    requires AllNumeric(t)
    ensures ToRpnAll(Ch.Postfix(t)) == Some(C.Rpn(ToExpr(t)))
  {
    match t
    case Leaf(x) =>
      ToRpnAllOne(x);
    case Node(l, c, r) =>
      PostfixAsRpn(l);
      PostfixAsRpn(r);
      ToRpnAllAppend(Ch.Postfix(l) + Ch.Postfix(r), [T.Operator(c)]);
      ToRpnAllAppend(Ch.Postfix(l), Ch.Postfix(r));
      ToRpnAllOne(T.Operator(c));
  }

  /** A chain whose operands are all numbers. */
  predicate NumericChain(x0: T.Token, links: seq<Ch.Link>) {
    Ch.IsChain(x0, links) && IsNumeric(x0) && forall j :: 0 <= j < |links| ==> IsNumeric(links[j].arg)
  }

  lemma NumericParts(x0: T.Token, links: seq<Ch.Link>, i: nat)
    requires NumericChain(x0, links) && i < |links|
    ensures NumericChain(x0, links[..i]) && NumericChain(links[i].arg, links[i + 1..])
  {
    Ch.ChainParts(x0, links, i);
    var left, right := links[..i], links[i + 1..];
    assert forall j :: 0 <= j < |left| ==> left[j] == links[j];
    assert forall j :: 0 <= j < |right| ==> right[j] == links[i + 1 + j];
  }

  lemma {:induction false} ParseIsNumeric(ties: SY.Ties, x0: T.Token, links: seq<Ch.Link>)
    requires NumericChain(x0, links)
    ensures AllNumeric(Ch.Parse(ties, x0, links))
    decreases |links|
  {
    if links != [] {
      var i := Ch.Root(ties, links);
      Ch.ParseNode(ties, x0, links);
      NumericParts(x0, links, i);
      ParseIsNumeric(ties, x0, links[..i]);
      ParseIsNumeric(ties, links[i].arg, links[i + 1..]);
    }
  }

  /** A numeric chain converts and evaluates to the value of its parse
      tree. */
  lemma EvaluateChain(ties: SY.Ties, x0: T.Token, links: seq<Ch.Link>)
    requires NumericChain(x0, links)
    ensures AllNumeric(Ch.Parse(ties, x0, links))
    ensures Evaluate(ties, Ch.Infix(x0, links)) == Ok(C.Value(ToExpr(Ch.Parse(ties, x0, links))))
  {
    var t := Ch.Parse(ties, x0, links);
    ParseIsNumeric(ties, x0, links);
    Ch.ConvertChain(ties, x0, links);
    PostfixAsRpn(t);
    C.EvalRpn(ToExpr(t));
  }

  // ---------------------------------------------------------------------
  // Chains of one precedence
  // ---------------------------------------------------------------------

  function Num(x: T.Token): C.Val
    requires IsNumeric(x)
  {
    C.Fin(x.value)
  }

  /** `x0 op1 (x1 op2 (x2 …))`: every operator applied to everything on its
      right. */
  function FoldRight(x0: T.Token, links: seq<Ch.Link>): C.Val
    requires NumericChain(x0, links)
    decreases |links|
  {
    if links == [] then Num(x0)
    else
      assert forall j :: 0 <= j < |links| - 1 ==> links[1..][j] == links[j + 1];
      C.Operate(Num(x0), FoldRight(links[0].arg, links[1..]), links[0].op)
  }

  /** `((x0 op1 x1) op2 x2) …`: every operator applied to everything on its
      left. */
  function FoldLeft(x0: T.Token, links: seq<Ch.Link>): C.Val
    requires NumericChain(x0, links)
    decreases |links|
  {
    if links == [] then Num(x0)
    else
      var n := |links| - 1;
      assert forall j :: 0 <= j < n ==> links[..n][j] == links[j];
      C.Operate(FoldLeft(x0, links[..n]), Num(links[n].arg), links[n].op)
  }

  /** With ties kept, an equal-precedence chain evaluates right to left. */
  lemma {:induction false} KeptTiesFoldRight(x0: T.Token, links: seq<Ch.Link>)
    requires NumericChain(x0, links) && Ch.SameLevel(x0, links)
    ensures AllNumeric(Ch.Parse(SY.KeepOnTie, x0, links))
    ensures C.Value(ToExpr(Ch.Parse(SY.KeepOnTie, x0, links))) == FoldRight(x0, links)
    decreases |links|
  {
    ParseIsNumeric(SY.KeepOnTie, x0, links);
    if links != [] {
      Ch.KeptTiesGroupRight(SY.KeepOnTie, x0, links);
      var rest := links[1..];
      assert forall j :: 0 <= j < |rest| ==> rest[j] == links[j + 1];
      KeptTiesFoldRight(links[0].arg, rest);
    }
  }

  /** With ties popped, an equal-precedence chain without `^` evaluates
      left to right. */
  lemma {:induction false} PoppedTiesFoldLeft(x0: T.Token, links: seq<Ch.Link>)
    requires NumericChain(x0, links) && Ch.SameLevel(x0, links)
    requires links == [] || links[0].op != '^'
    ensures AllNumeric(Ch.Parse(SY.PopOnTie, x0, links))
    ensures C.Value(ToExpr(Ch.Parse(SY.PopOnTie, x0, links))) == FoldLeft(x0, links)
    decreases |links|
  {
    ParseIsNumeric(SY.PopOnTie, x0, links);
    if links != [] {
      Ch.PoppedTiesGroupLeft(x0, links);
      var n := |links| - 1;
      var init := links[..n];
      assert forall j :: 0 <= j < |init| ==> init[j] == links[j];
      PoppedTiesFoldLeft(x0, init);
    }
  }

  /** `shunting_yard` as written evaluates `x0 - x1 - x2 …`, and any chain
      of one precedence, right to left. */
  lemma AsWrittenEvaluatesRightToLeft(x0: T.Token, links: seq<Ch.Link>)
    requires NumericChain(x0, links) && Ch.SameLevel(x0, links)
    ensures Evaluate(SY.KeepOnTie, Ch.Infix(x0, links)) == Ok(FoldRight(x0, links))
  {
    EvaluateChain(SY.KeepOnTie, x0, links);
    KeptTiesFoldRight(x0, links);
  }

  /** The corrected converter evaluates a chain of one left-associative
      precedence left to right, as arithmetic convention has it. */
  lemma CorrectedEvaluatesLeftToRight(x0: T.Token, links: seq<Ch.Link>)
    requires NumericChain(x0, links) && Ch.SameLevel(x0, links)
    requires links == [] || links[0].op != '^'
    ensures Evaluate(SY.PopOnTie, Ch.Infix(x0, links)) == Ok(FoldLeft(x0, links))
  {
    EvaluateChain(SY.PopOnTie, x0, links);
    PoppedTiesFoldLeft(x0, links);
  }

  // ---------------------------------------------------------------------
  // `1 - 2 - 3`
  // ---------------------------------------------------------------------

  const OneMinusTwoMinusThree: seq<T.Token> :=
    [T.Number(1.0), T.Operator('-'), T.Number(2.0), T.Operator('-'), T.Number(3.0)]

  const MinusTwoMinusThree := [Ch.Link('-', T.Number(2.0)), Ch.Link('-', T.Number(3.0))]

  lemma OneMinusTwoMinusThreeIsAChain()
    ensures NumericChain(T.Number(1.0), MinusTwoMinusThree) && Ch.SameLevel(T.Number(1.0), MinusTwoMinusThree)
    ensures OneMinusTwoMinusThree == Ch.Infix(T.Number(1.0), MinusTwoMinusThree)
  {
    var links := MinusTwoMinusThree;
    assert Ch.LinkTokens(links[1..][1..]) == [];
  }

  /** As written, `1 - 2 - 3` parses as `1 - (2 - 3)`. */
  lemma AsWrittenTree()
    ensures NumericChain(T.Number(1.0), MinusTwoMinusThree)
    ensures Ch.Parse(SY.KeepOnTie, T.Number(1.0), MinusTwoMinusThree) ==
      Ch.Node(Ch.Leaf(T.Number(1.0)), '-', Ch.Node(Ch.Leaf(T.Number(2.0)), '-', Ch.Leaf(T.Number(3.0))))
  {
    var links := MinusTwoMinusThree;
    OneMinusTwoMinusThreeIsAChain();
    Ch.KeptTiesGroupRight(SY.KeepOnTie, T.Number(1.0), links);
    assert links[1..] == [Ch.Link('-', T.Number(3.0))];
    Ch.KeptTiesGroupRight(SY.KeepOnTie, T.Number(2.0), links[1..]);
    assert links[1..][1..] == [];
  }

  /** Corrected, `1 - 2 - 3` parses as `(1 - 2) - 3`. */
  lemma CorrectedTree()
    ensures NumericChain(T.Number(1.0), MinusTwoMinusThree)
    ensures Ch.Parse(SY.PopOnTie, T.Number(1.0), MinusTwoMinusThree) ==
      Ch.Node(Ch.Node(Ch.Leaf(T.Number(1.0)), '-', Ch.Leaf(T.Number(2.0))), '-', Ch.Leaf(T.Number(3.0)))
  {
    var links := MinusTwoMinusThree;
    OneMinusTwoMinusThreeIsAChain();
    Ch.PoppedTiesGroupLeft(T.Number(1.0), links);
    assert links[..1] == [Ch.Link('-', T.Number(2.0))];
    Ch.PoppedTiesGroupLeft(T.Number(1.0), links[..1]);
    assert links[..1][..0] == [];
  }

  lemma RightTreePostfix()
    ensures Ch.Postfix(Ch.Node(Ch.Leaf(T.Number(1.0)), '-', Ch.Node(Ch.Leaf(T.Number(2.0)), '-', Ch.Leaf(T.Number(3.0))))) ==
      [T.Number(1.0), T.Number(2.0), T.Number(3.0), T.Operator('-'), T.Operator('-')]
  {
  }

  lemma LeftTreePostfix()
    ensures Ch.Postfix(Ch.Node(Ch.Node(Ch.Leaf(T.Number(1.0)), '-', Ch.Leaf(T.Number(2.0))), '-', Ch.Leaf(T.Number(3.0)))) ==
      [T.Number(1.0), T.Number(2.0), T.Operator('-'), T.Number(3.0), T.Operator('-')]
  {
  }

  lemma RightTreeValue()
    ensures var t := Ch.Node(Ch.Leaf(T.Number(1.0)), '-', Ch.Node(Ch.Leaf(T.Number(2.0)), '-', Ch.Leaf(T.Number(3.0))));
      AllNumeric(t) && C.Value(ToExpr(t)) == C.Fin(2.0)
  {
  }

  lemma LeftTreeValue()
    ensures var t := Ch.Node(Ch.Node(Ch.Leaf(T.Number(1.0)), '-', Ch.Leaf(T.Number(2.0))), '-', Ch.Leaf(T.Number(3.0)));
      AllNumeric(t) && C.Value(ToExpr(t)) == C.Fin(-4.0)
  {
  }

  /** As written, `1 - 2 - 3` converts to `1 2 3 - -`. */
  lemma AsWrittenPostfix()
    ensures SY.Convert(OneMinusTwoMinusThree) ==
      Ok([T.Number(1.0), T.Number(2.0), T.Number(3.0), T.Operator('-'), T.Operator('-')])
  {
    OneMinusTwoMinusThreeIsAChain();
    AsWrittenTree();
    Ch.ConvertChain(SY.KeepOnTie, T.Number(1.0), MinusTwoMinusThree);
    RightTreePostfix();
  }

  /** As written, `1 - 2 - 3` evaluates to `1 - (2 - 3)` = 2. */
  lemma AsWrittenValue()
    ensures Evaluate(SY.KeepOnTie, OneMinusTwoMinusThree) == Ok(C.Fin(2.0))
  {
    OneMinusTwoMinusThreeIsAChain();
    AsWrittenTree();
    EvaluateChain(SY.KeepOnTie, T.Number(1.0), MinusTwoMinusThree);
    RightTreeValue();
  }

  /** Corrected, `1 - 2 - 3` converts to `1 2 - 3 -`. */
  lemma CorrectedPostfix()
    ensures SY.ConvertLeft(OneMinusTwoMinusThree) ==
      Ok([T.Number(1.0), T.Number(2.0), T.Operator('-'), T.Number(3.0), T.Operator('-')])
  {
    OneMinusTwoMinusThreeIsAChain();
    CorrectedTree();
    Ch.ConvertChain(SY.PopOnTie, T.Number(1.0), MinusTwoMinusThree);
    LeftTreePostfix();
  }

  /** Corrected, `1 - 2 - 3` evaluates to `(1 - 2) - 3` = -4. */
  lemma CorrectedValue()
    ensures Evaluate(SY.PopOnTie, OneMinusTwoMinusThree) == Ok(C.Fin(-4.0))
  {
    OneMinusTwoMinusThreeIsAChain();
    CorrectedTree();
    EvaluateChain(SY.PopOnTie, T.Number(1.0), MinusTwoMinusThree);
    LeftTreeValue();
  }
}
