/** The postfix evaluator of `src/logic/calculator.rs`: a stack machine over
    numbers and operator characters, with `operate` giving the meaning of
    each operator. Values are reals; the NaN that division by zero yields
    is a value of its own. */
module Calculator {
  import opened Results

  /** An `f64` as the evaluator uses it: a finite value or NaN. */
  datatype Val = Fin(x: real) | NaN

  /** The evaluator's own token: a number or an operator character. */
  datatype RpnToken = Number(value: Val) | Operator(symbol: char)

  datatype EvalError = TooManyOperators

  function Message(e: EvalError): string {
    match e
    case TooManyOperators => "Too many operators"
  }

  /** The operators `operate` gives a meaning to. */
  predicate IsArithmetic(c: char) {
    c == '+' || c == '-' || c == '*' || c == '/'
  }

  /** `operate`: `left c right` for the four arithmetic operators, NaN for a
      division by zero, and zero for any other character — `^` included. */
  function Operate(left: Val, right: Val, c: char): (r: Val)
    ensures !IsArithmetic(c) ==> r == Fin(0.0)
    ensures IsArithmetic(c) && (left == NaN || right == NaN) ==> r == NaN
    ensures c == '/' && right == Fin(0.0) ==> r == NaN
  {
    if !IsArithmetic(c) then Fin(0.0)
    else if left == NaN || right == NaN then NaN
    else if c == '+' then Fin(left.x + right.x)
    else if c == '-' then Fin(left.x - right.x)
    else if c == '*' then Fin(left.x * right.x)
    else if right.x != 0.0 then Fin(left.x / right.x)
    else NaN
  }

  /** The loop of `eval_postfix` from the stack `stack`, whose top is its
      last element: a number is pushed; an operator pops the right operand,
      then the left one, and pushes their combination. Each token adds at
      most one value, and a stack that holds a value never runs empty. */
  function Run(stack: seq<Val>, ts: seq<RpnToken>): (r: Result<seq<Val>, EvalError>)
    ensures r.Ok? ==> |r.value| <= |stack| + |ts|
    ensures r.Ok? && stack != [] ==> r.value != []
    decreases |ts|
  {
    if ts == [] then Ok(stack)
    else
      match ts[0]
      case Number(v) => Run(stack + [v], ts[1..])
      case Operator(c) =>
        if |stack| < 2 then Err(TooManyOperators)
        else
          var n := |stack|;
          Run(stack[..n - 2] + [Operate(stack[n - 2], stack[n - 1], c)], ts[1..])
  }

  /** `eval_postfix`: the top of the stack once every token is read. It
      fails on an empty input and on one that starts with an operator, and a
      lone number is its own value. */
  function EvalPostfix(ts: seq<RpnToken>): (r: Result<Val, EvalError>)
    ensures r.Ok? ==> ts != [] && ts[0].Number?
    ensures |ts| == 1 && ts[0].Number? ==> r == Ok(ts[0].value)
  {
    assert |ts| == 1 ==> ts[1..] == [];
    assert ts != [] && ts[0].Number? ==> [] + [ts[0].value] == [ts[0].value];
    assert |ts| == 1 && ts[0].Number? ==> Run([], ts) == Run([ts[0].value], []);
    match Run([], ts)
    case Err(e) => Err(e)
    case Ok(stack) => if stack == [] then Err(TooManyOperators) else Ok(stack[|stack| - 1])
  }

  // ---------------------------------------------------------------------
  // Which inputs fail: a reference count of the stack height
  // ---------------------------------------------------------------------

  /** Whether every operator of `ts`, read from height `h`, finds two
      values on the stack. */
  predicate Fits(h: nat, ts: seq<RpnToken>)
    decreases |ts|
  {
    ts == [] ||
    (if ts[0].Number? then Fits(h + 1, ts[1..]) else h >= 2 && Fits(h - 1, ts[1..]))
  }

  /** The stack height after `ts` from height `h`: one more per number, one
      less per operator. */
  function Height(h: int, ts: seq<RpnToken>): int
    decreases |ts|
  {
    if ts == [] then h else Height(if ts[0].Number? then h + 1 else h - 1, ts[1..])
  }

  /** The loop fails exactly when an operator finds fewer than two values,
      and otherwise leaves a stack of the height the count predicts. */
  lemma {:induction false} RunFits(stack: seq<Val>, ts: seq<RpnToken>)
    ensures Run(stack, ts).Ok? <==> Fits(|stack|, ts)
    ensures Run(stack, ts).Ok? ==> |Run(stack, ts).value| == Height(|stack|, ts)
    decreases |ts|
  {
    if ts != [] {
      match ts[0]
      case Number(v) => RunFits(stack + [v], ts[1..]);
      case Operator(c) =>
        if |stack| >= 2 {
          var n := |stack|;
          RunFits(stack[..n - 2] + [Operate(stack[n - 2], stack[n - 1], c)], ts[1..]);
        }
    }
  }

  /** `eval_postfix` fails, always with "Too many operators", exactly when
      an operator finds fewer than two values or no value is left. */
  lemma EvalFailsExactly(ts: seq<RpnToken>)
    ensures EvalPostfix(ts).Err? <==> !Fits(0, ts) || Height(0, ts) == 0
    ensures EvalPostfix(ts).Err? ==> EvalPostfix(ts).error == TooManyOperators
  {
    RunFits([], ts);
  }

  // ---------------------------------------------------------------------
  // The stack below is never touched
  // ---------------------------------------------------------------------

  /** Values below the part of the stack the tokens use are left in place. */
  lemma {:induction false} RunFrame(below: seq<Val>, stack: seq<Val>, ts: seq<RpnToken>)
    requires Run(stack, ts).Ok?
    ensures Run(below + stack, ts) == Ok(below + Run(stack, ts).value)
    decreases |ts|
  {
    if ts != [] {
      match ts[0]
      case Number(v) =>
        assert below + stack + [v] == below + (stack + [v]);
        RunFrame(below, stack + [v], ts[1..]);
      case Operator(c) =>
        var n := |stack|;
        var s := below + stack;
        var m := |s|;
        assert s[m - 2] == stack[n - 2] && s[m - 1] == stack[n - 1];
        assert s[..m - 2] == below + stack[..n - 2];
        var top := [Operate(stack[n - 2], stack[n - 1], c)];
        assert s[..m - 2] + top == below + (stack[..n - 2] + top);
        RunFrame(below, stack[..n - 2] + top, ts[1..]);
    }
  }

  lemma {:induction false} RunAppend(stack: seq<Val>, a: seq<RpnToken>, b: seq<RpnToken>)
    ensures Run(stack, a + b) ==
      match Run(stack, a)
      case Err(e) => Err(e)
      case Ok(mid) => Run(mid, b)
    decreases |a|
  {
    if a != [] {
      assert (a + b)[0] == a[0];
      assert (a + b)[1..] == a[1..] + b;
      match a[0]
      case Number(v) => RunAppend(stack + [v], a[1..], b);
      case Operator(c) =>
        if |stack| >= 2 {
          var n := |stack|;
          RunAppend(stack[..n - 2] + [Operate(stack[n - 2], stack[n - 1], c)], a[1..], b);
        }
    } else {
      assert a + b == b;
    }
  }

  // ---------------------------------------------------------------------
  // Postfix forms of expressions evaluate to their values
  // ---------------------------------------------------------------------

  /** An expression tree over numbers and operator characters. */
  datatype Expr = Const(v: Val) | Apply(left: Expr, op: char, right: Expr)

  /** Its value, each operator meaning what `operate` says. */
  function Value(e: Expr): Val {
    match e
    case Const(v) => v
    case Apply(l, c, r) => Operate(Value(l), Value(r), c)
  }

  /** Its postfix form: the operands first, the operator last. */
  function Rpn(e: Expr): seq<RpnToken> {
    match e
    case Const(v) => [Number(v)]
    case Apply(l, c, r) => Rpn(l) + Rpn(r) + [Operator(c)]
  }

  /** Reading the postfix form of an expression pushes its value. */
  lemma {:induction false} RunRpn(stack: seq<Val>, e: Expr)
    ensures Run(stack, Rpn(e)) == Ok(stack + [Value(e)])
    decreases e
  {
    match e
    case Const(v) =>
    case Apply(l, c, r) =>
      RunRpn(stack, l);
      RunRpn(stack + [Value(l)], r);
      RunAppend(stack, Rpn(l) + Rpn(r), [Operator(c)]);
      RunAppend(stack, Rpn(l), Rpn(r));
      var s := stack + [Value(l)] + [Value(r)];
      assert s[..|s| - 2] == stack;
      assert Run(s, [Operator(c)]) == Ok(stack + [Value(e)]);
  }

  /** `eval_postfix` computes the value of any expression from its postfix
      form. */
  lemma EvalRpn(e: Expr)
    ensures EvalPostfix(Rpn(e)) == Ok(Value(e))
  {
    RunRpn([], e);
  }

  /** Values left below the top at the end are dropped without an error:
      of two expressions in a row, the second one's value is the result. */
  lemma EvalKeepsLast(e1: Expr, e2: Expr)
    ensures EvalPostfix(Rpn(e1) + Rpn(e2)) == Ok(Value(e2))
  {
    RunAppend([], Rpn(e1), Rpn(e2));
    RunRpn([], e1);
    RunRpn([] + [Value(e1)], e2);
  }

  // ---------------------------------------------------------------------
  // `eval_postfix` as a loop over a mutable stack
  // ---------------------------------------------------------------------

  method EvalPostfixLoop(input: seq<RpnToken>) returns (r: Result<Val, EvalError>)
    ensures r == EvalPostfix(input)
  {
    var stack: seq<Val> := [];
    var i := 0;
    while i < |input|
      invariant i <= |input|
      invariant Run(stack, input[i..]) == Run([], input)
      decreases |input| - i
    {
      assert input[i..][1..] == input[i + 1..];
      match input[i] {
        case Number(v) =>
          stack := stack + [v];
        case Operator(c) =>
          if |stack| < 2 {
            return Err(TooManyOperators);
          }
          var a := stack[|stack| - 1];
          var b := stack[|stack| - 2];
          stack := stack[..|stack| - 2] + [Operate(b, a, c)];
      }
      i := i + 1;
    }
    assert input[i..] == [];
    if stack == [] {
      return Err(TooManyOperators);
    }
    r := Ok(stack[|stack| - 1]);
  }
}
