/** Properties of the shunting-yard converter: which inputs it rejects and
    with what error, and what its output holds on success. */
module ShuntingYardProps {
  import opened Results
  import opened Tokens
  import opened ShuntingYard
  import opened Counting

  /** The input tokens from state `st` to the end, the final drain included. */
  function Outcome(ties: Ties, st: State, ts: seq<Token>): Result<seq<Token>, ConvertError> {
    match Run(ties, st, ts)
    case Err(e) => Err(e)
    case Ok(last) => Finish(last)
  }

  lemma {:induction false} RunAppend(ties: Ties, st: State, a: seq<Token>, b: seq<Token>)
    ensures Run(ties, st, a + b) ==
      match Run(ties, st, a)
      case Err(e) => Err(e)
      case Ok(mid) => Run(ties, mid, b)
    decreases |a|
  {
    if a == [] {
      assert a + b == b;
    } else {
      assert (a + b)[0] == a[0];
      assert (a + b)[1..] == a[1..] + b;
      match Step(ties, st, a[0])
      case Err(e) =>
      case Ok(next) => RunAppend(ties, next, a[1..], b);
    }
  }

  // ---------------------------------------------------------------------
  // Counting
  // ---------------------------------------------------------------------

  lemma {:induction false} CountReverse(cs: seq<char>, c: char)
    ensures Count(Reverse(cs), c) == Count(cs, c)
  {
    if cs != [] {
      CountReverse(cs[1..], c);
      CountAppend(Reverse(cs[1..]), [cs[0]], c);
    }
  }

  lemma {:induction false} CountOps(cs: seq<char>, x: Token)
    ensures Count(Ops(cs), x) == if x.Operator? then Count(cs, x.symbol) else 0
  {
    if cs != [] {
      assert Ops(cs)[1..] == Ops(cs[1..]);
      CountOps(cs[1..], x);
    }
  }

  lemma {:induction false} CountIsMultiplicity(ts: seq<Token>, x: Token)
    ensures multiset(ts)[x] == Count(ts, x)
  {
    if ts != [] {
      CountIsMultiplicity(ts[1..], x);
      assert ts == [ts[0]] + ts[1..];
    }
  }

  lemma SplitAt<T>(s: seq<T>, n: nat)
    requires n <= |s|
    ensures s == s[..n] + s[n..]
  {
  }

  lemma SplitAround<T>(s: seq<T>, n: nat)
    requires n < |s|
    ensures s == s[..n] + [s[n]] + s[n + 1..]
  {
  }

  lemma NotInReverse<T>(s: seq<T>, x: T)
    requires x !in Reverse(s)
    ensures x !in s
  {
    forall k | 0 <= k < |s|
      ensures s[k] != x
    {
      assert Reverse(s)[|s| - 1 - k] == s[k];
    }
  }

  lemma NoParenPopped(ties: Ties, stack: seq<char>, p: nat)
    ensures '(' !in PopHigher(stack, p, ties).emitted
  {
    var e := PopHigher(stack, p, ties).emitted;
    forall k | 0 <= k < |e|
      ensures e[k] != '('
    {
      assert PoppedBy(e[k], p, ties);
    }
  }

  /** For `)`: the stack is what remains, the `(`, and the part popped;
      the popped part holds no `(`. */
  lemma CloseShape(stack: seq<char>)
    requires PopToParen(stack).Some?
    ensures var r := PopToParen(stack).value;
      var above := stack[|r.rest| + 1..];
      stack == r.rest + ['('] + above && r.emitted == Reverse(above) && '(' !in above
  {
    var r := PopToParen(stack).value;
    SplitAround(stack, |r.rest|);
    NotInReverse(stack[|r.rest| + 1..], '(');
  }

  /** For an operator: the stack is what remains and the part popped, which
      holds no `(`. */
  lemma PushShape(ties: Ties, stack: seq<char>, p: nat)
    ensures var r := PopHigher(stack, p, ties);
      var above := stack[|r.rest|..];
      stack == r.rest + above && r.emitted == Reverse(above) && '(' !in above
  {
    var r := PopHigher(stack, p, ties);
    SplitAt(stack, |r.rest|);
    NoParenPopped(ties, stack, p);
    NotInReverse(stack[|r.rest|..], '(');
  }

  // ---------------------------------------------------------------------
  // Which inputs are rejected: a reference check with a depth counter
  // ---------------------------------------------------------------------

  /** The first error of `ts`, read with `depth` open parentheses and
      `expectOperator` saying whether an operand was just read: `(` and `)`
      leave the alternation alone, any other operator must follow an
      operand and any operand must not. */
  function Check(depth: nat, expectOperator: bool, ts: seq<Token>): Option<ConvertError>
    decreases |ts|
  {
    if ts == [] then
      if depth > 0 then Some(UnpairedLeftParen) else None
    else
      var t := ts[0];
      if t == Operator('(') then Check(depth + 1, expectOperator, ts[1..])
      else if t == Operator(')') then
        if depth == 0 then Some(UnpairedRightParen) else Check(depth - 1, expectOperator, ts[1..])
      else if t.Operator? then
        if !expectOperator then Some(TooManyOperators) else Check(depth, false, ts[1..])
      else if expectOperator then Some(TooManyNumbers)
      else Check(depth, true, ts[1..])
  }

  /** The number of `(` on the operator stack. */
  function Depth(stack: seq<char>): nat {
    Count(stack, '(')
  }

  lemma DepthClose(stack: seq<char>)
    requires PopToParen(stack).Some?
    ensures Depth(PopToParen(stack).value.rest) + 1 == Depth(stack)
  {
    var r := PopToParen(stack).value;
    var above := stack[|r.rest| + 1..];
    CloseShape(stack);
    CountAppend(r.rest + ['('], above, '(');
    CountAppend(r.rest, ['('], '(');
    CountZero(above, '(');
  }

  lemma DepthPush(ties: Ties, stack: seq<char>, c: char, p: nat)
    requires c != '('
    ensures Depth(PopHigher(stack, p, ties).rest + [c]) == Depth(stack)
  {
    var r := PopHigher(stack, p, ties);
    var above := stack[|r.rest|..];
    PushShape(ties, stack, p);
    CountAppend(r.rest, above, '(');
    CountZero(above, '(');
    CountAppend(r.rest, [c], '(');
  }

  /** One token keeps the depth counter and the alternation flag of the
      reference check in step with the converter's stack and flag. */
  lemma StepTracksCheck(ties: Ties, st: State, t: Token)
    ensures Step(ties, st, t).Err? <==>
      (t == Operator(')') && Depth(st.stack) == 0) ||
      (t.Operator? && t.symbol != '(' && t.symbol != ')' && !st.expectOperator) ||
      (!t.Operator? && st.expectOperator)
    ensures Step(ties, st, t).Err? && t.Operator? && t.symbol == ')' ==> Step(ties, st, t).error == UnpairedRightParen
    ensures Step(ties, st, t).Err? && t.Operator? && t.symbol != ')' ==> Step(ties, st, t).error == TooManyOperators
    ensures Step(ties, st, t).Err? && !t.Operator? ==> Step(ties, st, t).error == TooManyNumbers
    ensures Step(ties, st, t).Ok? ==>
      var next := Step(ties, st, t).value;
      Depth(next.stack) == (if t == Operator('(') then Depth(st.stack) + 1
                            else if t == Operator(')') then Depth(st.stack) - 1
                            else Depth(st.stack)) &&
      next.expectOperator == (if t.Operator? && (t.symbol == '(' || t.symbol == ')') then st.expectOperator
                              else !t.Operator?)
  {
    if t == Operator('(') {
      CountAppend(st.stack, ['('], '(');
    } else if t == Operator(')') {
      CountZero(st.stack, '(');
      if PopToParen(st.stack).Some? {
        DepthClose(st.stack);
      }
    } else if t.Operator? && st.expectOperator && Precedence(t.symbol).Some? {
      DepthPush(ties, st.stack, t.symbol, Precedence(t.symbol).value);
    }
  }

  /** One step of the converter is one step of the reference check. */
  lemma StepMatchesCheck(ties: Ties, st: State, ts: seq<Token>)
    requires ts != []
    ensures Check(Depth(st.stack), st.expectOperator, ts) ==
      match Step(ties, st, ts[0])
      case Err(e) => Some(e)
      case Ok(next) => Check(Depth(next.stack), next.expectOperator, ts[1..])
  {
    StepTracksCheck(ties, st, ts[0]);
  }

  /** The error of a result, if any. */
  function ErrorOf<T>(r: Result<T, ConvertError>): Option<ConvertError> {
    if r.Err? then Some(r.error) else None
  }

  /** From any state, the converter fails exactly when the reference check
      finds an error, and with the same error. */
  lemma {:induction false} OutcomeMatchesCheck(ties: Ties, st: State, ts: seq<Token>)
    ensures ErrorOf(Outcome(ties, st, ts)) == Check(Depth(st.stack), st.expectOperator, ts)
    decreases |ts|
  {
    if ts == [] {
      CountZero(st.stack, '(');
    } else {
      StepMatchesCheck(ties, st, ts);
      match Step(ties, st, ts[0])
      case Err(e) =>
      case Ok(next) => OutcomeMatchesCheck(ties, next, ts[1..]);
    }
  }

  /** `shunting_yard` rejects an input exactly when it has two operands or
      two operators (other than parentheses) in a row, an operator first, a
      `)` closing nothing, or a `(` never closed — the first of these read
      from the left decides the error. */
  lemma ConvertRejectsExactlyMalformed(ties: Ties, ts: seq<Token>)
    ensures ConvertWith(ties, ts).Err? <==> Check(0, false, ts).Some?
    ensures ConvertWith(ties, ts).Err? ==> ConvertWith(ties, ts).error == Check(0, false, ts).value
  {
    OutcomeMatchesCheck(ties, Start, ts);
  }

  /** How ties are treated changes only the order of a successful output:
      both converters fail on the same inputs with the same error, and
      otherwise emit the same tokens. */
  lemma TiesDoNotChangeErrors(ts: seq<Token>)
    ensures Convert(ts).Err? <==> ConvertLeft(ts).Err?
    ensures Convert(ts).Err? ==> Convert(ts).error == ConvertLeft(ts).error
    ensures Convert(ts).Ok? ==> multiset(Convert(ts).value) == multiset(ConvertLeft(ts).value)
  {
    ConvertRejectsExactlyMalformed(KeepOnTie, ts);
    ConvertRejectsExactlyMalformed(PopOnTie, ts);
    if Convert(ts).Ok? {
      ConvertKeepsMultiset(KeepOnTie, ts);
      ConvertKeepsMultiset(PopOnTie, ts);
    }
  }

  // ---------------------------------------------------------------------
  // What the output holds
  // ---------------------------------------------------------------------

  /** The tokens the output keeps: operands and operators with a precedence. */
  predicate Kept(t: Token) {
    IsOperand(t) || (t.Operator? && IsBinaryOperator(t.symbol))
  }

  function KeptOf(ts: seq<Token>): (r: seq<Token>)
    ensures forall k :: 0 <= k < |r| ==> Kept(r[k])
  {
    if ts == [] then [] else (if Kept(ts[0]) then [ts[0]] else []) + KeptOf(ts[1..])
  }

  function OperandsOf(ts: seq<Token>): (r: seq<Token>)
    ensures forall k :: 0 <= k < |r| ==> IsOperand(r[k])
  {
    if ts == [] then [] else (if IsOperand(ts[0]) then [ts[0]] else []) + OperandsOf(ts[1..])
  }

  lemma {:induction false} OperandsOfAppend(a: seq<Token>, b: seq<Token>)
    ensures OperandsOf(a + b) == OperandsOf(a) + OperandsOf(b)
  {
    if a == [] {
      assert a + b == b;
    } else {
      assert (a + b)[1..] == a[1..] + b;
      OperandsOfAppend(a[1..], b);
    }
  }

  lemma {:induction false} OperandsOfOps(cs: seq<char>)
    ensures OperandsOf(Ops(cs)) == []
  {
    if cs != [] {
      assert Ops(cs)[1..] == Ops(cs[1..]);
      OperandsOfOps(cs[1..]);
    }
  }

  /** How many copies of `x` wait on the stack to be emitted: `(` never is. */
  function Waiting(stack: seq<char>, x: Token): nat {
    if x.Operator? && x.symbol != '(' then Count(stack, x.symbol) else 0
  }

  /** Going from `st` to `next` on the tokens `ts` lost no copy of `x` and
      invented none: each kept one is in the output or waiting on the stack. */
  predicate KeepsCount(st: State, next: State, ts: seq<Token>, x: Token) {
    Count(next.output, x) + Waiting(next.stack, x) == Count(st.output, x) + Waiting(st.stack, x) + Count(KeptOf(ts), x)
  }

  /** Popping `above` off the top of the stack onto the output moves its
      operators without losing or adding any. */
  lemma MoveAbove(out: seq<Token>, rest: seq<char>, above: seq<char>, x: Token)
    requires '(' !in above
    ensures Count(out + Ops(Reverse(above)), x) + Waiting(rest, x) == Count(out, x) + Waiting(rest + above, x)
  {
    CountAppend(out, Ops(Reverse(above)), x);
    CountOps(Reverse(above), x);
    if x.Operator? {
      CountReverse(above, x.symbol);
      CountAppend(rest, above, x.symbol);
      CountZero(above, '(');
    }
  }

  lemma WaitingPush(rest: seq<char>, c: char, x: Token)
    ensures Waiting(rest + [c], x) == Waiting(rest, x) + (if c != '(' && x == Operator(c) then 1 else 0)
  {
    if x.Operator? {
      CountAppend(rest, [c], x.symbol);
    }
  }

  lemma CountKeptOne(t: Token, x: Token)
    ensures Count(KeptOf([t]), x) == if Kept(t) && t == x then 1 else 0
  {
    assert KeptOf([t]) == (if Kept(t) then [t] else []) + KeptOf([]);
  }

  lemma CloseKeepsCount(st: State, x: Token)
    requires PopToParen(st.stack).Some?
    ensures var r := PopToParen(st.stack).value;
      KeepsCount(st, st.(output := st.output + Ops(r.emitted), stack := r.rest), [Operator(')')], x)
  {
    var r := PopToParen(st.stack).value;
    var above := st.stack[|r.rest| + 1..];
    CloseShape(st.stack);
    MoveAbove(st.output, r.rest + ['('], above, x);
    WaitingPush(r.rest, '(', x);
    CountKeptOne(Operator(')'), x);
  }

  lemma PushKeepsCount(ties: Ties, st: State, c: char, p: nat, x: Token)
    requires Precedence(c) == Some(p)
    ensures var r := PopHigher(st.stack, p, ties);
      KeepsCount(st, State(st.output + Ops(r.emitted), r.rest + [c], false), [Operator(c)], x)
  {
    var r := PopHigher(st.stack, p, ties);
    var above := st.stack[|r.rest|..];
    PushShape(ties, st.stack, p);
    MoveAbove(st.output, r.rest, above, x);
    WaitingPush(r.rest, c, x);
    CountKeptOne(Operator(c), x);
  }

  /** One token moves to the output or onto the stack if it is kept, and is
      consumed without trace otherwise. */
  lemma StepKeepsCount(ties: Ties, st: State, t: Token, x: Token)
    requires Step(ties, st, t).Ok?
    ensures KeepsCount(st, Step(ties, st, t).value, [t], x)
  {
    if t == Operator('(') {
      if x.Operator? {
        CountAppend(st.stack, ['('], x.symbol);
      }
    } else if t == Operator(')') {
      CloseKeepsCount(st, x);
    } else if t.Operator? {
      match Precedence(t.symbol)
      case None =>
      case Some(p) => PushKeepsCount(ties, st, t.symbol, p, x);
    } else {
      CountAppend(st.output, [t], x);
    }
  }

  lemma {:induction false} RunKeepsCount(ties: Ties, st: State, ts: seq<Token>, x: Token)
    requires Run(ties, st, ts).Ok?
    ensures KeepsCount(st, Run(ties, st, ts).value, ts, x)
    decreases |ts|
  {
    if ts != [] {
      var next := Step(ties, st, ts[0]).value;
      StepKeepsCount(ties, st, ts[0], x);
      RunKeepsCount(ties, next, ts[1..], x);
      assert KeptOf(ts) == KeptOf([ts[0]]) + KeptOf(ts[1..]);
      CountAppend(KeptOf([ts[0]]), KeptOf(ts[1..]), x);
    }
  }

  /** One token appends to the output only itself, if it is an operand, and
      operators. */
  lemma StepKeepsOrder(ties: Ties, st: State, t: Token)
    requires Step(ties, st, t).Ok?
    ensures OperandsOf(Step(ties, st, t).value.output) == OperandsOf(st.output) + OperandsOf([t])
  {
    if t == Operator(')') {
      var r := PopToParen(st.stack).value;
      OperandsOfAppend(st.output, Ops(r.emitted));
      OperandsOfOps(r.emitted);
    } else if t.Operator? && t.symbol != '(' && Precedence(t.symbol).Some? {
      var r := PopHigher(st.stack, Precedence(t.symbol).value, ties);
      OperandsOfAppend(st.output, Ops(r.emitted));
      OperandsOfOps(r.emitted);
    } else if !t.Operator? {
      OperandsOfAppend(st.output, [t]);
    }
  }

  lemma {:induction false} RunKeepsOrder(ties: Ties, st: State, ts: seq<Token>)
    requires Run(ties, st, ts).Ok?
    ensures OperandsOf(Run(ties, st, ts).value.output) == OperandsOf(st.output) + OperandsOf(ts)
    decreases |ts|
  {
    if ts != [] {
      var next := Step(ties, st, ts[0]).value;
      StepKeepsOrder(ties, st, ts[0]);
      RunKeepsOrder(ties, next, ts[1..]);
      assert [ts[0]] + ts[1..] == ts;
      OperandsOfAppend([ts[0]], ts[1..]);
    }
  }

  lemma ConvertKeepsCount(ties: Ties, ts: seq<Token>, x: Token)
    requires ConvertWith(ties, ts).Ok?
    ensures Count(ConvertWith(ties, ts).value, x) == Count(KeptOf(ts), x)
  {
    var last := Run(ties, Start, ts).value;
    RunKeepsCount(ties, Start, ts, x);
    CountAppend(last.output, Ops(Reverse(last.stack)), x);
    CountOps(Reverse(last.stack), x);
    if x.Operator? {
      CountReverse(last.stack, x.symbol);
      CountZero(last.stack, '(');
    }
  }

  lemma ConvertKeepsMultiset(ties: Ties, ts: seq<Token>)
    requires ConvertWith(ties, ts).Ok?
    ensures multiset(ConvertWith(ties, ts).value) == multiset(KeptOf(ts))
  {
    var out := ConvertWith(ties, ts).value;
    forall x | true
      ensures multiset(out)[x] == multiset(KeptOf(ts))[x]
    {
      ConvertKeepsCount(ties, ts, x);
      CountIsMultiplicity(out, x);
      CountIsMultiplicity(KeptOf(ts), x);
    }
  }

  lemma ConvertKeepsOrder(ties: Ties, ts: seq<Token>)
    requires ConvertWith(ties, ts).Ok?
    ensures OperandsOf(ConvertWith(ties, ts).value) == OperandsOf(ts)
  {
    var last := Run(ties, Start, ts).value;
    RunKeepsOrder(ties, Start, ts);
    OperandsOfAppend(last.output, Ops(Reverse(last.stack)));
    OperandsOfOps(Reverse(last.stack));
  }

  /** On success, the output holds every operand and every operator with a
      precedence of the input exactly once and nothing else — no
      parentheses, no `=` — and the operands keep their input order. */
  lemma ConvertKeepsTokens(ties: Ties, ts: seq<Token>)
    requires ConvertWith(ties, ts).Ok?
    ensures multiset(ConvertWith(ties, ts).value) == multiset(KeptOf(ts))
    ensures forall k :: 0 <= k < |ConvertWith(ties, ts).value| ==> Kept(ConvertWith(ties, ts).value[k])
    ensures OperandsOf(ConvertWith(ties, ts).value) == OperandsOf(ts)
  {
    var out := ConvertWith(ties, ts).value;
    ConvertKeepsMultiset(ties, ts);
    ConvertKeepsOrder(ties, ts);
    forall k | 0 <= k < |out|
      ensures Kept(out[k])
    {
      assert out[k] in multiset(KeptOf(ts));
    }
  }
}
