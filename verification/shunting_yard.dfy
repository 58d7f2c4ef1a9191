/** Dijkstra's shunting-yard conversion from infix to postfix
    (`src/logic/shunting_yard.rs`): an operator stack, an output queue and
    a flag saying whether an operator or an operand comes next. */
module ShuntingYard {
  import opened Results
  import opened Tokens

  datatype ConvertError =
    | TooManyOperators
    | TooManyNumbers
    | UnpairedRightParen
    | UnpairedLeftParen

  function Message(e: ConvertError): string {
    match e
    case TooManyOperators => "Too many operators in a row"
    case TooManyNumbers => "Too many numbers in a row"
    case UnpairedRightParen => "Right parenthesis without a pair found"
    case UnpairedLeftParen => "Left parenthesis without a pair found"
  }

  /** Each error has its own message. */
  lemma MessageIdentifiesError(e1: ConvertError, e2: ConvertError)
    ensures Message(e1) == Message(e2) <==> e1 == e2
  {
    assert |Message(TooManyOperators)| == 27 && |Message(TooManyNumbers)| == 25;
    assert |Message(UnpairedRightParen)| == 38 && |Message(UnpairedLeftParen)| == 37;
  }

  /** The operators that take part in precedence: `+ - * / ^`. */
  predicate IsBinaryOperator(c: char) {
    c == '+' || c == '-' || c == '*' || c == '/' || c == '^'
  }

  /** `precedence`: additive 2, multiplicative 3, power 4, anything else none. */
  function Precedence(c: char): (r: Option<nat>)
    ensures r.Some? <==> IsBinaryOperator(c)
    ensures r.Some? ==> 2 <= r.value <= 4
  {
    if c == '+' || c == '-' then Some(2)
    else if c == '*' || c == '/' then Some(3)
    else if c == '^' then Some(4)
    else None
  }

  /** The order of the table: `+` and `-` bind alike and least, `*` and
      `/` alike and more, `^` most; two operators bind alike exactly when
      they are in the same group. */
  lemma PrecedenceOrder(a: char, b: char)
    requires IsBinaryOperator(a) && IsBinaryOperator(b)
    ensures Precedence('+') == Precedence('-')
    ensures Precedence('-').value < Precedence('*').value
    ensures Precedence('*') == Precedence('/')
    ensures Precedence('/').value < Precedence('^').value
    ensures Precedence(a) == Precedence(b) <==>
      a == b || (a in "+-" && b in "+-") || (a in "*/" && b in "*/")
  {
  }

  function Reverse<T>(s: seq<T>): (r: seq<T>)
    ensures |r| == |s|
    ensures forall k :: 0 <= k < |s| ==> r[k] == s[|s| - 1 - k]
  {
    if s == [] then [] else Reverse(s[1..]) + [s[0]]
  }

  lemma ReverseSnoc<T>(s: seq<T>, x: T)
    ensures Reverse(s + [x]) == [x] + Reverse(s)
  {
    var a, b := Reverse(s + [x]), [x] + Reverse(s);
    assert |a| == |b|;
    forall k | 0 <= k < |a|
      ensures a[k] == b[k]
    {
      if k > 0 {
        assert a[k] == (s + [x])[|s| - k];
      }
    }
  }

  /** Operator tokens for a sequence of stack characters, in order. */
  function Ops(cs: seq<char>): (r: seq<Token>)
    ensures |r| == |cs|
    ensures forall k :: 0 <= k < |cs| ==> r[k] == Operator(cs[k])
  {
    if cs == [] then [] else [Operator(cs[0])] + Ops(cs[1..])
  }

  /** What an incoming operator does to a stacked operator of the same
      precedence: `shunting_yard` keeps it on the stack, so that operators of
      equal precedence group to the right; the textbook algorithm pops it
      when the incoming operator is left-associative, so that `+ - * /`
      group to the left and `^` still groups to the right. */
  datatype Ties = KeepOnTie | PopOnTie

  /** Whether a stacked operator of precedence `p` stays when one of the
      same precedence arrives: always as written, and with ties popped only
      at precedence 4, that of the right-associative `^`. */
  predicate KeepsTie(ties: Ties, p: nat) {
    ties == KeepOnTie || p == 4
  }

  /** Whether an incoming operator of precedence `p` pops the stack entry
      `c`: it does unless `c` is `(` or binds less strongly than `p` — or
      exactly as strongly, when the tie is kept. */
  predicate PoppedBy(c: char, p: nat, ties: Ties) {
    c != '(' &&
    !(Precedence(c).Some? && (Precedence(c).value < p || (Precedence(c).value == p && KeepsTie(ties, p))))
  }

  /** Characters taken off the top of the stack, in the order they were
      popped, and the stack that remains. */
  datatype Popped = Popped(emitted: seq<char>, rest: seq<char>)

  /** How many stack entries an incoming operator of precedence `p`
      leaves: all below the longest run of entries, at the top, that it
      pops. The stack's top is its last element. */
  function Remaining(stack: seq<char>, p: nat, ties: Ties): (n: nat)
    ensures n <= |stack|
    ensures forall j :: n <= j < |stack| ==> PoppedBy(stack[j], p, ties)
    ensures n == 0 || !PoppedBy(stack[n - 1], p, ties)
    decreases |stack|
  {
    if stack == [] || !PoppedBy(stack[|stack| - 1], p, ties) then |stack|
    else Remaining(stack[..|stack| - 1], p, ties)
  }

  /** The inner loop for an incoming operator of precedence `p`: pop while
      the top is popped by it. */
  function PopHigher(stack: seq<char>, p: nat, ties: Ties): (r: Popped)
    ensures |r.rest| <= |stack|
    ensures r.rest == stack[..|r.rest|]
    ensures r.emitted == Reverse(stack[|r.rest|..])
    ensures forall k :: 0 <= k < |r.emitted| ==> PoppedBy(r.emitted[k], p, ties)
    ensures r.rest == [] || !PoppedBy(r.rest[|r.rest| - 1], p, ties)
  {
    var n := Remaining(stack, p, ties);
    Popped(Reverse(stack[n..]), stack[..n])
  }

  /** The loop for `)`: pop down to the nearest `(`, which is discarded;
      none when the stack holds no `(`. */
  function PopToParen(stack: seq<char>): (r: Option<Popped>)
    ensures r.None? <==> '(' !in stack
    ensures r.Some? ==>
      |r.value.rest| < |stack| && r.value.rest == stack[..|r.value.rest|] && stack[|r.value.rest|] == '(' &&
      r.value.emitted == Reverse(stack[|r.value.rest| + 1..]) && '(' !in r.value.emitted
    decreases |stack|
  {
    if stack == [] then None
    else
      var top := stack[|stack| - 1];
      assert stack == stack[..|stack| - 1] + [top];
      if top == '(' then Some(Popped([], stack[..|stack| - 1]))
      else
        match PopToParen(stack[..|stack| - 1])
        case None => None
        case Some(r) =>
          PopToParenExtend(stack, r);
          Some(Popped([top] + r.emitted, r.rest))
  }

  /** The `(` found below the top of the stack is the one found for the
      whole stack, with the top popped first. */
  lemma PopToParenExtend(stack: seq<char>, r: Popped)
    requires stack != [] && stack[|stack| - 1] != '('
    requires var below := stack[..|stack| - 1];
      |r.rest| < |below| && r.rest == below[..|r.rest|] && below[|r.rest|] == '(' &&
      r.emitted == Reverse(below[|r.rest| + 1..]) && '(' !in r.emitted
    ensures var top := stack[|stack| - 1];
      |r.rest| < |stack| && r.rest == stack[..|r.rest|] && stack[|r.rest|] == '(' &&
      [top] + r.emitted == Reverse(stack[|r.rest| + 1..]) && '(' !in [top] + r.emitted
  {
    var top := stack[|stack| - 1];
    assert stack[|r.rest| + 1..] == stack[..|stack| - 1][|r.rest| + 1..] + [top];
    ReverseSnoc(stack[..|stack| - 1][|r.rest| + 1..], top);
  }

  /** The converter between two input tokens. */
  datatype State = State(output: seq<Token>, stack: seq<char>, expectOperator: bool)

  const Start := State([], [], false)

  /** One iteration of the loop over the input tokens. */
  function Step(ties: Ties, st: State, t: Token): Result<State, ConvertError> {
    if t.Operator? then
      var c := t.symbol;
      if c == '(' then Ok(st.(stack := st.stack + ['(']))
      else if c == ')' then
        match PopToParen(st.stack)
        case None => Err(UnpairedRightParen)
        case Some(r) => Ok(st.(output := st.output + Ops(r.emitted), stack := r.rest))
      else if !st.expectOperator then Err(TooManyOperators)
      else
        match Precedence(c)
        case None => Ok(st.(expectOperator := false))
        case Some(p) =>
          var r := PopHigher(st.stack, p, ties);
          Ok(State(st.output + Ops(r.emitted), r.rest + [c], false))
    else if st.expectOperator then Err(TooManyNumbers)
    else Ok(State(st.output + [t], st.stack, true))
  }

  /** The loop over the input tokens from state `st`. */
  function Run(ties: Ties, st: State, ts: seq<Token>): Result<State, ConvertError>
    decreases |ts|
  {
    if ts == [] then Ok(st)
    else
      match Step(ties, st, ts[0])
      case Err(e) => Err(e)
      case Ok(next) => Run(ties, next, ts[1..])
  }

  /** One iteration takes back nothing emitted and adds at most one entry
      to output and stack together; an operand fails only as the second of
      two operands in a row, and an operator never does. */
  lemma StepBounds(ties: Ties, st: State, t: Token)
    ensures Step(ties, st, t).Ok? ==> st.output <= Step(ties, st, t).value.output
    ensures Step(ties, st, t).Ok? ==>
      |Step(ties, st, t).value.output| + |Step(ties, st, t).value.stack| <= |st.output| + |st.stack| + 1
    ensures Step(ties, st, t).Err? ==> (Step(ties, st, t).error == TooManyNumbers <==> !t.Operator?)
  {
  }

  /** The loop takes back nothing emitted and adds at most one entry to
      output and stack together per token. */
  lemma {:induction false} RunBounds(ties: Ties, st: State, ts: seq<Token>)
    ensures Run(ties, st, ts).Ok? ==> st.output <= Run(ties, st, ts).value.output
    ensures Run(ties, st, ts).Ok? ==>
      |Run(ties, st, ts).value.output| + |Run(ties, st, ts).value.stack| <= |st.output| + |st.stack| + |ts|
    decreases |ts|
  {
    if ts != [] {
      StepBounds(ties, st, ts[0]);
      if Step(ties, st, ts[0]).Ok? {
        RunBounds(ties, Step(ties, st, ts[0]).value, ts[1..]);
      }
    }
  }

  /** The final loop: move the remaining stack to the output, top first,
      failing on a `(` that was never closed. The output so far is kept,
      and every stacked operator follows it exactly once, the top one
      first and the bottom one last. */
  function Finish(st: State): (r: Result<seq<Token>, ConvertError>)
    ensures r.Err? <==> '(' in st.stack
    ensures r.Err? ==> r.error == UnpairedLeftParen
    ensures r.Ok? ==> st.output <= r.value && |r.value| == |st.output| + |st.stack|
    ensures r.Ok? ==> forall k :: 0 <= k < |st.stack| ==> r.value[|r.value| - 1 - k] == Operator(st.stack[k])
  {
    if '(' in st.stack then Err(UnpairedLeftParen) else Ok(st.output + Ops(Reverse(st.stack)))
  }

  /** The postfix form of an infix token sequence, with ties treated as
      `ties` says. */
  function ConvertWith(ties: Ties, ts: seq<Token>): (r: Result<seq<Token>, ConvertError>)
    ensures r.Ok? ==> |r.value| <= |ts|
    ensures ts == [] ==> r == Ok([])
  {
    RunBounds(ties, Start, ts);
    match Run(ties, Start, ts)
    case Err(e) => Err(e)
    case Ok(st) => Finish(st)
  }

  /** `shunting_yard` as written: its output is never longer than its input,
      and an empty input converts to an empty output. */
  function Convert(ts: seq<Token>): (r: Result<seq<Token>, ConvertError>)
    ensures r.Ok? ==> |r.value| <= |ts|
    ensures ts == [] ==> r == Ok([])
  {
    ConvertWith(KeepOnTie, ts)
  }

  /** The converter with left-associative operators of equal precedence
      grouping to the left, under the same bounds. */
  function ConvertLeft(ts: seq<Token>): (r: Result<seq<Token>, ConvertError>)
    ensures r.Ok? ==> |r.value| <= |ts|
    ensures ts == [] ==> r == Ok([])
  {
    ConvertWith(PopOnTie, ts)
  }

  // ---------------------------------------------------------------------
  // The converter as loops over a mutable stack
  // ---------------------------------------------------------------------

  lemma PopHigherBelow(stack: seq<char>, p: nat, ties: Ties)
    requires stack != [] && PoppedBy(stack[|stack| - 1], p, ties)
    ensures var inner := PopHigher(stack[..|stack| - 1], p, ties);
      PopHigher(stack, p, ties) == Popped([stack[|stack| - 1]] + inner.emitted, inner.rest)
  {
    var n := Remaining(stack, p, ties);
    assert stack[n..] == stack[..|stack| - 1][n..] + [stack[|stack| - 1]];
    ReverseSnoc(stack[..|stack| - 1][n..], stack[|stack| - 1]);
  }

  /** The popping loop for an incoming operator of precedence `p`. */
  method PopHigherLoop(stack0: seq<char>, p: nat, ties: Ties) returns (emitted: seq<char>, stack: seq<char>)
    ensures Popped(emitted, stack) == PopHigher(stack0, p, ties)
  {
    emitted := [];
    stack := stack0;
    while stack != [] && PoppedBy(stack[|stack| - 1], p, ties)
      invariant PopHigher(stack0, p, ties) == Popped(emitted + PopHigher(stack, p, ties).emitted, PopHigher(stack, p, ties).rest)
      decreases |stack|
    {
      var top := stack[|stack| - 1];
      PopHigherBelow(stack, p, ties);
      var inner := PopHigher(stack[..|stack| - 1], p, ties);
      assert emitted + ([top] + inner.emitted) == emitted + [top] + inner.emitted;
      stack := stack[..|stack| - 1];
      emitted := emitted + [top];
    }
  }

  /** `r` with `e` popped before it. */
  function PoppedAfter(e: seq<char>, r: Option<Popped>): Option<Popped> {
    match r
    case None => None
    case Some(q) => Some(Popped(e + q.emitted, q.rest))
  }

  lemma PoppedAfterNothing(r: Option<Popped>)
    ensures PoppedAfter([], r) == r
  {
    if r.Some? {
      assert [] + r.value.emitted == r.value.emitted;
    }
  }

  /** Below a `(` at the top the stack is left as it is; below any other
      entry it is popped, then the search goes on. */
  lemma PopToParenBelow(stack: seq<char>, emitted: seq<char>)
    requires stack != []
    ensures stack[|stack| - 1] == '(' ==> PoppedAfter(emitted, PopToParen(stack)) == Some(Popped(emitted, stack[..|stack| - 1]))
    ensures stack[|stack| - 1] != '(' ==>
      PoppedAfter(emitted, PopToParen(stack)) == PoppedAfter(emitted + [stack[|stack| - 1]], PopToParen(stack[..|stack| - 1]))
  {
    var top := stack[|stack| - 1];
    if top == '(' {
      assert emitted + [] == emitted;
    } else {
      var inner := PopToParen(stack[..|stack| - 1]);
      if inner.Some? {
        assert emitted + ([top] + inner.value.emitted) == emitted + [top] + inner.value.emitted;
      }
    }
  }

  /** The popping loop for `)`; `found` is false when no `(` was met. */
  method PopToParenLoop(stack0: seq<char>) returns (found: bool, emitted: seq<char>, stack: seq<char>)
    ensures found <==> PopToParen(stack0).Some?
    ensures found ==> PopToParen(stack0) == Some(Popped(emitted, stack))
  {
    emitted := [];
    stack := stack0;
    PoppedAfterNothing(PopToParen(stack));
    while stack != []
      invariant PopToParen(stack0) == PoppedAfter(emitted, PopToParen(stack))
      decreases |stack|
    {
      var top := stack[|stack| - 1];
      PopToParenBelow(stack, emitted);
      stack := stack[..|stack| - 1];
      if top == '(' {
        return true, emitted, stack;
      }
      emitted := emitted + [top];
    }
    return false, emitted, stack;
  }

  /** One iteration of the source's loop over the input tokens. */
  method StepLoop(ties: Ties, st: State, t: Token) returns (r: Result<State, ConvertError>)
    ensures r == Step(ties, st, t)
  {
    var output, stack, expectOperator := st.output, st.stack, st.expectOperator;
    if t.Operator? && t.symbol == '(' {
      stack := stack + ['('];
    } else if t.Operator? && t.symbol == ')' {
      var found, emitted, rest := PopToParenLoop(stack);
      if !found {
        return Err(UnpairedRightParen);
      }
      output := output + Ops(emitted);
      stack := rest;
    } else if t.Operator? {
      if !expectOperator {
        return Err(TooManyOperators);
      }
      expectOperator := false;
      var p := Precedence(t.symbol);
      if p.Some? {
        var emitted, rest := PopHigherLoop(stack, p.value, ties);
        output := output + Ops(emitted);
        stack := rest + [t.symbol];
      }
    } else {
      if expectOperator {
        return Err(TooManyNumbers);
      }
      expectOperator := true;
      output := output + [t];
    }
    r := Ok(State(output, stack, expectOperator));
  }

  /** The source's loop over the input tokens. */
  method RunLoop(ties: Ties, input: seq<Token>) returns (r: Result<State, ConvertError>)
    ensures r == Run(ties, Start, input)
  {
    var st := Start;
    var i := 0;
    while i < |input|
      invariant i <= |input|
      invariant Run(ties, st, input[i..]) == Run(ties, Start, input)
      decreases |input| - i
    {
      assert input[i..][1..] == input[i + 1..];
      var next := StepLoop(ties, st, input[i]);
      if next.Err? {
        return Err(next.error);
      }
      st := next.value;
      i := i + 1;
    }
    assert input[i..] == [];
    r := Ok(st);
  }

  /** Draining one more entry adds it after those already drained. */
  lemma DrainOne(stack: seq<char>, n: nat)
    requires 0 < n <= |stack|
    ensures Ops(Reverse(stack[n - 1..])) == Ops(Reverse(stack[n..])) + [Operator(stack[n - 1])]
    ensures '(' !in stack[n..] && stack[n - 1] != '(' ==> '(' !in stack[n - 1..]
  {
    var a, b := Ops(Reverse(stack[n - 1..])), Ops(Reverse(stack[n..])) + [Operator(stack[n - 1])];
    assert |a| == |b|;
    forall k | 0 <= k < |a|
      ensures a[k] == b[k]
    {
    }
    assert stack[n - 1..] == [stack[n - 1]] + stack[n..];
  }

  /** The final loop, popping the stack entry by entry. */
  method FinishLoop(st: State) returns (r: Result<seq<Token>, ConvertError>)
    ensures r == Finish(st)
  {
    var stack := st.stack;
    var drained: seq<Token> := [];
    var n: nat := |stack|;
    while n > 0
      invariant n <= |stack|
      invariant drained == Ops(Reverse(stack[n..]))
      invariant '(' !in stack[n..]
      decreases n
    {
      if stack[n - 1] == '(' {
        assert stack[n - 1] in stack;
        return Err(UnpairedLeftParen);
      }
      DrainOne(stack, n);
      drained := drained + [Operator(stack[n - 1])];
      n := n - 1;
    }
    assert stack[0..] == stack;
    r := Ok(st.output + drained);
  }

  /** `shunting_yard` as the source writes it: one pass over the input with
      an explicit stack, then the final drain. */
  method ShuntingYardLoop(ties: Ties, input: seq<Token>) returns (r: Result<seq<Token>, ConvertError>)
    ensures r == ConvertWith(ties, input)
  {
    var last := RunLoop(ties, input);
    if last.Err? {
      return Err(last.error);
    }
    r := FinishLoop(last.value);
  }
}
