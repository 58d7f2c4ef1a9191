/** The postfix evaluator on the shapes of input its own tests use. */
module CalculatorExamples {
  import opened Results
  import opened Calculator

  /** `x y * z +` evaluates to `x * y + z`; with 3, 2 and 4 that is 10. */
  lemma MultiplyThenAdd(x: real, y: real, z: real)
    ensures EvalPostfix([Number(Fin(x)), Number(Fin(y)), Operator('*'), Number(Fin(z)), Operator('+')]) == Ok(Fin(x * y + z))
  {
    var product := Apply(Const(Fin(x)), '*', Const(Fin(y)));
    var e := Apply(product, '+', Const(Fin(z)));
    assert Rpn(product) == [Number(Fin(x)), Number(Fin(y)), Operator('*')];
    assert Rpn(e) == [Number(Fin(x)), Number(Fin(y)), Operator('*')] + [Number(Fin(z))] + [Operator('+')];
    assert Rpn(e) == [Number(Fin(x)), Number(Fin(y)), Operator('*'), Number(Fin(z)), Operator('+')];
    assert Value(product) == Fin(x * y);
    assert Value(e) == Fin(x * y + z);
    EvalRpn(e);
  }

  /** `x x +` evaluates to `x + x`; with 1 that is 2. */
  lemma AddToItself(x: real)
    ensures EvalPostfix([Number(Fin(x)), Number(Fin(x)), Operator('+')]) == Ok(Fin(x + x))
  {
    var e := Apply(Const(Fin(x)), '+', Const(Fin(x)));
    assert Rpn(e) == [Number(Fin(x)), Number(Fin(x)), Operator('+')];
    EvalRpn(e);
  }

  /** An operator that comes before any number fails, whatever follows. */
  lemma OperatorFirstFails(c: char, rest: seq<RpnToken>)
    ensures EvalPostfix([Operator(c)] + rest) == Err(TooManyOperators)
  {
    assert ([Operator(c)] + rest)[0] == Operator(c);
  }

  /** The values `operate` gives on its own tests: sums, products,
      quotients and differences of small numbers, zero for an unknown
      operator and NaN for a division by zero. */
  lemma OperateTests()
    ensures Operate(Fin(1.0), Fin(1.0), '+') == Fin(2.0)
    ensures Operate(Fin(2.0), Fin(4.0), '*') == Fin(8.0)
    ensures Operate(Fin(4.0), Fin(8.0), '/') == Fin(0.5)
    ensures Operate(Fin(1.0), Fin(2.0), '-') == Fin(-1.0)
    ensures Operate(Fin(1.0), Fin(10.0), '?') == Fin(0.0)
    ensures Operate(Fin(1.0), Fin(0.0), '/') == NaN
  {
  }
}
