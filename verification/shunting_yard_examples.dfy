/** The converter on the shapes of input its own tests use, for any
    operands, and on a trailing operator. */
module ShuntingYardExamples {
  import opened Results
  import opened Tokens
  import opened ShuntingYard
  import opened ShuntingYardProps
  import opened ShuntingYardChain

  /** The input `x0 o1 x1 o2 x2` as a chain of two links. */
  lemma InfixTwo(x0: Token, o1: char, x1: Token, o2: char, x2: Token)
    ensures Infix(x0, [Link(o1, x1), Link(o2, x2)]) == [x0, Operator(o1), x1, Operator(o2), x2]
  {
    var links := [Link(o1, x1), Link(o2, x2)];
    assert links[1..] == [Link(o2, x2)];
    assert links[1..][1..] == [];
    assert LinkTokens(links[1..]) == [Operator(o2), x2];
    assert LinkTokens(links) == [Operator(o1), x1, Operator(o2), x2];
  }

  /** A chain of two links parses with its root at the first operator or
      at the second. */
  lemma ParseTwo(ties: Ties, x0: Token, o1: char, x1: Token, o2: char, x2: Token)
    requires IsChain(x0, [Link(o1, x1), Link(o2, x2)])
    ensures var links := [Link(o1, x1), Link(o2, x2)];
      Parse(ties, x0, links) ==
        if Root(ties, links) == 0 then Node(Leaf(x0), o1, Node(Leaf(x1), o2, Leaf(x2)))
        else Node(Node(Leaf(x0), o1, Leaf(x1)), o2, Leaf(x2))
  {
    var links := [Link(o1, x1), Link(o2, x2)];
    ParseNode(ties, x0, links);
    if Root(ties, links) == 0 {
      assert links[1..] == [Link(o2, x2)];
      ParseNode(ties, x1, links[1..]);
      assert links[1..][..0] == [] && links[1..][1..] == [];
    } else {
      assert links[..1] == [Link(o1, x1)];
      ParseNode(ties, x0, links[..1]);
      assert links[..1][..0] == [] && links[..1][1..] == [] && links[2..] == [];
    }
  }

  /** `a + b * c` converts to `a b c * +`. */
  lemma AddThenMultiply(a: Token, b: Token, c: Token)
    requires IsOperand(a) && IsOperand(b) && IsOperand(c)
    ensures Convert([a, Operator('+'), b, Operator('*'), c]) == Ok([a, b, c, Operator('*'), Operator('+')])
  {
    var links := [Link('+', b), Link('*', c)];
    assert IsChain(a, links);
    assert Root(KeepOnTie, links) == 0;
    ParseTwo(KeepOnTie, a, '+', b, '*', c);
    var t := Node(Leaf(a), '+', Node(Leaf(b), '*', Leaf(c)));
    assert Postfix(Node(Leaf(b), '*', Leaf(c))) == [b, c, Operator('*')];
    assert Parse(KeepOnTie, a, links) == t;
    assert Postfix(t) == [a] + [b, c, Operator('*')] + [Operator('+')];
    assert Postfix(t) == [a, b, c, Operator('*'), Operator('+')];
    ConvertChain(KeepOnTie, a, links);
    InfixTwo(a, '+', b, '*', c);
  }

  /** `a ^ b * c` converts to `a b ^ c *`. */
  lemma PowerThenMultiply(a: Token, b: Token, c: Token)
    requires IsOperand(a) && IsOperand(b) && IsOperand(c)
    ensures Convert([a, Operator('^'), b, Operator('*'), c]) == Ok([a, b, Operator('^'), c, Operator('*')])
  {
    var links := [Link('^', b), Link('*', c)];
    assert IsChain(a, links);
    assert Root(KeepOnTie, links) == 1;
    ParseTwo(KeepOnTie, a, '^', b, '*', c);
    var t := Node(Node(Leaf(a), '^', Leaf(b)), '*', Leaf(c));
    assert Postfix(Node(Leaf(a), '^', Leaf(b))) == [a, b, Operator('^')];
    assert Parse(KeepOnTie, a, links) == t;
    assert Postfix(t) == [a, b, Operator('^')] + [c] + [Operator('*')];
    assert Postfix(t) == [a, b, Operator('^'), c, Operator('*')];
    ConvertChain(KeepOnTie, a, links);
    InfixTwo(a, '^', b, '*', c);
  }

  /** `^` is right-associative, so even the corrected converter keeps its
      ties: `a ^ b ^ c` converts to `a b c ^ ^`. */
  lemma CorrectedPowerGroupsRight(a: Token, b: Token, c: Token)
    requires IsOperand(a) && IsOperand(b) && IsOperand(c)
    ensures ConvertLeft([a, Operator('^'), b, Operator('^'), c]) == Ok([a, b, c, Operator('^'), Operator('^')])
  {
    var links := [Link('^', b), Link('^', c)];
    assert IsChain(a, links);
    assert Root(PopOnTie, links) == 0;
    ParseTwo(PopOnTie, a, '^', b, '^', c);
    var t := Node(Leaf(a), '^', Node(Leaf(b), '^', Leaf(c)));
    assert Postfix(Node(Leaf(b), '^', Leaf(c))) == [b, c, Operator('^')];
    assert Parse(PopOnTie, a, links) == t;
    assert Postfix(t) == [a] + [b, c, Operator('^')] + [Operator('^')];
    assert Postfix(t) == [a, b, c, Operator('^'), Operator('^')];
    ConvertChain(PopOnTie, a, links);
    InfixTwo(a, '^', b, '^', c);
  }

  /** A trailing operator is not an error: `a op` converts to `a op`. */
  lemma TrailingOperator(a: Token, op: char)
    requires IsOperand(a) && IsBinaryOperator(op)
    ensures Convert([a, Operator(op)]) == Ok([a, Operator(op)])
  {
    var ts := [a, Operator(op)];
    var st := State([a], [], true);
    var end := State([a], [op], false);
    assert [] + [a] == [a];
    assert Step(KeepOnTie, Start, a) == Ok(st);
    var p := Precedence(op).value;
    assert PopHigher([], p, KeepOnTie) == Popped([], []) by {
      assert Reverse<char>([]) == [];
    }
    assert [a] + Ops([]) == [a] && [] + [op] == [op];
    assert Step(KeepOnTie, st, Operator(op)) == Ok(end);
    assert ts[1..] == [Operator(op)] && ts[1..][1..] == [];
    assert Run(KeepOnTie, end, []) == Ok(end);
    assert Run(KeepOnTie, st, ts[1..]) == Ok(end);
    assert Run(KeepOnTie, Start, ts) == Ok(end);
    assert Reverse([op]) == [op] by {
      ReverseSnoc<char>([], op);
    }
    assert op != '(' && Ops([op]) == [Operator(op)];
    assert !('(' in end.stack);
    assert end.output + Ops(Reverse(end.stack)) == [a, Operator(op)];
  }

  /** `a + b * c )` is rejected: the `)` has no partner. */
  lemma UnpairedRightParenthesis(a: Token, b: Token, c: Token)
    requires IsOperand(a) && IsOperand(b) && IsOperand(c)
    ensures Convert([a, Operator('+'), b, Operator('*'), c, Operator(')')]) == Err(UnpairedRightParen)
  {
    var s5 := [Operator(')')];
    var s4 := [c] + s5;
    var s3 := [Operator('*')] + s4;
    var s2 := [b] + s3;
    var s1 := [Operator('+')] + s2;
    var s0 := [a] + s1;
    assert s4[1..] == s5 && s3[1..] == s4 && s2[1..] == s3 && s1[1..] == s2 && s0[1..] == s1;
    assert Check(0, true, s5) == Some(UnpairedRightParen);
    assert Check(0, false, s4) == Some(UnpairedRightParen);
    assert Check(0, true, s3) == Some(UnpairedRightParen);
    assert Check(0, false, s2) == Some(UnpairedRightParen);
    assert Check(0, true, s1) == Some(UnpairedRightParen);
    assert Check(0, false, s0) == Some(UnpairedRightParen);
    assert s0 == [a, Operator('+'), b, Operator('*'), c, Operator(')')];
    ConvertRejectsExactlyMalformed(KeepOnTie, s0);
  }

  /** `a + ( b * c` is rejected: the `(` is never closed. */
  lemma UnpairedLeftParenthesis(a: Token, b: Token, c: Token)
    requires IsOperand(a) && IsOperand(b) && IsOperand(c)
    ensures Convert([a, Operator('+'), Operator('('), b, Operator('*'), c]) == Err(UnpairedLeftParen)
  {
    var s5 := [c];
    var s4 := [Operator('*')] + s5;
    var s3 := [b] + s4;
    var s2 := [Operator('(')] + s3;
    var s1 := [Operator('+')] + s2;
    var s0 := [a] + s1;
    assert s5[1..] == [] && s4[1..] == s5 && s3[1..] == s4 && s2[1..] == s3 && s1[1..] == s2 && s0[1..] == s1;
    assert Check(1, true, []) == Some(UnpairedLeftParen);
    assert Check(1, false, s5) == Some(UnpairedLeftParen);
    assert Check(1, true, s4) == Some(UnpairedLeftParen);
    assert Check(1, false, s3) == Some(UnpairedLeftParen);
    assert Check(0, false, s2) == Some(UnpairedLeftParen);
    assert Check(0, true, s1) == Some(UnpairedLeftParen);
    assert Check(0, false, s0) == Some(UnpairedLeftParen);
    assert s0 == [a, Operator('+'), Operator('('), b, Operator('*'), c];
    ConvertRejectsExactlyMalformed(KeepOnTie, s0);
  }

  /** `a b * c` is rejected: two operands in a row. */
  lemma TwoOperandsInARow(a: Token, b: Token, c: Token)
    requires IsOperand(a) && IsOperand(b) && IsOperand(c)
    ensures Convert([a, b, Operator('*'), c]) == Err(TooManyNumbers)
  {
    var s1 := [b, Operator('*'), c];
    var s0 := [a] + s1;
    assert s0[1..] == s1;
    assert Check(0, true, s1) == Some(TooManyNumbers);
    assert Check(0, false, s0) == Some(TooManyNumbers);
    assert s0 == [a, b, Operator('*'), c];
    ConvertRejectsExactlyMalformed(KeepOnTie, s0);
  }
}
