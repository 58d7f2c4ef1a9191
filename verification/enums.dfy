/** The operator and function enumerations of `src/logic/enums.rs` and
    their textual forms. */
module Enums {
  import opened Results

  datatype Function = Sin | Cos | Tan | Sqrt

  datatype Operator = Plus | Minus | Mul | Div | Pow | Lparen | Rparen | Equals | Func(fun: Function)

  /** The token shape `src/logic/enums.rs` declares. */
  datatype Token = Number(value: real) | Op(op: Operator) | Variable(name: string)

  /** `Function::format`: the name of a function. */
  function Format(f: Function): (r: string)
    ensures 3 <= |r| <= 4
    ensures forall k :: 0 <= k < |r| ==> 'a' <= r[k] <= 'z'
  {
    match f
    case Sin => "sin"
    case Cos => "cos"
    case Tan => "tan"
    case Sqrt => "sqrt"
  }

  /** `Display for Operator`: one character for each symbol, the function's
      name for a function. */
  function Display(o: Operator): (r: string)
    ensures !o.Func? ==> |r| == 1
    ensures o.Func? ==> r == Format(o.fun)
  {
    match o
    case Plus => "+"
    case Minus => "-"
    case Mul => "*"
    case Div => "/"
    case Pow => "^"
    case Lparen => "("
    case Rparen => ")"
    case Equals => "="
    case Func(f) => Format(f)
  }

  /** The function a name stands for, if any. */
  function ParseFunction(s: string): Option<Function> {
    if s == "sin" then Some(Sin)
    else if s == "cos" then Some(Cos)
    else if s == "tan" then Some(Tan)
    else if s == "sqrt" then Some(Sqrt)
    else None
  }

  /** The operator a one-character symbol stands for, if any. */
  function ParseSymbol(c: char): Option<Operator> {
    match c
    case '+' => Some(Plus)
    case '-' => Some(Minus)
    case '*' => Some(Mul)
    case '/' => Some(Div)
    case '^' => Some(Pow)
    case '(' => Some(Lparen)
    case ')' => Some(Rparen)
    case '=' => Some(Equals)
    case _ => None
  }

  /** The operator a text stands for, if any: a symbol or a function name. */
  function ParseOperator(s: string): Option<Operator> {
    if |s| == 1 then ParseSymbol(s[0])
    else
      match ParseFunction(s)
      case None => None
      case Some(f) => Some(Func(f))
  }

  /** Reading a function's name back gives the function; a name that reads
      as a function is that function's name. */
  lemma FormatRoundTrip(f: Function, s: string)
    ensures ParseFunction(Format(f)) == Some(f)
    ensures ParseFunction(s) == Some(f) ==> Format(f) == s
  {
  }

  /** No two functions share a name. */
  lemma FormatInjective(f: Function, g: Function)
    ensures Format(f) == Format(g) <==> f == g
  {
    FormatRoundTrip(f, Format(g));
    FormatRoundTrip(g, Format(f));
  }

  /** Reading an operator's text back gives the operator; a text that reads
      as an operator is that operator's text. */
  lemma DisplayRoundTrip(o: Operator, s: string)
    ensures ParseOperator(Display(o)) == Some(o)
    ensures ParseOperator(s) == Some(o) ==> Display(o) == s
  {
    if o.Func? {
      FormatRoundTrip(o.fun, s);
    }
    if |s| == 1 && ParseOperator(s) == Some(o) {
      assert s == [s[0]];
    }
  }

  /** No two operators display alike. */
  lemma DisplayInjective(o: Operator, p: Operator)
    ensures Display(o) == Display(p) <==> o == p
  {
    DisplayRoundTrip(o, Display(p));
    DisplayRoundTrip(p, Display(o));
  }
}
