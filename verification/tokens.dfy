/** The token shape read by the tokenizer and the shunting-yard converter
    (the `Token` both of them import from the calculator module). */
module Tokens {

  datatype Token =
    | Number(value: real)      // a numeral without a decimal point
    | Float(value: real)       // a numeral with a decimal point
    | Operator(symbol: char)   // one of + - * / ( ) ^ =
    | Variable(name: string)   // a maximal run of letters

  /** Numbers, floats and variables are the operands of an expression. */
  predicate IsOperand(t: Token) {
    t.Number? || t.Float? || t.Variable?
  }
}
