/** The left-to-right scanner that turns a line of text into tokens
    (src/logic/tokenize.rs). The source reads its input one byte at a time by
    slicing, which panics on the first byte of a multi-byte character; the
    model reports that as the error `NonAscii`. */
module Tokenizer {
  import opened Results
  import opened Tokens
  import opened Counting

  /** Why scanning stopped. */
  datatype TokenizeError =
    | UnknownCharacter(c: char)
      // a numeral with two or more decimal points; the source's
      // `parse::<f64>().unwrap()` panics on it instead of returning an error
    | MalformedNumber(lexeme: string)
      // a character outside ASCII; the source's one-byte slice panics on it
    | NonAscii(c: char)

  /** The text the source returns for its one error, or the panic that
      stops it for the other two. The first is exact; the two panic texts
      are paraphrases (the slice panic also names the byte index and the
      character it falls inside). */
  function Message(e: TokenizeError): string {
    match e
    case UnknownCharacter(c) => "unknown character: " + [c]
    case MalformedNumber(_) => "called `Result::unwrap()` on an `Err` value: ParseFloatError { kind: Invalid }"
    case NonAscii(_) => "byte index is not a char boundary"
  }

  /** The error message for an unknown character ends with that character,
      so different characters give different messages, and it is never
      mistaken for either panic. */
  lemma MessageNamesCharacter(c: char, d: char, e: TokenizeError)
    ensures Message(UnknownCharacter(c))[|Message(UnknownCharacter(c))| - 1] == c
    ensures Message(UnknownCharacter(c)) == Message(UnknownCharacter(d)) ==> c == d
    ensures !e.UnknownCharacter? ==> Message(e) != Message(UnknownCharacter(c))
  {
    var m := Message(UnknownCharacter(c));
    assert m[|m| - 1] == c;
    assert |m| == 20;
  }

  // ---------------------------------------------------------------------
  // Character classes (ASCII restrictions of Rust's `char` predicates)
  // ---------------------------------------------------------------------

  predicate IsAscii(c: char) {
    c as int < 128
  }

  /** `char::is_digit(10)` */
  predicate IsDigit(c: char) {
    '0' <= c <= '9'
  }

  /** `char::is_alphabetic` on ASCII */
  predicate IsAlphabetic(c: char) {
    'a' <= c <= 'z' || 'A' <= c <= 'Z'
  }

  /** `char::is_whitespace` on ASCII: tab, line feed, vertical tab, form feed,
      carriage return and space */
  predicate IsWhitespace(c: char) {
    9 <= c as int <= 13 || c == ' '
  }

  /** `is_operator` */
  predicate IsOperatorChar(c: char) {
    c == '+' || c == '-' || c == '*' || c == '/' || c == '(' || c == ')' || c == '^'
  }

  /** Characters the scanner accepts where a token may start. */
  predicate IsKnown(c: char) {
    IsOperatorChar(c) || IsDigit(c) || IsWhitespace(c) || IsAlphabetic(c) || c == '='
  }

  /** A character continues a numeric run (`numeric`) or an identifier. */
  predicate InRun(c: char, numeric: bool) {
    if numeric then IsDigit(c) || c == '.' else IsAlphabetic(c)
  }

  // ---------------------------------------------------------------------
  // Runs and numerals
  // ---------------------------------------------------------------------

  /** Length of the longest prefix of `s` whose characters all continue a run. */
  function RunLength(s: string, numeric: bool): (n: nat)
    ensures n <= |s|
    ensures forall k :: 0 <= k < n ==> InRun(s[k], numeric)
    ensures n == |s| || !InRun(s[n], numeric)
  {
    if s == [] || !InRun(s[0], numeric) then 0 else 1 + RunLength(s[1..], numeric)
  }

  predicate AllDigits(s: string) {
    forall k :: 0 <= k < |s| ==> IsDigit(s[k])
  }

  /** A candidate numeral: a digit followed by digits and decimal points. */
  predicate IsNumeral(s: string) {
    s != [] && IsDigit(s[0]) && forall k :: 0 <= k < |s| ==> InRun(s[k], true)
  }

  function DigitValue(c: char): nat
    requires IsDigit(c)
  {
    c as int - '0' as int
  }

  /** The value of a string of decimal digits, most significant first. */
  function DigitsValue(ds: string): nat
    requires AllDigits(ds)
  {
    if ds == [] then 0 else DigitsValue(ds[..|ds| - 1]) * 10 + DigitValue(ds[|ds| - 1])
  }

  function Pow10(n: nat): (r: nat)
    ensures r >= 1
  {
    if n == 0 then 1 else 10 * Pow10(n - 1)
  }

  function DotIndex(s: string): (k: nat)
    requires '.' in s
    ensures k < |s| && s[k] == '.' && '.' !in s[..k]
  {
    if s[0] == '.' then 0 else 1 + DotIndex(s[1..])
  }

  /** The exact decimal value of a numeral with at most one decimal point.
      The source parses it as an `f64`; rounding to the nearest double is
      not modelled. */
  function DecimalValue(s: string): (r: real)
    requires IsNumeral(s) && Count(s, '.') <= 1
    ensures r >= 0.0
  {
    if '.' in s then
      var k := DotIndex(s);
      NoDotsAllDigits(s[..k]);
      CountAppend(s[..k], s[k..], '.');
      assert s[..k] + s[k..] == s;
      CountAppend(s[k..k + 1], s[k + 1..], '.');
      assert s[k..k + 1] + s[k + 1..] == s[k..];
      assert Count(s[k..k + 1], '.') == 1 by {
        assert s[k..k + 1] == ['.'] && s[k..k + 1][1..] == [];
      }
      CountZero(s[k + 1..], '.');
      NoDotsAllDigits(s[k + 1..]);
      PointValue(s[..k], s[k + 1..])
    else
      NoDotsAllDigits(s);
      DigitsValue(s) as real
  }

  /** The value of the digits `whole` and `fraction` written either side of
      a decimal point. */
  function PointValue(whole: string, fraction: string): (r: real)
    requires AllDigits(whole) && AllDigits(fraction)
    ensures r >= 0.0
  {
    FractionBelowOne(fraction);
    DigitsValue(whole) as real + DigitsValue(fraction) as real / Pow10(|fraction|) as real
  }

  /** Zero digits after the point add nothing. */
  lemma PointValueWhole(whole: string, fraction: string)
    requires AllDigits(whole) && AllDigits(fraction) && DigitsValue(fraction) == 0
    ensures PointValue(whole, fraction) == DigitsValue(whole) as real
  {
  }

  lemma PointValueBounds(whole: string, fraction: string)
    requires AllDigits(whole) && AllDigits(fraction)
    ensures DigitsValue(whole) as real <= PointValue(whole, fraction) < DigitsValue(whole) as real + 1.0
  {
    FractionBelowOne(fraction);
  }

  /** Without a decimal point a numeral's value is the integer its digits
      denote; with one, the digits before the point are its whole part. */
  lemma DecimalValueParts(s: string)
    requires IsNumeral(s) && Count(s, '.') <= 1
    ensures '.' !in s ==> AllDigits(s) && DecimalValue(s) == DigitsValue(s) as real
    ensures '.' in s ==>
      var whole := s[..DotIndex(s)];
      AllDigits(whole) && DigitsValue(whole) as real <= DecimalValue(s) < DigitsValue(whole) as real + 1.0
  {
    if '.' in s {
      var k := DotIndex(s);
      NoDotsAllDigits(s[..k]);
      CountAppend(s[..k], s[k..], '.');
      assert s[..k] + s[k..] == s;
      CountAppend(s[k..k + 1], s[k + 1..], '.');
      assert s[k..k + 1] + s[k + 1..] == s[k..];
      assert s[k..k + 1] == ['.'] && s[k..k + 1][1..] == [];
      CountZero(s[k + 1..], '.');
      NoDotsAllDigits(s[k + 1..]);
      assert DecimalValue(s) == PointValue(s[..k], s[k + 1..]);
      PointValueBounds(s[..k], s[k + 1..]);
    } else {
      NoDotsAllDigits(s);
    }
  }

  /** A string of digits denotes a number below ten to its length. */
  lemma DigitsBelowPow10(ds: string)
    requires AllDigits(ds)
    ensures DigitsValue(ds) < Pow10(|ds|)
  {
    if ds != [] {
      DigitsBelowPow10(ds[..|ds| - 1]);
    }
  }

  /** The digits after a decimal point add less than one. */
  lemma FractionBelowOne(ds: string)
    requires AllDigits(ds)
    ensures 0.0 <= DigitsValue(ds) as real / Pow10(|ds|) as real < 1.0
  {
    DigitsBelowPow10(ds);
    QuotientBelowOne(DigitsValue(ds) as real, Pow10(|ds|) as real);
  }

  lemma QuotientBelowOne(x: real, y: real)
    requires 0.0 <= x < y
    ensures 0.0 <= x / y < 1.0
  {
    assert x / y * y == x;
  }

  lemma NoDotsAllDigits(s: string)
    requires forall k :: 0 <= k < |s| ==> InRun(s[k], true)
    requires '.' !in s
    ensures AllDigits(s)
  {
    forall k | 0 <= k < |s|
      ensures IsDigit(s[k])
    {
      assert s[k] in s;
    }
  }

  /** The token for a scanned numeral: `Float` when it has a decimal point,
      `Number` otherwise; a second decimal point makes the parse fail. */
  function NumberToken(lexeme: string): Result<Token, TokenizeError>
    requires IsNumeral(lexeme)
  {
    if Count(lexeme, '.') >= 2 then Err(MalformedNumber(lexeme))
    else if Count(lexeme, '.') == 1 then Ok(Float(DecimalValue(lexeme)))
    else Ok(Number(DecimalValue(lexeme)))
  }

  // ---------------------------------------------------------------------
  // Scanning
  // ---------------------------------------------------------------------

  /** What every emitted token looks like. */
  predicate WellFormed(t: Token) {
    match t
    case Number(v) => v >= 0.0 && v == v.Floor as real
    case Float(v) => v >= 0.0
    case Operator(c) => IsOperatorChar(c) || c == '='
    case Variable(name) => name != [] && forall k :: 0 <= k < |name| ==> IsAlphabetic(name[k])
  }

  /** One iteration of the scanner's loop: the token read at the start of
      the input (none for whitespace) and how many characters it used, or
      the error that ends the scan. */
  datatype Step =
    | Advance(token: Option<Token>, length: nat)
    | Stop(error: TokenizeError)

  function NextStep(s: string): (r: Step)
    requires s != []
    ensures r.Advance? ==> 1 <= r.length <= |s|
    ensures r.Advance? && r.token.Some? ==> WellFormed(r.token.value)
  {
    var c := s[0];
    if !IsAscii(c) then Stop(NonAscii(c))
    else if IsOperatorChar(c) then Advance(Some(Operator(c)), 1)
    else if IsDigit(c) then
      var n := RunLength(s, true);
      if n < |s| && !IsAscii(s[n]) then Stop(NonAscii(s[n]))
      else
        match NumberToken(s[..n])
        case Err(e) => Stop(e)
        case Ok(t) =>
          assert WellFormed(t) by { NumeralIsWellFormed(s[..n]); }
          Advance(Some(t), n)
    else if IsWhitespace(c) then Advance(None, 1)
    else if IsAlphabetic(c) then
      var n := RunLength(s, false);
      Advance(Some(Variable(s[..n])), n)
    else if c == '=' then Advance(Some(Operator('=')), 1)
    else Stop(UnknownCharacter(c))
  }

  /** A numeral fails to parse exactly when it has two or more decimal
      points. Otherwise it is a `Float` exactly when it has one; a numeral
      without a point is a `Number` whose value its digits denote, and one
      with a point has the digits before it as its whole part. */
  lemma NumeralToken(lexeme: string)
    requires IsNumeral(lexeme)
    ensures NumberToken(lexeme).Err? <==> Count(lexeme, '.') >= 2
    ensures NumberToken(lexeme).Ok? ==> (NumberToken(lexeme).value.Float? <==> '.' in lexeme)
    ensures '.' !in lexeme ==> AllDigits(lexeme) && NumberToken(lexeme) == Ok(Number(DigitsValue(lexeme) as real))
    ensures '.' in lexeme && NumberToken(lexeme).Ok? ==>
      var whole := lexeme[..DotIndex(lexeme)];
      AllDigits(whole) && NumberToken(lexeme).value.value.Floor == DigitsValue(whole)
  {
    CountZero(lexeme, '.');
    if Count(lexeme, '.') <= 1 {
      DecimalValueParts(lexeme);
    }
  }

  lemma NumeralIsWellFormed(lexeme: string)
    requires IsNumeral(lexeme)
    ensures NumberToken(lexeme).Ok? ==> WellFormed(NumberToken(lexeme).value)
  {
    CountZero(lexeme, '.');
    if Count(lexeme, '.') == 0 {
      NoDotsAllDigits(lexeme);
      assert DecimalValue(lexeme) == DigitsValue(lexeme) as real;
    }
  }

  function Prepend(t: Option<Token>, r: Result<seq<Token>, TokenizeError>): Result<seq<Token>, TokenizeError> {
    match r
    case Ok(ts) => if t.Some? then Ok([t.value] + ts) else Ok(ts)
    case Err(e) => Err(e)
  }

  /** The outcome of scanning one piece of input and then the next: the first error, or both
      token sequences one after the other. */
  function Concat(x: Result<seq<Token>, TokenizeError>, y: Result<seq<Token>, TokenizeError>): Result<seq<Token>, TokenizeError> {
    match x
    case Err(e) => Err(e)
    case Ok(xs) =>
      match y
      case Err(e) => Err(e)
      case Ok(ys) => Ok(xs + ys)
  }

  lemma ConcatPrepend(t: Option<Token>, x: Result<seq<Token>, TokenizeError>, y: Result<seq<Token>, TokenizeError>)
    ensures Concat(Prepend(t, x), y) == Prepend(t, Concat(x, y))
  {
    if x.Ok? && y.Ok? && t.Some? {
      assert ([t.value] + x.value) + y.value == [t.value] + (x.value + y.value);
    }
  }

  /** The tokens of `s`, or the first error met scanning it from the left. */
  function Tokenize(s: string): (r: Result<seq<Token>, TokenizeError>)
    ensures r.Ok? ==> |r.value| <= |s|
    ensures r.Ok? ==> forall k :: 0 <= k < |r.value| ==> WellFormed(r.value[k])
    decreases |s|
  {
    if s == [] then Ok([])
    else
      match NextStep(s)
      case Stop(e) => Err(e)
      case Advance(t, n) => Prepend(t, Tokenize(s[n..]))
  }

  /** Scanning from `i` picks up after the token (if any) read there. */
  lemma TokenizeFrom(input: string, i: nat)
    requires i < |input|
    ensures NextStep(input[i..]).Stop? ==> Tokenize(input[i..]) == Err(NextStep(input[i..]).error)
    ensures NextStep(input[i..]).Advance? ==>
      var step := NextStep(input[i..]);
      Tokenize(input[i..]) == Prepend(step.token, Tokenize(input[i + step.length..]))
  {
    var step := NextStep(input[i..]);
    if step.Advance? {
      assert input[i..][step.length..] == input[i + step.length..];
    }
  }

  /** The output after reading an optional token. */
  function Emit(output: seq<Token>, t: Option<Token>): seq<Token> {
    if t.Some? then output + [t.value] else output
  }

  /** Appending the token just read to the output leaves the final outcome
      unchanged. */
  lemma ConcatEmit(output: seq<Token>, t: Option<Token>, rest: Result<seq<Token>, TokenizeError>)
    ensures Concat(Ok(output), Prepend(t, rest)) == Concat(Ok(Emit(output, t)), rest)
  {
    if rest.Ok? && t.Some? {
      assert output + ([t.value] + rest.value) == (output + [t.value]) + rest.value;
    }
  }

  /** No tokens before, or none after, leave an outcome as it is. */
  lemma ConcatUnit(r: Result<seq<Token>, TokenizeError>, output: seq<Token>)
    ensures Concat(Ok([]), r) == r
    ensures Concat(Ok(output), Ok([])) == Ok(output)
  {
    assert output + [] == output;
    if r.Ok? {
      assert [] + r.value == r.value;
    }
  }

  /** An iteration that meets an error ends the whole scan with it. */
  lemma ScanStops(input: string, i: nat, output: seq<Token>, step: Step, goal: Result<seq<Token>, TokenizeError>)
    requires i < |input| && step == NextStep(input[i..]) && step.Stop?
    requires goal == Concat(Ok(output), Tokenize(input[i..]))
    ensures goal == Err(step.error)
  {
    TokenizeFrom(input, i);
  }

  /** An iteration that reads a token keeps the outcome of the whole scan
      equal to the output so far followed by the scan of the rest. */
  lemma ScanAdvances(input: string, i: nat, output: seq<Token>, step: Step, goal: Result<seq<Token>, TokenizeError>)
    requires i < |input| && step == NextStep(input[i..]) && step.Advance?
    requires goal == Concat(Ok(output), Tokenize(input[i..]))
    ensures goal == Concat(Ok(Emit(output, step.token)), Tokenize(input[i + step.length..]))
  {
    TokenizeFrom(input, i);
    ConcatEmit(output, step.token, Tokenize(input[i + step.length..]));
  }

  /** The body of the source's scanning loop at index `i`: the error that
      ends the scan, or the output with the token read pushed and the index
      after it. `goal` is the outcome of the whole scan. */
  method ScanInto(input: string, i: nat, output: seq<Token>, ghost goal: Result<seq<Token>, TokenizeError>)
    returns (error: Option<TokenizeError>, next: seq<Token>, j: nat)
    requires i < |input|
    requires goal == Concat(Ok(output), Tokenize(input[i..]))
    ensures error.Some? ==> goal == Err(error.value)
    ensures error.None? ==> i < j <= |input| && goal == Concat(Ok(next), Tokenize(input[j..]))
  {
    var step := ScanOne(input, i);
    if step.Stop? {
      ScanStops(input, i, output, step, goal);
      return Some(step.error), output, i;
    }
    error, next, j := None, Emit(output, step.token), i + step.length;
    ScanAdvances(input, i, output, step, goal);
    assert input[j..] == input[i + step.length..];
  }

  /** The source's scanning loop `while i < input.len()`: it reads one token
      per iteration into the output vector and returns at the first error. */
  method TokenizeLoop(input: string) returns (r: Result<seq<Token>, TokenizeError>)
    ensures r == Tokenize(input)
  {
    var output: seq<Token> := [];
    var i: nat := 0;
    assert input[0..] == input;
    ConcatUnit(Tokenize(input), output);
    while i < |input|
      invariant i <= |input|
      invariant Tokenize(input) == Concat(Ok(output), Tokenize(input[i..]))
      decreases |input| - i
    {
      var error;
      error, output, i := ScanInto(input, i, output, Tokenize(input));
      if error.Some? {
        return Err(error.value);
      }
    }
    assert input[i..] == [];
    ConcatUnit(Tokenize(input), output);
    return Ok(output);
  }

  /** One iteration of the source's scanning loop at index `i`, with its
      inner loops for numerals and identifiers; `Tokenize` repeats it from
      where it stopped. */
  method ScanOne(input: string, i: nat) returns (step: Step)
    requires i < |input|
    ensures step == NextStep(input[i..])
  {
    var c := input[i];
    assert input[i..][0] == c;
    if !IsAscii(c) {
      return Stop(NonAscii(c));
    }
    if IsOperatorChar(c) {
      return Advance(Some(Operator(c)), 1);
    }
    if IsDigit(c) {
      var end, foundDecimal, malformed := ScanNumeral(input, i);
      assert input[i..][..end - i] == input[i..end];
      if end < |input| && !IsAscii(input[end]) {
        assert input[i..][end - i] == input[end];
        return Stop(NonAscii(input[end]));
      }
      var lexeme := input[i..end];
      if malformed {
        return Stop(MalformedNumber(lexeme));
      }
      if foundDecimal {
        return Advance(Some(Float(DecimalValue(lexeme))), end - i);
      }
      return Advance(Some(Number(DecimalValue(lexeme))), end - i);
    }
    if IsWhitespace(c) {
      return Advance(None, 1);
    }
    if IsAlphabetic(c) {
      var end := ScanIdentifier(input, i);
      assert input[i..][..end - i] == input[i..end];
      return Advance(Some(Variable(input[i..end])), end - i);
    }
    if c == '=' {
      return Advance(Some(Operator('=')), 1);
    }
    return Stop(UnknownCharacter(c));
  }

  /** The inner loop over a numeral starting at the digit `input[i]`: where
      it ends, whether a decimal point was seen, and whether a second one was. */
  method ScanNumeral(input: string, i: nat) returns (end: nat, foundDecimal: bool, malformed: bool)
    requires i < |input| && IsDigit(input[i])
    ensures end == i + RunLength(input[i..], true)
    ensures foundDecimal <==> Count(input[i..end], '.') >= 1
    ensures malformed <==> Count(input[i..end], '.') >= 2
  {
    end := i + 1;
    foundDecimal := false;
    malformed := false;
    assert input[i..end] == [input[i]] && input[i..end][1..] == [];
    while end < |input|
      invariant i < end <= |input|
      invariant forall k :: i <= k < end ==> InRun(input[k], true)
      invariant foundDecimal <==> Count(input[i..end], '.') >= 1
      invariant malformed <==> Count(input[i..end], '.') >= 2
    {
      var d := input[end];
      assert input[i..end + 1] == input[i..end] + [d];
      CountSnoc(input[i..end], d, '.');
      if IsDigit(d) {
        end := end + 1;
      } else if d == '.' {
        end := end + 1;
        if foundDecimal {
          malformed := true;
        }
        foundDecimal := true;
      } else {
        break;
      }
    }
    RunLengthIsMaximalRun(input[i..], end - i, true);
  }

  /** The inner loop over an identifier starting at the letter `input[i]`. */
  method ScanIdentifier(input: string, i: nat) returns (end: nat)
    requires i < |input| && IsAlphabetic(input[i])
    ensures end == i + RunLength(input[i..], false)
  {
    end := i + 1;
    while end < |input|
      invariant i < end <= |input|
      invariant forall k :: i <= k < end ==> InRun(input[k], false)
    {
      if IsAlphabetic(input[end]) {
        end := end + 1;
      } else {
        break;
      }
    }
    RunLengthIsMaximalRun(input[i..], end - i, false);
  }

  /** `RunLength` is the one maximal run: any prefix of run characters that
      cannot be extended has exactly its length. */
  lemma RunLengthIsMaximalRun(s: string, n: nat, numeric: bool)
    requires n <= |s|
    requires forall k :: 0 <= k < n ==> InRun(s[k], numeric)
    requires n == |s| || !InRun(s[n], numeric)
    ensures RunLength(s, numeric) == n
  {
    if n > 0 {
      RunLengthIsMaximalRun(s[1..], n - 1, numeric);
    }
  }
}
