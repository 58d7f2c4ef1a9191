/** Properties of the scanner: it reads the input in order, one token per
    run, ignores whitespace between tokens, reports the first unknown
    character, and inverts a rendering of its own tokens. */
module TokenizerProps {
  import opened Results
  import opened Tokens
  import opened Tokenizer
  import opened Counting
  import SY = ShuntingYard

  /** `is_operator` accepts the operators that have a precedence and the two
      parentheses, and no character of another class: an operator is never
      part of a numeral, an identifier or whitespace, and `=` is not one. */
  lemma OperatorCharacters(c: char)
    ensures IsOperatorChar(c) <==> SY.IsBinaryOperator(c) || c == '(' || c == ')'
    ensures IsOperatorChar(c) ==> !InRun(c, true) && !InRun(c, false) && !IsWhitespace(c) && c != '='
  {
  }

  /** Two adjacent characters where the scanner, reading the token that
      ends with `c`, would take in `d` as well: a numeral continues over
      digits and decimal points (and its inner loop is the one that meets a
      non-ASCII character), an identifier over letters. */
  predicate Merges(c: char, d: char) {
    (InRun(c, true) && (InRun(d, true) || !IsAscii(d))) || (IsAlphabetic(c) && IsAlphabetic(d))
  }

  /** `a` and `b` meet where one token ends and the next may begin. */
  predicate AtBoundary(a: string, b: string) {
    a == [] || b == [] || !Merges(a[|a| - 1], b[0])
  }

  lemma ConcatAssociative(x: Result<seq<Token>, TokenizeError>, y: Result<seq<Token>, TokenizeError>, z: Result<seq<Token>, TokenizeError>)
    ensures Concat(Concat(x, y), z) == Concat(x, Concat(y, z))
  {
    if x.Ok? && y.Ok? && z.Ok? {
      assert (x.value + y.value) + z.value == x.value + (y.value + z.value);
    }
  }

  /** A run in `a` ends at the same place in `a + b` unless it reaches the
      end of `a` and `b` continues it. */
  lemma {:induction false} RunLengthAppend(a: string, b: string, numeric: bool)
    requires RunLength(a, numeric) < |a| || b == [] || !InRun(b[0], numeric)
    ensures RunLength(a + b, numeric) == RunLength(a, numeric)
  {
    if a == [] {
      assert a + b == b;
    } else if InRun(a[0], numeric) {
      assert (a + b)[1..] == a[1..] + b;
      RunLengthAppend(a[1..], b, numeric);
    } else {
      assert (a + b)[0] == a[0];
    }
  }

  /** Where `a` and `b` meet at a token boundary, the scanner's first
      iteration on `a + b` does what it does on `a`. */
  lemma NextStepAppend(a: string, b: string)
    requires a != [] && AtBoundary(a, b)
    ensures NextStep(a + b) == NextStep(a)
  {
    var s := a + b;
    var c := a[0];
    assert s[0] == c;
    if IsAscii(c) && (IsDigit(c) || IsAlphabetic(c)) {
      var numeric := IsDigit(c);
      var m := RunLength(a, numeric);
      if m == |a| && b != [] {
        assert InRun(a[|a| - 1], numeric);
        assert !Merges(a[|a| - 1], b[0]);
      }
      RunLengthAppend(a, b, numeric);
      assert s[..m] == a[..m];
      if m < |a| {
        assert s[m] == a[m];
      } else if b != [] {
        assert s[m] == b[0];
      }
    }
  }

  /** Scanning is compositional: where `a` and `b` meet at a token boundary,
      the tokens of `a + b` are those of `a` followed by those of `b`, and
      an error in `a` is reported before anything in `b`. */
  lemma {:induction false} TokenizeAppend(a: string, b: string)
    requires AtBoundary(a, b)
    ensures Tokenize(a + b) == Concat(Tokenize(a), Tokenize(b))
    decreases |a|
  {
    if a == [] {
      assert a + b == b;
      if Tokenize(b).Ok? {
        assert [] + Tokenize(b).value == Tokenize(b).value;
      }
    } else {
      NextStepAppend(a, b);
      var step := NextStep(a);
      if step.Advance? {
        var n := step.length;
        assert (a + b)[n..] == a[n..] + b;
        TokenizeAppend(a[n..], b);
        ConcatPrepend(step.token, Tokenize(a[n..]), Tokenize(b));
      }
    }
  }

  lemma WhitespaceIsSkipped(w: char, b: string)
    requires IsWhitespace(w)
    ensures Tokenize([w] + b) == Tokenize(b)
  {
    assert ([w] + b)[1..] == b;
  }

  /** Whitespace between two tokens emits nothing and changes nothing:
      "1+1" and "1 + 1" scan alike. */
  lemma WhitespaceIsIgnored(a: string, w: char, b: string)
    requires IsWhitespace(w) && AtBoundary(a, b)
    ensures Tokenize(a + [w] + b) == Tokenize(a + b)
  {
    assert a + [w] + b == a + ([w] + b);
    TokenizeAppend(a, [w] + b);
    WhitespaceIsSkipped(w, b);
    TokenizeAppend(a, b);
  }

  lemma OperatorAlone(c: char)
    requires IsOperatorChar(c) || c == '='
    ensures Tokenize([c]) == Ok([Operator(c)])
  {
    assert IsAscii(c);
    assert NextStep([c]) == Advance(Some(Operator(c)), 1);
    assert [c][1..] == [];
    assert Tokenize([]) == Ok([]);
    assert [Operator(c)] + [] == [Operator(c)];
  }

  /** Each of `+ - * / ( ) ^ =` is one `Operator` token wherever it stands;
      in particular a minus sign is never part of a numeral. */
  lemma OperatorCharacterIsOneToken(a: string, c: char, b: string)
    requires IsOperatorChar(c) || c == '='
    ensures Tokenize(a + [c] + b) == Concat(Concat(Tokenize(a), Ok([Operator(c)])), Tokenize(b))
  {
    assert a + [c] + b == a + ([c] + b);
    TokenizeAppend(a, [c] + b);
    TokenizeAppend([c], b);
    OperatorAlone(c);
    ConcatAssociative(Tokenize(a), Ok([Operator(c)]), Tokenize(b));
  }

  /** What a whole string scans to when it is one numeral. */
  function NumeralResult(lexeme: string): Result<seq<Token>, TokenizeError>
    requires IsNumeral(lexeme)
  {
    match NumberToken(lexeme)
    case Ok(t) => Ok([t])
    case Err(e) => Err(e)
  }

  lemma NumeralAlone(lexeme: string)
    requires IsNumeral(lexeme)
    ensures Tokenize(lexeme) == NumeralResult(lexeme)
  {
    var c := lexeme[0];
    assert IsAscii(c) && !IsOperatorChar(c) && IsDigit(c);
    RunLengthIsMaximalRun(lexeme, |lexeme|, true);
    assert lexeme[..|lexeme|] == lexeme;
    assert lexeme[|lexeme|..] == [];
    assert Tokenize([]) == Ok([]);
    match NumberToken(lexeme)
    case Err(e) =>
      assert NextStep(lexeme) == Stop(e);
    case Ok(t) =>
      assert NextStep(lexeme) == Advance(Some(t), |lexeme|);
      assert [t] + [] == [t];
  }

  /** A numeral — a digit, then digits and decimal points, up to the first
      other character — is one token: `Float` when it has exactly one
      decimal point, `Number` when it has none, an error with two or more. */
  lemma NumeralIsOneToken(lexeme: string, rest: string)
    requires IsNumeral(lexeme)
    requires rest == [] || (IsAscii(rest[0]) && !InRun(rest[0], true))
    ensures Count(lexeme, '.') >= 2 ==> Tokenize(lexeme + rest) == Err(MalformedNumber(lexeme))
    ensures Count(lexeme, '.') == 1 ==>
      Tokenize(lexeme + rest) == Concat(Ok([Float(DecimalValue(lexeme))]), Tokenize(rest))
    ensures Count(lexeme, '.') == 0 ==>
      Tokenize(lexeme + rest) == Concat(Ok([Number(DecimalValue(lexeme))]), Tokenize(rest))
  {
    assert InRun(lexeme[|lexeme| - 1], true);
    TokenizeAppend(lexeme, rest);
    NumeralAlone(lexeme);
  }

  lemma IdentifierAlone(name: string)
    requires name != [] && forall k :: 0 <= k < |name| ==> IsAlphabetic(name[k])
    ensures Tokenize(name) == Ok([Variable(name)])
  {
    var c := name[0];
    assert IsAlphabetic(c);
    assert IsAscii(c) && !IsOperatorChar(c) && !IsDigit(c) && !IsWhitespace(c);
    RunLengthIsMaximalRun(name, |name|, false);
    assert name[..|name|] == name;
    assert NextStep(name) == Advance(Some(Variable(name)), |name|);
    assert name[|name|..] == [];
    assert Tokenize([]) == Ok([]);
    assert [Variable(name)] + [] == [Variable(name)];
  }

  /** A maximal run of letters is one `Variable` token carrying exactly
      that text; no function names are recognised. */
  lemma IdentifierIsOneToken(name: string, rest: string)
    requires name != [] && forall k :: 0 <= k < |name| ==> IsAlphabetic(name[k])
    requires rest == [] || !IsAlphabetic(rest[0])
    ensures Tokenize(name + rest) == Concat(Ok([Variable(name)]), Tokenize(rest))
  {
    assert IsAlphabetic(name[|name| - 1]);
    TokenizeAppend(name, rest);
    IdentifierAlone(name);
  }

  /** Every decimal point follows a digit. */
  predicate PointsFollowDigits(s: string) {
    forall k :: 0 <= k < |s| && s[k] == '.' ==> 0 < k && IsDigit(s[k - 1])
  }

  /** No two decimal points lie in one run of digits and points. */
  predicate PointsSeparated(s: string) {
    forall i, j :: 0 <= i < j < |s| && s[i] == '.' && s[j] == '.' ==> exists m :: i < m < j && !InRun(s[m], true)
  }

  /** What the first iteration reads: a numeral with at most one point
      that ends where its run ends, or a token with no digit and no point. */
  lemma FirstStepPoints(s: string)
    requires s != [] && NextStep(s).Advance?
    ensures var n := NextStep(s).length;
      IsDigit(s[0]) ==>
        n == RunLength(s, true) && Count(s[..n], '.') <= 1 && forall k :: 0 <= k < n ==> InRun(s[k], true)
    ensures var n := NextStep(s).length;
      !IsDigit(s[0]) ==> forall k :: 0 <= k < n ==> s[k] != '.' && !IsDigit(s[k])
  {
  }

  /** Cutting off a prefix at a place that is not a point keeps both
      conditions. */
  lemma SuffixKeepsPoints(s: string, n: nat)
    requires n <= |s| && (n == |s| || s[n] != '.')
    requires PointsFollowDigits(s) && PointsSeparated(s)
    ensures PointsFollowDigits(s[n..]) && PointsSeparated(s[n..])
  {
    var t := s[n..];
    forall k | 0 <= k < |t| && t[k] == '.'
      ensures 0 < k && IsDigit(t[k - 1])
    {
      assert s[n + k] == '.';
    }
    forall i, j | 0 <= i < j < |t| && t[i] == '.' && t[j] == '.'
      ensures exists m :: i < m < j && !InRun(t[m], true)
    {
      assert s[n + i] == '.' && s[n + j] == '.';
      var m :| n + i < m < n + j && !InRun(s[m], true);
      assert t[m - n] == s[m];
    }
  }

  /** Input made of characters the scanner knows and of decimal points, in
      which every point follows a digit and no numeral holds two, scans. */
  lemma {:induction false} SeparatedPointsScan(s: string)
    requires forall k :: 0 <= k < |s| ==> IsKnown(s[k]) || s[k] == '.'
    requires PointsFollowDigits(s) && PointsSeparated(s)
    ensures Tokenize(s).Ok?
    decreases |s|
  {
    if s != [] {
      assert IsKnown(s[0]);
      if IsDigit(s[0]) {
        var n := RunLength(s, true);
        CountTwo(s[..n], '.');
        if n < |s| {
          assert IsKnown(s[n]);
        }
      }
      var step := NextStep(s);
      assert step.Advance?;
      FirstStepPoints(s);
      var n := step.length;
      if n < |s| && !IsDigit(s[0]) {
        assert !IsDigit(s[n - 1]);
      }
      SuffixKeepsPoints(s, n);
      SeparatedPointsScan(s[n..]);
    }
  }

  /** The token the first iteration reads holds at most one point, and
      that only after a digit; if it holds one, the run ends there. */
  lemma HeadPoints(s: string)
    requires s != [] && NextStep(s).Advance?
    ensures var n := NextStep(s).length;
      forall k :: 0 <= k < n && s[k] == '.' ==> 0 < k && IsDigit(s[k - 1])
    ensures var n := NextStep(s).length;
      forall i, j :: 0 <= i < j < n ==> !(s[i] == '.' && s[j] == '.')
    ensures var n := NextStep(s).length;
      n < |s| && '.' in s[..n] ==> !InRun(s[n], true)
  {
    var n := NextStep(s).length;
    FirstStepPoints(s);
    if IsDigit(s[0]) {
      CountTwo(s[..n], '.');
      forall i, j | 0 <= i < j < n
        ensures !(s[i] == '.' && s[j] == '.')
      {
        assert s[..n][i] == s[i] && s[..n][j] == s[j];
      }
    } else {
      forall k | 0 <= k < n
        ensures s[..n][k] != '.'
      {
      }
    }
  }

  /** A first token whose points follow digits and never come in pairs,
      ended where a point cannot continue it, joins a rest that meets both
      conditions into an input that meets them. */
  lemma JoinPoints(s: string, n: nat)
    requires 0 < n <= |s|
    requires forall k :: 0 <= k < n && s[k] == '.' ==> 0 < k && IsDigit(s[k - 1])
    requires forall i, j :: 0 <= i < j < n ==> !(s[i] == '.' && s[j] == '.')
    requires n < |s| ==> s[n] != '.' && ('.' in s[..n] ==> !InRun(s[n], true))
    requires PointsFollowDigits(s[n..]) && PointsSeparated(s[n..])
    ensures PointsFollowDigits(s) && PointsSeparated(s)
  {
    var t := s[n..];
    forall k | 0 <= k < |s| && s[k] == '.'
      ensures 0 < k && IsDigit(s[k - 1])
    {
      if k >= n {
        assert t[k - n] == '.';
      }
    }
    forall i, j | 0 <= i < j < |s| && s[i] == '.' && s[j] == '.'
      ensures exists m :: i < m < j && !InRun(s[m], true)
    {
      if i >= n {
        assert t[i - n] == '.' && t[j - n] == '.';
        var m :| i - n < m < j - n && !InRun(t[m], true);
        assert s[m + n] == t[m];
      } else if j >= n {
        assert s[..n][i] == '.';
        assert !InRun(s[n], true);
      }
    }
  }

  /** Conversely, input that scans has every point after a digit and no
      numeral with two points. */
  lemma {:induction false} ScanSeparatesPoints(s: string)
    requires Tokenize(s).Ok?
    ensures PointsFollowDigits(s) && PointsSeparated(s)
    decreases |s|
  {
    if s != [] {
      var n := NextStep(s).length;
      var t := s[n..];
      ScanSeparatesPoints(t);
      HeadPoints(s);
      if n < |s| {
        assert t[0] == s[n];
      }
      JoinPoints(s, n);
    }
  }

  /** Input made of characters the scanner knows and of decimal points
      scans exactly when every point follows a digit and no numeral holds
      two of them. */
  lemma KnownCharactersScan(s: string)
    requires forall k :: 0 <= k < |s| ==> IsKnown(s[k]) || s[k] == '.'
    ensures Tokenize(s).Ok? <==> PointsFollowDigits(s) && PointsSeparated(s)
  {
    if PointsFollowDigits(s) && PointsSeparated(s) {
      SeparatedPointsScan(s);
    }
    if Tokenize(s).Ok? {
      ScanSeparatesPoints(s);
    }
  }

  /** `1.5 + 2`, with a fractional numeral, scans. */
  lemma FractionalSumScans()
    ensures Tokenize("1.5 + 2").Ok?
  {
    var a := "1.5 + 2";
    assert forall k :: 0 <= k < |a| ==> (IsKnown(a[k]) || a[k] == '.') && (a[k] == '.' ==> k == 1);
    assert IsDigit(a[0]);
    KnownCharactersScan(a);
  }

  /** `1 + .5` fails: its point does not follow a digit. */
  lemma BarePointFails()
    ensures Tokenize("1 + .5").Err?
  {
    var c := "1 + .5";
    assert forall k :: 0 <= k < |c| ==> IsKnown(c[k]) || c[k] == '.';
    assert c[4] == '.' && !IsDigit(c[3]);
    KnownCharactersScan(c);
  }

  /** After any prefix that scans, the first character the scanner does not
      know is the one reported, whatever follows it. */
  lemma UnknownCharacterIsReported(a: string, c: char, b: string)
    requires Tokenize(a).Ok?
    requires IsAscii(c) && !IsKnown(c) && AtBoundary(a, [c] + b)
    ensures Tokenize(a + [c] + b) == Err(UnknownCharacter(c))
  {
    assert a + [c] + b == a + ([c] + b);
    assert ([c] + b)[0] == c;
    TokenizeAppend(a, [c] + b);
  }

  predicate IsSubstring(t: string, s: string) {
    exists i, j :: 0 <= i <= j <= |s| && s[i..j] == t
  }

  lemma SubstringOfSuffix(t: string, s: string, n: nat)
    requires n <= |s| && IsSubstring(t, s[n..])
    ensures IsSubstring(t, s)
  {
    var i, j :| 0 <= i <= j <= |s[n..]| && s[n..][i..j] == t;
    assert s[i + n..j + n] == t;
  }

  /** Errors are never invented: an unknown or non-ASCII character is one
      the input holds, and a malformed numeral is a piece of the input with
      at least two decimal points. */
  lemma {:induction false} ErrorsComeFromTheInput(s: string)
    ensures Tokenize(s).Err? && Tokenize(s).error.UnknownCharacter? ==>
      var c := Tokenize(s).error.c;
      c in s && IsAscii(c) && !IsKnown(c)
    ensures Tokenize(s).Err? && Tokenize(s).error.NonAscii? ==>
      var c := Tokenize(s).error.c;
      c in s && !IsAscii(c)
    ensures Tokenize(s).Err? && Tokenize(s).error.MalformedNumber? ==>
      var lexeme := Tokenize(s).error.lexeme;
      IsNumeral(lexeme) && Count(lexeme, '.') >= 2 && IsSubstring(lexeme, s)
    decreases |s|
  {
    if s != [] {
      var step := NextStep(s);
      if step.Stop? {
        if step.error.MalformedNumber? {
          var n := RunLength(s, true);
          assert s[0..n] == s[..n];
        } else if step.error.NonAscii? && IsAscii(s[0]) {
          var n := RunLength(s, true);
          assert s[n] in s;
        }
      } else {
        var n := step.length;
        ErrorsComeFromTheInput(s[n..]);
        var r := Tokenize(s[n..]);
        if r.Err? {
          assert Tokenize(s) == r;
          if r.error.MalformedNumber? {
            SubstringOfSuffix(r.error.lexeme, s, n);
          } else if r.error.UnknownCharacter? || r.error.NonAscii? {
            assert r.error.c in s[n..];
          }
        }
      }
    }
  }

  // ---------------------------------------------------------------------
  // Rendering tokens back to text
  // ---------------------------------------------------------------------

  function DigitChar(d: nat): (c: char)
    requires d < 10
    ensures IsDigit(c) && DigitValue(c) == d
  {
    ('0' as int + d) as char
  }

  /** The decimal digits of `n`. */
  function NatText(n: nat): (s: string)
    ensures s != [] && AllDigits(s) && DigitsValue(s) == n
  {
    if n < 10 then
      assert [DigitChar(n)][..0] == [];
      [DigitChar(n)]
    else
      var s := NatText(n / 10) + [DigitChar(n % 10)];
      assert s[..|s| - 1] == NatText(n / 10);
      s
  }

  /** Tokens the scanner can produce and that have a textual form: every
      well-formed token, with floats restricted to whole values. */
  predicate Renderable(t: Token) {
    WellFormed(t) && (t.Float? ==> t.value == t.value.Floor as real)
  }

  function TokenText(t: Token): string
    requires Renderable(t)
  {
    match t
    case Number(v) => NatText(v.Floor)
    case Float(v) => NatText(v.Floor) + ".0"
    case Operator(c) => [c]
    case Variable(name) => name
  }

  /** The tokens written out, each followed by a space. */
  function Render(ts: seq<Token>): string
    requires forall k :: 0 <= k < |ts| ==> Renderable(ts[k])
  {
    if ts == [] then [] else TokenText(ts[0]) + " " + Render(ts[1..])
  }

  lemma NoDotsInNatText(n: nat)
    ensures '.' !in NatText(n)
  {
    var s := NatText(n);
    forall k | 0 <= k < |s|
      ensures s[k] != '.'
    {
      assert IsDigit(s[k]);
    }
  }

  lemma TokenTextScans(t: Token)
    requires Renderable(t)
    ensures Tokenize(TokenText(t)) == Ok([t])
  {
    match t
    case Number(v) =>
      var digits := NatText(v.Floor);
      NoDotsInNatText(v.Floor);
      CountZero(digits, '.');
      assert DecimalValue(digits) == v;
      NumeralAlone(digits);
    case Float(v) =>
      FloatTextScans(v);
    case Operator(c) =>
      OperatorAlone(c);
    case Variable(name) =>
      IdentifierAlone(name);
  }

  lemma {:induction false} DotAfterDigits(digits: string, rest: string)
    requires '.' !in digits
    ensures DotIndex(digits + "." + rest) == |digits|
  {
    if digits != [] {
      assert (digits + "." + rest)[1..] == digits[1..] + "." + rest;
      assert digits[0] in digits;
      DotAfterDigits(digits[1..], rest);
    }
  }

  /** The text of a whole float, `<digits>.0`, is a numeral with one
      decimal point whose value is that float. */
  lemma FloatLexeme(v: real)
    requires Renderable(Float(v))
    ensures var lexeme := NatText(v.Floor) + ".0";
      IsNumeral(lexeme) && Count(lexeme, '.') == 1 && DecimalValue(lexeme) == v
  {
    var digits := NatText(v.Floor);
    var lexeme := digits + ".0";
    NoDotsInNatText(v.Floor);
    CountZero(digits, '.');
    CountAppend(digits, ".0", '.');
    assert Count(".0", '.') == 1 by {
      assert ".0"[1..] == "0" && "0"[1..] == [];
    }
    assert lexeme[0] == digits[0];
    assert lexeme[|digits|] == '.';
    forall k | 0 <= k < |lexeme|
      ensures InRun(lexeme[k], true)
    {
      if k < |digits| {
        assert lexeme[k] == digits[k];
      }
    }
    assert lexeme[..|digits|] == digits;
    DotAfterDigits(digits, "0");
    assert lexeme[|digits| + 1..] == "0";
    assert DigitsValue("0") == 0 by { assert "0"[..0] == []; }
    assert DecimalValue(lexeme) == PointValue(digits, "0");
    PointValueWhole(digits, "0");
  }

  lemma FloatTextScans(v: real)
    requires Renderable(Float(v))
    ensures Tokenize(NatText(v.Floor) + ".0") == Ok([Float(v)])
  {
    FloatLexeme(v);
    NumeralAlone(NatText(v.Floor) + ".0");
  }

  /** A space separates two texts: they scan apart. */
  lemma SpaceSeparates(a: string, b: string)
    ensures Tokenize(a + " " + b) == Concat(Tokenize(a), Tokenize(b))
  {
    assert a + " " + b == a + (" " + b);
    TokenizeAppend(a, " " + b);
    WhitespaceIsSkipped(' ', b);
  }

  /** The text of a token and the space after it scan apart from the
      text of the tokens that follow. */
  lemma RenderHead(ts: seq<Token>)
    requires ts != [] && forall k :: 0 <= k < |ts| ==> Renderable(ts[k])
    ensures Tokenize(Render(ts)) == Concat(Tokenize(TokenText(ts[0])), Tokenize(Render(ts[1..])))
  {
    SpaceSeparates(TokenText(ts[0]), Render(ts[1..]));
  }

  /** Scanning inverts rendering: every sequence of renderable tokens is
      read back exactly from its text. */
  lemma {:induction false} RenderRoundTrip(ts: seq<Token>)
    requires forall k :: 0 <= k < |ts| ==> Renderable(ts[k])
    ensures Tokenize(Render(ts)) == Ok(ts)
  {
    if ts != [] {
      RenderHead(ts);
      TokenTextScans(ts[0]);
      RenderRoundTrip(ts[1..]);
      assert [ts[0]] + ts[1..] == ts;
    }
  }

  // ---------------------------------------------------------------------
  // Worked examples
  // ---------------------------------------------------------------------

  lemma OneAlone()
    ensures Tokenize("1") == Ok([Number(1.0)])
  {
    assert "1"[..0] == [];
    assert DecimalValue("1") == 1.0;
    CountZero("1", '.');
    assert NumberToken("1") == Ok(Number(1.0));
    NumeralAlone("1");
  }

  /** "1+1" is a number, an operator and a number. */
  lemma OnePlusOne()
    ensures Tokenize("1+1") == Ok([Number(1.0), Operator('+'), Number(1.0)])
  {
    OneAlone();
    assert "1+1" == "1" + ['+'] + "1";
    OperatorCharacterIsOneToken("1", '+', "1");
    var one := [Number(1.0)];
    assert Concat(Ok(one), Ok([Operator('+')])) == Ok(one + [Operator('+')]);
    assert one + [Operator('+')] + one == [Number(1.0), Operator('+'), Number(1.0)];
  }

  /** Spacing does not matter: "1 + 1" scans like "1+1". */
  lemma SpacedOnePlusOne()
    ensures Tokenize("1 + 1") == Tokenize("1+1")
  {
    SpaceBeforePlus();
    SpaceAfterPlus();
  }

  lemma SpaceBeforePlus()
    ensures Tokenize("1 + 1") == Tokenize("1+ 1")
  {
    assert "1 + 1" == "1" + [' '] + "+ 1";
    assert "1+ 1" == "1" + "+ 1";
    WhitespaceIsIgnored("1", ' ', "+ 1");
  }

  lemma SpaceAfterPlus()
    ensures Tokenize("1+ 1") == Tokenize("1+1")
  {
    assert "1+ 1" == "1+" + [' '] + "1";
    assert "1+1" == "1+" + "1";
    WhitespaceIsIgnored("1+", ' ', "1");
  }

  /** A leading minus sign is an operator followed by a number: there are no
      negative literals. */
  lemma MinusFiveIsTwoTokens()
    ensures Tokenize("-5") == Ok([Operator('-'), Number(5.0)])
  {
    assert "5"[..0] == [];
    assert DecimalValue("5") == 5.0;
    CountZero("5", '.');
    assert NumberToken("5") == Ok(Number(5.0));
    NumeralAlone("5");
    assert "-5" == [] + ['-'] + "5";
    OperatorCharacterIsOneToken([], '-', "5");
    assert Tokenize([]) == Ok([]);
    assert [] + [Operator('-')] + [Number(5.0)] == [Operator('-'), Number(5.0)];
  }
}
