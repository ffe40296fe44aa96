/** The token table of src/token.rs, as a pure longest-match tokenizer over
    the source text.  The rules are those of the table's regular expressions:
    identifiers `[_a-zA-Z]+`, string literals `"([^"\\]|\\.)*"` whose value is
    the raw text between the quotes, nine single-character punctuation tokens,
    `[0-9]+` numbers, `[0-9]*[.][0-9]+` floats (kept as their lexeme), runs of
    space, tab, newline and form feed skipped, and an `Error` token for any
    other character. */
module Tokens {
  import opened Results

  datatype Token =
    | Id(text: string)
    | LiteralString(text: string)
    | Equal
    | QuestionMark
    | Comma
    | BracketLeft
    | BracketRight
    | ParensLeft
    | ParensRight
    | BraceLeft
    | BraceRight
    | Number(value: nat)
    | Float(lexeme: string)
    | Error

  predicate IsIdChar(c: char) {
    c == '_' || 'a' <= c <= 'z' || 'A' <= c <= 'Z'
  }

  predicate IsDigit(c: char) {
    '0' <= c <= '9'
  }

  /** The skip set `[ \t\n\f]`; a carriage return is not in it. */
  predicate IsSkipped(c: char) {
    c == ' ' || c == '\t' || c == '\n' || c == '\U{000C}'
  }

  predicate IsIdentifier(w: string) {
    w != [] && forall i :: 0 <= i < |w| ==> IsIdChar(w[i])
  }

  predicate IsDigits(d: string) {
    forall i :: 0 <= i < |d| ==> IsDigit(d[i])
  }

  predicate IsWhitespace(w: string) {
    forall i :: 0 <= i < |w| ==> IsSkipped(w[i])
  }

  /** The single-character tokens. */
  function Punctuation(c: char): Option<Token> {
    match c
    case '=' => Some(Equal)
    case '?' => Some(QuestionMark)
    case ',' => Some(Comma)
    case '[' => Some(BracketLeft)
    case ']' => Some(BracketRight)
    case '(' => Some(ParensLeft)
    case ')' => Some(ParensRight)
    case '{' => Some(BraceLeft)
    case '}' => Some(BraceRight)
    case _ => None
  }

  /** The character classes whose maximal runs the rules take. */
  datatype CharClass = IdChars | Digits | Blank

  predicate InClass(c: char, k: CharClass) {
    match k
    case IdChars => IsIdChar(c)
    case Digits => IsDigit(c)
    case Blank => IsSkipped(c)
  }

  /** The length of the longest prefix of `s` whose characters are in
      class `k`. */
  function RunLength(s: string, k: CharClass): (n: nat)
    ensures n <= |s|
  {
    if s == [] || !InClass(s[0], k) then 0 else 1 + RunLength(s[1..], k)
  }

  /** The value of a decimal digit (only ever applied to digits). */
  function DigitValue(c: char): (v: nat)
    ensures v < 10
    ensures IsDigit(c) ==> v == c as int - '0' as int
  {
    if IsDigit(c) then c as int - '0' as int else 0
  }

  /** The decimal value of a run of digits. */
  function DigitsValue(d: string): nat
  {
    if d == [] then 0
    else 10 * DigitsValue(d[..|d| - 1]) + DigitValue(d[|d| - 1])
  }

  /** The body language `([^"\\]|\\.)*` of a string literal: characters other
      than a quote or a backslash, and backslash escapes of any character but
      a newline (`.` does not match a newline). */
  predicate EscapedBody(c: string)
    decreases |c|
  {
    || c == []
    || (c[0] != '"' && c[0] != '\\' && EscapedBody(c[1..]))
    || (|c| >= 2 && c[0] == '\\' && c[1] != '\n' && EscapedBody(c[2..]))
  }

  /** Given the text after an opening quote, the length of the literal's body
      (the position of the closing quote), or None when the literal is not
      closed. */
  function StringBodyLength(s: string): (r: Option<nat>)
    ensures r.Some? ==> r.value < |s| && s[r.value] == '"'
    decreases |s|
  {
    if s == [] then None
    else if s[0] == '"' then Some(0)
    else if s[0] == '\\' then
      if |s| >= 2 && s[1] != '\n' then
        match StringBodyLength(s[2..])
        case None => None
        case Some(n) => Some(n + 2)
      else None
    else
      match StringBodyLength(s[1..])
      case None => None
      case Some(n) => Some(n + 1)
  }

  /** `[0-9]+` or `[0-9]*[.][0-9]+`, longest match first; a lone `.` is an
      error. */
  function LexNumeric(t: string): (r: (Token, string))
    requires t != [] && (IsDigit(t[0]) || t[0] == '.')
    ensures |r.1| < |t| && r.1 == t[|t| - |r.1|..]
  {
    var n := RunLength(t, Digits);
    if n + 1 < |t| && t[n] == '.' && IsDigit(t[n + 1]) then
      FloatAfter(t, n)
    else if n > 0 then
      (Number(DigitsValue(t[..n])), t[n..])
    else
      (Error, t[1..])
  }

  /** The `Float` whose `.` is at `t[n]`: the digits after the dot run as far
      as they go. */
  function FloatAfter(t: string, n: nat): (r: (Token, string))
    requires n + 1 < |t|
  {
    var m := RunLength(t[n + 1..], Digits);
    (Float(t[..n + 1 + m]), t[n + 1 + m..])
  }

  /** The token at the start of `t` (which starts with no skipped character)
      and the text after it.  A character no rule accepts, and the quote of a
      literal that is never closed, become one `Error` token each. */
  function LexAt(t: string): (r: (Token, string))
    requires t != []
    ensures |r.1| < |t| && r.1 == t[|t| - |r.1|..]
  {
    var c := t[0];
    if IsIdChar(c) then
      var n := RunLength(t, IdChars);
      (Id(t[..n]), t[n..])
    else if c == '"' then
      match StringBodyLength(t[1..])
      case Some(n) => (LiteralString(t[1..n + 1]), t[n + 2..])
      case None => (Error, t[1..])
    else if Punctuation(c).Some? then
      (Punctuation(c).value, t[1..])
    else if IsDigit(c) || c == '.' then
      LexNumeric(t)
    else
      (Error, t[1..])
  }

  /** One step of the token stream: skip whitespace, then lex one token; None
      once only whitespace is left. */
  function Scan(s: string): (r: Option<(Token, string)>)
    ensures r.Some? ==> |r.value.1| < |s|
  {
    var t := s[RunLength(s, Blank)..];
    if t == [] then None else Some(LexAt(t))
  }

  /** The whole token stream of a source text. */
  function Tokenize(s: string): (r: seq<Token>)
    ensures |r| <= |s|
    decreases |s|
  {
    match Scan(s)
    case None => []
    case Some((t, rest)) => [t] + Tokenize(rest)
  }

  // ---------------------------------------------------------------------
  // Properties of the rules

  /** The run is made of characters of the class, and stops at the first
      character outside it. */
  lemma {:induction false} RunLengthSpec(s: string, k: CharClass)
    ensures forall i :: 0 <= i < RunLength(s, k) ==> InClass(s[i], k)
    ensures RunLength(s, k) < |s| ==> !InClass(s[RunLength(s, k)], k)
  {
    if s != [] && InClass(s[0], k) {
      RunLengthSpec(s[1..], k);
      forall i | 0 < i < RunLength(s, k) ensures InClass(s[i], k) {
        assert s[i] == s[1..][i - 1];
      }
    }
  }

  /** The run length is determined by where the property first fails. */
  lemma {:induction false} RunLengthIs(s: string, c: CharClass, k: nat)
    requires k <= |s|
    requires forall i :: 0 <= i < k ==> InClass(s[i], c)
    requires k < |s| ==> !InClass(s[k], c)
    ensures RunLength(s, c) == k
    decreases k
  {
    if k > 0 {
      forall i | 0 <= i < k - 1 ensures InClass(s[1..][i], c) {
        assert s[1..][i] == s[i + 1];
      }
      if k < |s| { assert s[1..][k - 1] == s[k]; }
      RunLengthIs(s[1..], c, k - 1);
    }
  }

  /** The string scanner accepts exactly the bodies of the literal's regular
      expression followed by a quote, in both directions. */
  lemma {:induction false} StringBodyLengthSpec(s: string, n: nat)
    ensures StringBodyLength(s) == Some(n) <==> n < |s| && s[n] == '"' && EscapedBody(s[..n])
    decreases |s|
  {
    if s == [] {
    } else if s[0] == '"' {
      if n > 0 && n < |s| && s[n] == '"' {
        assert !EscapedBody(s[..n]) by {
          assert s[..n][0] == '"';
        }
      }
      assert n == 0 ==> s[..n] == [];
    } else if s[0] == '\\' {
      if |s| >= 2 && s[1] != '\n' {
        if 2 <= n <= |s| {
          StringBodyLengthSpec(s[2..], n - 2);
          assert s[2..][..n - 2] == s[..n][2..];
        }
        if n < 2 && n < |s| && s[n] == '"' {
          assert !EscapedBody(s[..n]) by {
            if n == 1 { assert s[..n] == ['\\']; }
          }
        }
      } else {
        if n < |s| && s[n] == '"' {
          assert n > 0;
          assert !EscapedBody(s[..n]) by {
            var c := s[..n];
            assert c[0] == '\\';
            if |c| >= 2 { assert c[1] == s[1]; }
          }
        }
      }
    } else {
      if 1 <= n <= |s| {
        StringBodyLengthSpec(s[1..], n - 1);
        assert s[1..][..n - 1] == s[..n][1..];
      }
    }
  }

  /** Whitespace before a token is skipped: it never changes the next token. */
  lemma ScanSkipsWhitespace(w: string, s: string)
    requires IsWhitespace(w)
    ensures Scan(w + s) == Scan(s)
    ensures Tokenize(w + s) == Tokenize(s)
  {
    var m := RunLength(s, Blank);
    BlankRunAfterWhitespace(w, s);
    assert (w + s)[|w| + m..] == s[m..];
  }

  /** The blank run of `w + s` is all of the whitespace `w` and then the blank
      run of `s`. */
  lemma BlankRunAfterWhitespace(w: string, s: string)
    requires IsWhitespace(w)
    ensures RunLength(w + s, Blank) == |w| + RunLength(s, Blank)
  {
    var m := RunLength(s, Blank);
    RunLengthSpec(s, Blank);
    var ws := w + s;
    forall i | 0 <= i < |w| + m ensures InClass(ws[i], Blank) {
      if i >= |w| { assert ws[i] == s[i - |w|]; }
    }
    if |w| + m < |ws| { assert ws[|w| + m] == s[m]; }
    RunLengthIs(ws, Blank, |w| + m);
  }

  /** Maximal munch for identifiers: the whole run of identifier characters
      (digits are not among them) becomes one `Id` carrying exactly that text. */
  lemma ScanIdentifier(w: string, rest: string)
    requires IsIdentifier(w)
    requires rest == [] || !IsIdChar(rest[0])
    ensures Scan(w + rest) == Some((Id(w), rest))
  {
    RunLengthIs(w + rest, Blank, 0);
    RunLengthIs(w + rest, IdChars, |w|);
    assert (w + rest)[..|w|] == w;
    assert (w + rest)[|w|..] == rest;
  }

  /** A closed string literal yields its raw body, escapes uninterpreted; an
      escaped quote does not close it. */
  lemma ScanStringLiteral(body: string, rest: string)
    requires EscapedBody(body)
    ensures Scan(['"'] + body + ['"'] + rest) == Some((LiteralString(body), rest))
  {
    LexStringLiteral(body, rest);
    ScanAtToken(['"'] + body + ['"'] + rest);
  }

  lemma LexStringLiteral(body: string, rest: string)
    requires EscapedBody(body)
    ensures LexAt(['"'] + body + ['"'] + rest) == (LiteralString(body), rest)
  {
    var s := ['"'] + body + ['"'] + rest;
    QuotedText(body, rest);
    StringBodyEnds(body, rest);
    LexAtQuote(s, |body|);
  }

  /** The parts of a quoted text followed by more text. */
  lemma QuotedText(body: string, rest: string)
    ensures var s := ['"'] + body + ['"'] + rest;
            && s[0] == '"'
            && s[1..] == body + ['"'] + rest
            && s[1..|body| + 1] == body
            && s[|body| + 2..] == rest
  {
    var s := ['"'] + body + ['"'] + rest;
    assert s[1..] == body + ['"'] + rest;
    assert s[1..|body| + 1] == body;
    assert s[|body| + 2..] == rest;
  }

  /** The string rule at a quote whose literal is closed. */
  lemma LexAtQuote(t: string, n: nat)
    requires t != [] && t[0] == '"' && StringBodyLength(t[1..]) == Some(n)
    ensures LexAt(t) == (LiteralString(t[1..n + 1]), t[n + 2..])
  {
  }

  lemma StringBodyEnds(body: string, rest: string)
    requires EscapedBody(body)
    ensures StringBodyLength(body + ['"'] + rest) == Some(|body|)
  {
    var u := body + ['"'] + rest;
    assert u[..|body|] == body;
    StringBodyLengthSpec(u, |body|);
  }

  /** A quote that no later quote closes is one `Error` token, and lexing
      resumes right after it. */
  lemma ScanUnclosedString(s: string)
    requires StringBodyLength(s) == None
    ensures Scan(['"'] + s) == Some((Error, s))
  {
    RunLengthIs(['"'] + s, Blank, 0);
    assert (['"'] + s)[1..] == s;
  }

  /** Each punctuation character is a token of its own. */
  lemma ScanPunctuation(c: char, rest: string)
    requires Punctuation(c).Some?
    ensures Scan([c] + rest) == Some((Punctuation(c).value, rest))
  {
    RunLengthIs([c] + rest, Blank, 0);
    assert ([c] + rest)[1..] == rest;
  }

  /** A text that starts with a token (no whitespace first) is lexed at
      once. */
  lemma ScanAtToken(t: string)
    requires t != [] && !IsSkipped(t[0])
    ensures Scan(t) == Some(LexAt(t))
  {
    RunLengthIs(t, Blank, 0);
  }

  lemma LexAtNumeric(t: string)
    requires t != [] && (IsDigit(t[0]) || t[0] == '.')
    ensures LexAt(t) == LexNumeric(t)
  {
  }

  /** The float rule, at the level of a text that starts with a float. */
  lemma LexFloat(t: string, k: nat, m: nat)
    requires k + 1 + m <= |t| && t[k] == '.' && m > 0
    requires forall i :: 0 <= i < k ==> IsDigit(t[i])
    requires forall i :: k < i < k + 1 + m ==> IsDigit(t[i])
    requires k + 1 + m < |t| ==> !IsDigit(t[k + 1 + m])
    ensures Scan(t) == Some((Float(t[..k + 1 + m]), t[k + 1 + m..]))
  {
    assert IsDigit(t[0]) || t[0] == '.';
    assert IsDigit(t[k + 1]);
    RunLengthIs(t, Digits, k);
    var u := t[k + 1..];
    forall i | 0 <= i < m ensures InClass(u[i], Digits) {
      assert u[i] == t[k + 1 + i];
    }
    if m < |u| { assert u[m] == t[k + 1 + m]; }
    RunLengthIs(u, Digits, m);
    LexNumericFloat(t, k, m);
    ScanAtToken(t);
    LexAtNumeric(t);
  }

  lemma LexNumericFloat(t: string, k: nat, m: nat)
    requires t != [] && (IsDigit(t[0]) || t[0] == '.')
    requires k + 1 < |t| && RunLength(t, Digits) == k && t[k] == '.' && IsDigit(t[k + 1])
    requires RunLength(t[k + 1..], Digits) == m
    ensures LexNumeric(t) == (Float(t[..k + 1 + m]), t[k + 1 + m..])
  {
    assert LexNumeric(t) == FloatAfter(t, k);
  }

  /** `digits? '.' digits` is a single `Float` by longest match. */
  lemma ScanFloat(d1: string, d2: string, rest: string)
    requires IsDigits(d1) && d2 != [] && IsDigits(d2)
    requires rest == [] || !IsDigit(rest[0])
    ensures Scan(d1 + ['.'] + d2 + rest) == Some((Float(d1 + ['.'] + d2), rest))
  {
    var t := d1 + ['.'] + d2 + rest;
    var n := |d1|;
    forall i | 0 <= i < n ensures IsDigit(t[i]) {
      assert t[i] == d1[i];
    }
    forall i | n < i < n + 1 + |d2| ensures IsDigit(t[i]) {
      assert t[i] == d2[i - n - 1];
    }
    LexFloat(t, n, |d2|);
    assert t[..n + 1 + |d2|] == d1 + ['.'] + d2;
    assert t[n + 1 + |d2|..] == rest;
  }

  /** A digit run not followed by `.` and a digit is a `Number` with the
      run's decimal value. */
  lemma ScanNumber(d: string, rest: string)
    requires d != [] && IsDigits(d)
    requires rest == [] || !IsDigit(rest[0])
    requires !(|rest| >= 2 && rest[0] == '.' && IsDigit(rest[1]))
    ensures Scan(d + rest) == Some((Number(DigitsValue(d)), rest))
  {
    var t := d + rest;
    assert t[0] == d[0];
    ScanAtToken(t);
    LexAtNumeric(t);
    RunLengthIs(t, Digits, |d|);
    assert t[..|d|] == d;
    assert t[|d|..] == rest;
  }

  /** Any character no rule covers yields `Error` and the stream goes on; so
      does a `.` that no digit follows. */
  lemma ScanUnknownCharacter(c: char, rest: string)
    requires !IsSkipped(c) && !IsIdChar(c) && !IsDigit(c)
    requires c != '"' && Punctuation(c).None?
    requires c == '.' ==> rest == [] || !IsDigit(rest[0])
    ensures Scan([c] + rest) == Some((Error, rest))
    ensures Tokenize([c] + rest) == [Error] + Tokenize(rest)
  {
    RunLengthIs([c] + rest, Blank, 0);
    assert ([c] + rest)[1..] == rest;
    if c == '.' {
      RunLengthIs([c] + rest, Digits, 0);
    }
  }

  // ---------------------------------------------------------------------
  // Every token of the stream has the shape its rule gives it

  /** `[0-9]*[.][0-9]+` */
  predicate IsFloatLexeme(x: string) {
    var k := RunLength(x, Digits);
    k + 1 < |x| && x[k] == '.' && forall i :: k < i < |x| ==> IsDigit(x[i])
  }

  predicate WellFormed(t: Token) {
    match t
    case Id(w) => IsIdentifier(w)
    case LiteralString(body) => EscapedBody(body)
    case Float(x) => IsFloatLexeme(x)
    case _ => true
  }

  lemma LexNumericWellFormed(t: string)
    requires t != [] && (IsDigit(t[0]) || t[0] == '.')
    ensures WellFormed(LexNumeric(t).0)
  {
    var n := RunLength(t, Digits);
    if n + 1 < |t| && t[n] == '.' && IsDigit(t[n + 1]) {
      var m := RunLength(t[n + 1..], Digits);
      LexNumericFloat(t, n, m);
      FloatRunIsLexeme(t, n, m);
    } else {
      assert !LexNumeric(t).0.Float?;
    }
  }

  /** The text a float rule takes has the float shape. */
  lemma FloatRunIsLexeme(t: string, n: nat, m: nat)
    requires n + 1 < |t| && RunLength(t, Digits) == n && t[n] == '.' && IsDigit(t[n + 1])
    requires RunLength(t[n + 1..], Digits) == m
    ensures IsFloatLexeme(t[..n + 1 + m])
  {
    var u := t[n + 1..];
    var x := t[..n + 1 + m];
    RunLengthSpec(t, Digits);
    RunLengthSpec(u, Digits);
    assert m > 0 by {
      assert InClass(u[0], Digits);
    }
    forall i | 0 <= i < n ensures InClass(x[i], Digits) {
      assert x[i] == t[i];
    }
    RunLengthIs(x, Digits, n);
    forall i | n < i < |x| ensures IsDigit(x[i]) {
      assert x[i] == u[i - n - 1];
      assert InClass(u[i - n - 1], Digits);
    }
  }

  lemma LexAtWellFormed(t: string)
    requires t != []
    ensures WellFormed(LexAt(t).0)
  {
    var c := t[0];
    if IsIdChar(c) {
      var n := RunLength(t, IdChars);
      RunLengthSpec(t, IdChars);
      var w := t[..n];
      forall i | 0 <= i < |w| ensures IsIdChar(w[i]) {
        assert w[i] == t[i];
        assert InClass(t[i], IdChars);
      }
    } else if c == '"' {
      match StringBodyLength(t[1..])
      case Some(n) =>
        StringBodyLengthSpec(t[1..], n);
        assert t[1..][..n] == t[1..n + 1];
      case None =>
    } else if Punctuation(c).Some? {
    } else if IsDigit(c) || c == '.' {
      LexAtNumeric(t);
      LexNumericWellFormed(t);
    }
  }

  /** Tokenizing never emits a malformed token: identifiers are non-empty runs
      of identifier characters, literal bodies are escaped bodies, floats have
      the float shape. */
  lemma {:induction false} TokenizeWellFormed(s: string)
    ensures forall i :: 0 <= i < |Tokenize(s)| ==> WellFormed(Tokenize(s)[i])
    decreases |s|
  {
    match Scan(s)
    case None =>
    case Some((t, rest)) =>
      LexAtWellFormed(s[RunLength(s, Blank)..]);
      TokenizeWellFormed(rest);
  }

  // ---------------------------------------------------------------------
  // The unit tests of the token table

  lemma TokenizeStep(s: string, t: Token, rest: string)
    requires Scan(s) == Some((t, rest))
    ensures Tokenize(s) == [t] + Tokenize(rest)
  {
  }

  lemma TokenizeEmptyList()
    ensures Tokenize("[]") == [BracketLeft, BracketRight]
  {
    TokenizePunctuationPair('[', ']');
  }

  /** Two punctuation characters in a row are two tokens. */
  lemma TokenizePunctuationPair(c1: char, c2: char)
    requires Punctuation(c1).Some? && Punctuation(c2).Some?
    ensures Tokenize([c1, c2]) == [Punctuation(c1).value, Punctuation(c2).value]
  {
    assert Tokenize([c2]) == [Punctuation(c2).value] by {
      assert [c2] == [c2] + [];
      TokenizePunctuation(c2, []);
      assert Tokenize([]) == [];
    }
    assert [c1, c2] == [c1] + [c2];
    TokenizePunctuation(c1, [c2]);
  }

  lemma TokenizeFloatLiteral()
    ensures Tokenize("3.14") == [Float("3.14")]
  {
    assert IsDigits("3") && IsDigits("14");
    ScanFloat("3", "14", "");
    assert "3" + ['.'] + "14" + "" == "3.14";
    assert "3" + ['.'] + "14" == "3.14";
    TokenizeStep("3.14", Float("3.14"), "");
  }

  lemma TokenizePunctuation(c: char, rest: string)
    requires Punctuation(c).Some?
    ensures Tokenize([c] + rest) == [Punctuation(c).value] + Tokenize(rest)
  {
    ScanPunctuation(c, rest);
  }

  lemma TokenizeIdentifier(w: string, rest: string)
    requires IsIdentifier(w)
    requires rest == [] || !IsIdChar(rest[0])
    ensures Tokenize(w + rest) == [Id(w)] + Tokenize(rest)
  {
    ScanIdentifier(w, rest);
  }

  lemma TokenizeWhitespace(w: string, rest: string)
    requires IsWhitespace(w)
    ensures Tokenize(w + rest) == Tokenize(rest)
    ensures Tokenize(w) == []
  {
    ScanSkipsWhitespace(w, rest);
    ScanSkipsWhitespace(w, "");
    assert w + "" == w;
  }

  lemma TokenizeStringLiteral(body: string, rest: string)
    requires EscapedBody(body)
    ensures Tokenize(['"'] + body + ['"'] + rest) == [LiteralString(body)] + Tokenize(rest)
  {
    ScanStringLiteral(body, rest);
  }

  lemma TokenizeParens()
    ensures Tokenize("()") == [ParensLeft, ParensRight]
  {
    TokenizePunctuationPair('(', ')');
  }

  /** A call with no arguments, `name()`. */
  lemma TokenizeCall(name: string)
    requires IsIdentifier(name)
    ensures Tokenize(name + "()") == [Id(name), ParensLeft, ParensRight]
  {
    assert "()"[0] == '(';
    TokenizeIdentifier(name, "()");
    TokenizeParens();
  }

  lemma TokenizeLiteralLine(body: string, w2: string)
    requires EscapedBody(body) && IsWhitespace(w2)
    ensures Tokenize([' ', '"'] + body + ['"'] + w2) == [LiteralString(body)]
  {
    var lit := ['"'] + body + ['"'] + w2;
    LiteralLineText(body, w2);
    TokenizeWhitespace([' '], lit);
    TokenizeStringLiteral(body, w2);
    TokenizeWhitespace(w2, []);
  }

  lemma LiteralLineText(body: string, w2: string)
    ensures [' ', '"'] + body + ['"'] + w2 == [' '] + (['"'] + body + ['"'] + w2)
  {
  }

  lemma TokenizeOperatorLine(op: char, body: string, w2: string)
    requires Punctuation(op).Some? && EscapedBody(body) && IsWhitespace(w2)
    ensures Tokenize([' ', op, ' ', '"'] + body + ['"'] + w2) == [Punctuation(op).value, LiteralString(body)]
  {
    TokenizeLiteralLine(body, w2);
    TokenizeSpacedPunctuation(op, [' ', '"'] + body + ['"'] + w2, [LiteralString(body)]);
    OperatorText(op, body, w2);
  }

  /** A blank, then a punctuation character, then text tokenizing to `toks`. */
  lemma TokenizeSpacedPunctuation(op: char, tail: string, toks: seq<Token>)
    requires Punctuation(op).Some? && Tokenize(tail) == toks
    ensures Tokenize([' '] + ([op] + tail)) == [Punctuation(op).value] + toks
  {
    TokenizeWhitespace([' '], [op] + tail);
    TokenizePunctuation(op, tail);
  }

  lemma OperatorText(op: char, body: string, w2: string)
    ensures [' ', op, ' ', '"'] + body + ['"'] + w2 == [' '] + ([op] + ([' ', '"'] + body + ['"'] + w2))
  {
  }

  /** `name <op> "body"`, with no blank space before the name. */
  lemma TokenizeNamedLine(name: string, op: char, body: string, w2: string)
    requires IsWhitespace(w2)
    requires IsIdentifier(name) && Punctuation(op).Some? && EscapedBody(body)
    ensures Tokenize(name + ([' ', op, ' ', '"'] + body + ['"'] + w2))
         == [Id(name), Punctuation(op).value, LiteralString(body)]
  {
    var tail := [' ', op, ' ', '"'] + body + ['"'] + w2;
    assert Tokenize(name + tail) == [Id(name)] + Tokenize(tail) by {
      assert tail[0] == ' ';
      TokenizeIdentifier(name, tail);
    }
    TokenizeOperatorLine(op, body, w2);
  }

  /** `name <op> "body"` between blank space, for a punctuation character
      `op`: the identifier, the operator's token, the literal, and nothing
      else. */
  lemma TokenizeBinding(w1: string, name: string, op: char, body: string, w2: string)
    requires IsWhitespace(w1) && IsWhitespace(w2)
    requires IsIdentifier(name) && Punctuation(op).Some? && EscapedBody(body)
    ensures Tokenize(w1 + name + [' ', op, ' ', '"'] + body + ['"'] + w2)
         == [Id(name), Punctuation(op).value, LiteralString(body)]
  {
    var line := name + ([' ', op, ' ', '"'] + body + ['"'] + w2);
    BindingText(w1, name, op, body, w2);
    TokenizeWhitespace(w1, line);
    TokenizeNamedLine(name, op, body, w2);
  }

  lemma BindingText(w1: string, name: string, op: char, body: string, w2: string)
    ensures w1 + name + [' ', op, ' ', '"'] + body + ['"'] + w2
         == w1 + (name + ([' ', op, ' ', '"'] + body + ['"'] + w2))
  {
  }

  /** A float lexeme in front of text that starts with something other than
      a digit. */
  lemma TokenizeFloatThen(f: string, d1: string, d2: string, rest: string, toks: seq<Token>)
    requires IsDigits(d1) && d2 != [] && IsDigits(d2)
    requires rest != [] && !IsDigit(rest[0]) && Tokenize(rest) == toks
    requires f == d1 + ['.'] + d2 + rest
    ensures Tokenize(f) == [Float(d1 + ['.'] + d2)] + toks
  {
    ScanFloat(d1, d2, rest);
    TokenizeStep(f, Float(d1 + ['.'] + d2), rest);
  }

  /** ` = ` in front of text. */
  lemma TokenizeEqualThen(g: string, f: string, toks: seq<Token>)
    requires Tokenize(f) == toks && g == [' ', '=', ' '] + f
    ensures Tokenize(g) == [Equal] + toks
  {
    EqualText(f);
    TokenizeWhitespace([' '], f);
    TokenizeSpacedPunctuation('=', [' '] + f, toks);
  }

  lemma EqualText(f: string)
    ensures [' ', '=', ' '] + f == [' '] + (['='] + ([' '] + f))
  {
  }

  /** An identifier in front of text that does not go on with an identifier
      character. */
  lemma TokenizeIdentifierThen(h: string, name: string, g: string, toks: seq<Token>)
    requires IsIdentifier(name) && g != [] && !IsIdChar(g[0]) && Tokenize(g) == toks
    requires h == name + g
    ensures Tokenize(h) == [Id(name)] + toks
  {
    TokenizeIdentifier(name, g);
  }

  /** `pi = d1.d2` in front of text that starts with a character other than
      a digit. */
  lemma TokenizeFloatDefinition(x: string, line: string, pi: string, d1: string, d2: string,
                                rest: string, toks: seq<Token>)
    requires IsIdentifier(pi) && IsDigits(d1) && d2 != [] && IsDigits(d2)
    requires line == pi + [' ', '=', ' '] + d1 + ['.'] + d2
    requires rest != [] && !IsDigit(rest[0]) && Tokenize(rest) == toks
    requires x == line + rest
    ensures Tokenize(x) == [Id(pi), Equal, Float(d1 + ['.'] + d2)] + toks
  {
    var float := Float(d1 + ['.'] + d2);
    var f := d1 + ['.'] + d2 + rest;
    TokenizeFloatThen(f, d1, d2, rest, toks);
    var g := [' ', '=', ' '] + f;
    TokenizeEqualThen(g, f, [float] + toks);
    assert g[0] == ' ';
    TokenizeIdentifierThen(pi + g, pi, g, [Equal] + ([float] + toks));
    FloatDefinitionText(pi, d1, d2, rest);
    TokensText(Id(pi), Equal, float, toks);
  }

  lemma TokensText(a: Token, b: Token, c: Token, toks: seq<Token>)
    ensures [a] + ([b] + ([c] + toks)) == [a, b, c] + toks
  {
  }

  lemma FloatDefinitionText(pi: string, d1: string, d2: string, rest: string)
    ensures pi + [' ', '=', ' '] + d1 + ['.'] + d2 + rest == pi + ([' ', '=', ' '] + (d1 + ['.'] + d2 + rest))
  {
  }

  /** `name = "body"` and then blank space. */
  lemma TokenizeStringDefinition(x: string, line: string, name: string, body: string, w: string)
    requires IsIdentifier(name) && EscapedBody(body) && IsWhitespace(w)
    requires line == name + [' ', '=', ' ', '"'] + body + ['"']
    requires x == line + w
    ensures Tokenize(x) == [Id(name), Equal, LiteralString(body)]
  {
    TokenizeNamedLine(name, '=', body, w);
    StringDefinitionText(name, body, w);
  }

  lemma StringDefinitionText(name: string, body: string, w: string)
    ensures name + [' ', '=', ' ', '"'] + body + ['"'] + w == name + ([' ', '=', ' ', '"'] + body + ['"'] + w)
  {
  }

  /** Two definitions on lines of their own, `pi = d1.d2` and then
      `name = "body"`: exactly the six tokens, whatever blank space surrounds
      them (at least one blank between the lines). */
  lemma TokenizeConstantDefinition(w1: string, line1: string, w2: string, line2: string, w3: string,
                                   pi: string, d1: string, d2: string, name: string, body: string)
    requires IsWhitespace(w1) && w2 != [] && IsWhitespace(w2) && IsWhitespace(w3)
    requires IsIdentifier(pi) && IsDigits(d1) && d2 != [] && IsDigits(d2)
    requires IsIdentifier(name) && EscapedBody(body)
    requires line1 == pi + [' ', '=', ' '] + d1 + ['.'] + d2
    requires line2 == name + [' ', '=', ' ', '"'] + body + ['"']
    ensures Tokenize(w1 + line1 + w2 + line2 + w3)
         == [Id(pi), Equal, Float(d1 + ['.'] + d2), Id(name), Equal, LiteralString(body)]
  {
    var toks := [Id(name), Equal, LiteralString(body)];
    var x5 := line2 + w3;
    TokenizeStringDefinition(x5, line2, name, body, w3);
    var x4 := w2 + x5;
    TokenizeWhitespace(w2, x5);
    assert x4[0] == w2[0];
    var x3 := line1 + x4;
    TokenizeFloatDefinition(x3, line1, pi, d1, d2, x4, toks);
    TokenizeWhitespace(w1, x3);
    FiveText(w1, line1, w2, line2, w3);
    SixTokens(Id(pi), Equal, Float(d1 + ['.'] + d2), Id(name), Equal, LiteralString(body));
  }

  lemma SixTokens(a: Token, b: Token, c: Token, d: Token, e: Token, f: Token)
    ensures [a, b, c] + [d, e, f] == [a, b, c, d, e, f]
  {
  }

  lemma FiveText(a: string, b: string, c: string, d: string, e: string)
    ensures a + b + c + d + e == a + (b + (c + (d + e)))
  {
  }

  /** The `constant_definition` test, `PI = 3.14` and `Name = "Q"` on lines
      of their own, for any blank space around and between them (the test
      itself surrounds them with newlines and indentation). */
  lemma TokenizeConstantDefinitionTest(w1: string, w2: string, w3: string)
    requires IsWhitespace(w1) && w2 != [] && IsWhitespace(w2) && IsWhitespace(w3)
    ensures Tokenize(w1 + "PI = 3.14" + w2 + "Name = \"Q\"" + w3)
         == [Id("PI"), Equal, Float("3.14"), Id("Name"), Equal, LiteralString("Q")]
  {
    assert IsIdentifier("PI") && IsIdentifier("Name") && IsDigits("3") && IsDigits("14");
    assert EscapedBody("Q") by { assert "Q"[1..] == []; }
    assert "PI = 3.14" == "PI" + [' ', '=', ' '] + "3" + ['.'] + "14";
    assert "Name = \"Q\"" == "Name" + [' ', '=', ' ', '"'] + "Q" + ['"'];
    assert "3" + ['.'] + "14" == "3.14";
    TokenizeConstantDefinition(w1, "PI = 3.14", w2, "Name = \"Q\"", w3, "PI", "3", "14", "Name", "Q");
  }
}
