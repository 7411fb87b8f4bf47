/** The character scanner (src/scanner.ts).

    `ScanTokens` is the source's loop over the index variables `start`,
    `current` and `line`, appending to the token list. `Step` and `ScanFrom`
    say what one iteration and the whole scan produce; `ScanTokens` is proved
    to compute `Scan`. Each token comes with the span of source it was read
    from (`Lexed`), so that the span lemmas can state where lexemes come from.

    Errors are reported through a callback that records them and lets the
    scan continue; here they are collected in a list beside the tokens.

    String literals are reproduced as written: the literal drops the last
    character before the closing quote, and the closing quote is not
    consumed, so it opens a new string (see `StringExample`). */
module Scanner {
  import opened Wrappers
  import opened Syntax
  import opened Strings

  /** The two errors the scanner reports. */
  datatype ScanFailure = UnexpectedCharacter(c: char) | UnterminatedString

  /** An error as the callback receives it: the line and the failure,
      whose text `ScanMessage` gives. */
  datatype ScanError = ScanError(line: int, why: ScanFailure)

  /** A token with the half-open span `[from, to)` of source it was read from. */
  datatype Lexed = Lexed(tok: Token, from: nat, to: nat)

  /** What one iteration of the outer loop does: where `start` moves to, the
      new line count, and the token and error it adds, if any. */
  datatype StepOut = StepOut(next: nat, line: int, lexed: Option<Lexed>, error: Option<ScanError>)

  datatype ScanOut = ScanOut(lexed: seq<Lexed>, errors: seq<ScanError>)

  /** `charTokenMap`. */
  function CharToken(c: char): Option<TokenType>
  {
    match c
    case '(' => Some(LParen)
    case ')' => Some(RParen)
    case '+' => Some(Plus)
    case '-' => Some(Minus)
    case '*' => Some(Star)
    case '/' => Some(Slash)
    case '=' => Some(Eq)
    case '>' => Some(Gt)
    case '<' => Some(Lt)
    case _ => None
  }

  /** `keywordMap`'s own keys. `let` is not among them. */
  function Keyword(w: string): Option<TokenType>
  {
    if w == "if" then Some(If)
    else if w == "true" then Some(True)
    else if w == "false" then Some(False)
    else if w == "fn" then Some(Fn)
    else if w == "nil" then Some(Nil)
    else if w == "print" then Some(Print)
    else None
  }

  /** Names JavaScript's `in` also finds on a plain object, through
      `Object.prototype`. All of them are made of identifier characters. */
  predicate IsPrototypeMember(w: string)
  {
    w in {"constructor", "hasOwnProperty", "isPrototypeOf", "propertyIsEnumerable",
          "toLocaleString", "toString", "valueOf", "__proto__", "__defineGetter__",
          "__defineSetter__", "__lookupGetter__", "__lookupSetter__"}
  }

  /** The token type of an identifier-class run: a keyword, a value found on
      `Object.prototype` (not a token type at all), or IDENTIFIER. */
  function WordKind(w: string): TokenType
  {
    if Keyword(w).Some? then Keyword(w).value
    else if IsPrototypeMember(w) then NotAType
    else Identifier
  }

  /** The class `[0-9.]`. */
  predicate IsNumberChar(c: char) { IsDigit(c) || c == '.' }

  /** The class `[A-z-_!?]`: every code point from `A` to `z` (which includes
      `[`, `\`, `]`, `^`, `_` and the backquote), and `-`, `_`, `!`, `?`. */
  predicate IsIdentChar(c: char) { ('A' <= c <= 'z') || c == '-' || c == '_' || c == '!' || c == '?' }

  datatype CharClass = NumberChars | IdentChars | StringBody

  predicate InClass(c: char, cls: CharClass)
  {
    match cls
    case NumberChars => IsNumberChar(c)
    case IdentChars => IsIdentChar(c)
    case StringBody => c != '"'
  }

  /** The end of the run of characters of class `cls` that begins at `j`. */
  function RunEnd(s: string, j: nat, cls: CharClass): (e: nat)
    requires j <= |s|
    decreases |s| - j
    ensures j <= e <= |s|
    ensures forall k :: j <= k < e ==> InClass(s[k], cls)
    ensures e == |s| || !InClass(s[e], cls)
  {
    if j == |s| || !InClass(s[j], cls) then j else RunEnd(s, j + 1, cls)
  }

  /** Number of newlines in `s[a..b]`. */
  function NewlinesIn(s: string, a: nat, b: nat): nat
    requires a <= b <= |s|
    decreases b - a
  {
    if a == b then 0 else NewlinesIn(s, a, b - 1) + (if s[b - 1] == '\n' then 1 else 0)
  }

  /** JavaScript's `s.substring(a, b)`: both ends clamped to `[0, |s|]`, and
      swapped when the first is the larger. */
  function JsSubstring(s: string, a: int, b: int): (r: string)
  {
    var x := if a < 0 then 0 else if a > |s| then |s| else a;
    var y := if b < 0 then 0 else if b > |s| then |s| else b;
    if x <= y then s[x..y] else s[y..x]
  }

  /** `Number(lexeme)` for a run of `[0-9.]`. A run of digits is an integer;
      a run holding `.` is a double (or NaN), kept as its text. */
  function NumberLiteral(lexeme: string): Literal
  {
    if AllDigits(lexeme) then NumLit(DecimalValue(lexeme)) else Decimal(lexeme)
  }

  /** The text of a scan error: the character and its code, or the
      unterminated string. */
  function ScanMessage(f: ScanFailure): string
  {
    match f
    case UnexpectedCharacter(c) => "Unexpected character " + [c] + " (code " + NatToString(c as int) + ")."
    case UnterminatedString => "Unterminated string."
  }

  /** One iteration of the outer loop, starting at `start`. */
  function Step(s: string, start: nat, line: int): (r: StepOut)
    requires start < |s|
    ensures start < r.next <= |s| && r.line >= line
  {
    var c := s[start];
    if CharToken(c).Some? then
      StepOut(start + 1, line, Some(Lexed(Token(CharToken(c).value, s[start..start + 1], NoLiteral, line), start, start + 1)), None)
    else if c == '"' then
      var j := RunEnd(s, start + 1, StringBody);
      var l := line + NewlinesIn(s, start + 1, j);
      var tok := Token(String, s[start..j], StrLit(JsSubstring(s, start + 1, j - 1)), l);
      StepOut(j, l, Some(Lexed(tok, start, j)), if j == |s| then Some(ScanError(l, UnterminatedString)) else None)
    else if c == ' ' || c == '\r' || c == '\t' then
      StepOut(start + 1, line, None, None)
    else if c == '\n' then
      StepOut(start + 1, line + 1, None, None)
    else if IsNumberChar(c) then
      var j := RunEnd(s, start + 1, NumberChars);
      StepOut(j, line, Some(Lexed(Token(Number, s[start..j], NumberLiteral(s[start..j]), line), start, j)), None)
    else if IsIdentChar(c) then
      var j := RunEnd(s, start + 1, IdentChars);
      StepOut(j, line, Some(Lexed(Token(WordKind(s[start..j]), s[start..j], NoLiteral, line), start, j)), None)
    else
      StepOut(start + 1, line, None, Some(ScanError(line, UnexpectedCharacter(c))))
  }

  function OptionToSeq<T>(o: Option<T>): seq<T>
  {
    if o.Some? then [o.value] else []
  }

  /** The scan of `s` from `start` on, with `line` newlines already seen. */
  function ScanFrom(s: string, start: nat, line: int): ScanOut
    requires start <= |s|
    decreases |s| - start
  {
    if start == |s| then ScanOut([], [])
    else
      var o := Step(s, start, line);
      var rest := ScanFrom(s, o.next, o.line);
      ScanOut(OptionToSeq(o.lexed) + rest.lexed, OptionToSeq(o.error) + rest.errors)
  }

  function Scan(s: string): ScanOut
  {
    ScanFrom(s, 0, 0)
  }

  function TokensOf(l: seq<Lexed>): (r: seq<Token>)
  {
    seq(|l|, i requires 0 <= i < |l| => l[i].tok)
  }

  /** A character of `charTokenMap` is one token of the mapped type whose
      lexeme is that character. */
  lemma CharTokenStep(s: string, start: nat, line: int)
    requires start < |s| && CharToken(s[start]).Some?
    ensures var o := Step(s, start, line);
      o.next == start + 1 && o.line == line && o.error.None?
      && o.lexed == Some(Lexed(Token(CharToken(s[start]).value, [s[start]], NoLiteral, line), start, start + 1))
  {
    assert s[start..start + 1] == [s[start]];
  }

  /** Blanks produce nothing; a newline produces nothing and counts a line. */
  lemma WhitespaceStep(s: string, start: nat, line: int)
    requires start < |s| && s[start] in {' ', '\r', '\t', '\n'}
    ensures var o := Step(s, start, line);
      o.next == start + 1 && o.lexed.None? && o.error.None?
      && o.line == (if s[start] == '\n' then line + 1 else line)
  {
  }

  /** A number token spans the longest run of `[0-9.]` from where it starts,
      and a run of plain digits is read as its decimal value. */
  lemma NumberStep(s: string, start: nat, line: int)
    requires start < |s| && IsNumberChar(s[start])
    ensures var o := Step(s, start, line);
      o.lexed.Some? && o.error.None? && o.line == line && o.lexed.value.to == o.next
      && o.lexed.value.tok.kind == Number
      && (forall k :: start <= k < o.next ==> IsNumberChar(s[k]))
      && (o.next == |s| || !IsNumberChar(s[o.next]))
      && (AllDigits(s[start..o.next]) ==> o.lexed.value.tok.literal == NumLit(DecimalValue(s[start..o.next])))
  {
  }

  /** Printing a natural and scanning the digits back gives the natural. */
  lemma NumberLiteralRoundTrip(n: nat)
    ensures NumberLiteral(NatToString(n)) == NumLit(n)
  {
    DecimalRoundTrip(n);
  }

  /** An identifier-class run is as long as possible, and is a keyword token
      exactly when it is one of `keywordMap`'s words; `let` is an
      IDENTIFIER. */
  lemma WordStep(s: string, start: nat, line: int)
    requires start < |s| && IsIdentChar(s[start]) && CharToken(s[start]).None?
    ensures var o := Step(s, start, line);
      var w := s[start..o.next];
      o.lexed.Some? && o.error.None? && o.line == line && o.lexed.value.tok.lexeme == w
      && (forall k :: start <= k < o.next ==> IsIdentChar(s[k]))
      && (o.next == |s| || !IsIdentChar(s[o.next]))
      && (Keyword(w).Some? ==> o.lexed.value.tok.kind == Keyword(w).value)
      && (Keyword(w).None? && !IsPrototypeMember(w) ==> o.lexed.value.tok.kind == Identifier)
  {
  }

  /** A character of no class is reported with its line and code, and the
      scan goes on with the next character. */
  lemma UnexpectedStep(s: string, start: nat, line: int)
    requires start < |s|
    requires var c := s[start];
      CharToken(c).None? && c !in {'"', ' ', '\r', '\t', '\n'} && !IsNumberChar(c) && !IsIdentChar(c)
    ensures var o := Step(s, start, line);
      o.next == start + 1 && o.line == line && o.lexed.None?
      && o.error == Some(ScanError(line, UnexpectedCharacter(s[start])))
  {
  }

  /** A string token runs from the opening quote up to, not including, the
      next quote (or the end of the source, which is an error). Scanning
      resumes AT that quote, and the line of the token counts the newlines
      inside the string. */
  lemma StringStep(s: string, start: nat, line: int)
    requires start < |s| && s[start] == '"'
    ensures var o := Step(s, start, line);
      o.lexed.Some? && o.lexed.value.to == o.next && o.lexed.value.tok.kind == String
      && (forall k :: start < k < o.next ==> s[k] != '"')
      && (o.next < |s| ==> s[o.next] == '"')
      && (o.error.Some? <==> o.next == |s|)
      && o.line == line + NewlinesIn(s, start + 1, o.next)
  {
  }

  /** The literal of a string token: the text between the quotes without
      its last character, and for `""` the quote itself. */
  lemma StringLiteralShape(s: string, start: nat, line: int)
    requires start < |s| && s[start] == '"'
    ensures var o := Step(s, start, line);
      o.lexed.Some? &&
      (if o.next == start + 1 then o.lexed.value.tok.literal == StrLit("\"")
       else o.lexed.value.tok.literal == StrLit(s[start + 1..o.next - 1]))
  {
    var o := Step(s, start, line);
    if o.next == start + 1 {
      assert s[start..start + 1] == "\"";
    }
  }

  /** What one step of the scan says of the token it adds. */
  lemma StepSpan(s: string, start: nat, line: int)
    requires start < |s|
    ensures var o := Step(s, start, line);
      o.lexed.Some? ==>
        o.lexed.value.from == start < o.lexed.value.to <= o.next
        && o.lexed.value.tok.lexeme == s[start..o.lexed.value.to]
        && o.lexed.value.tok.line == o.line
  {
  }

  /** Lexemes are the source over their spans; spans lie in `[start, |s|)`,
      are non-empty and come out in increasing, non-overlapping order; line
      numbers never decrease. */
  ghost predicate SpansOk(s: string, l: seq<Lexed>, start: nat, line: int)
  {
    (forall i :: 0 <= i < |l| ==>
      start <= l[i].from < l[i].to <= |s| && l[i].tok.lexeme == s[l[i].from..l[i].to] && l[i].tok.line >= line)
    && (forall i, j :: 0 <= i < j < |l| ==> l[i].to <= l[j].from && l[i].tok.line <= l[j].tok.line)
  }

  lemma {:induction false} ScanFromSpans(s: string, start: nat, line: int)
    requires start <= |s|
    ensures SpansOk(s, ScanFrom(s, start, line).lexed, start, line)
    decreases |s| - start
  {
    if start < |s| {
      var o := Step(s, start, line);
      StepSpan(s, start, line);
      ScanFromSpans(s, o.next, o.line);
      var rest := ScanFrom(s, o.next, o.line).lexed;
      if o.lexed.Some? {
        var l := [o.lexed.value] + rest;
        assert ScanFrom(s, start, line).lexed == l;
        forall i, j | 0 <= i < j < |l|
          ensures l[i].to <= l[j].from && l[i].tok.line <= l[j].tok.line
        {
          if i > 0 { assert l[i] == rest[i - 1]; }
          assert l[j] == rest[j - 1];
        }
        forall i | 0 <= i < |l|
          ensures start <= l[i].from < l[i].to <= |s| && l[i].tok.lexeme == s[l[i].from..l[i].to] && l[i].tok.line >= line
        {
          if i > 0 { assert l[i] == rest[i - 1]; }
        }
      } else {
        assert ScanFrom(s, start, line).lexed == rest;
      }
    }
  }

  /** The spans of a whole scan. */
  lemma ScanSpans(s: string)
    ensures SpansOk(s, Scan(s).lexed, 0, 0)
  {
    ScanFromSpans(s, 0, 0);
  }

  /** `"ab"` scans as the string with literal `a`, then an unterminated
      string opened by the closing quote, whose literal is the quote. */
  lemma StringExample()
    ensures TokensOf(Scan("\"ab\"").lexed) ==
      [Token(String, "\"ab", StrLit("a"), 0), Token(String, "\"", StrLit("\""), 0)]
    ensures Scan("\"ab\"").errors == [ScanError(0, UnterminatedString)]
  {
    var s := "\"ab\"";
    var e := ScanError(0, UnterminatedString);
    var t3 := Lexed(Token(String, "\"", StrLit("\""), 0), 3, 4);
    assert RunEnd(s, 4, StringBody) == 4;
    assert NewlinesIn(s, 4, 4) == 0;
    assert s[3..4] == "\"";
    assert Step(s, 3, 0) == StepOut(4, 0, Some(t3), Some(e));
    assert ScanFrom(s, 3, 0) == ScanOut([t3], [e]);
    var t0 := Lexed(Token(String, "\"ab", StrLit("a"), 0), 0, 3);
    assert RunEnd(s, 1, StringBody) == 3;
    assert NewlinesIn(s, 1, 3) == 0;
    assert s[0..3] == "\"ab" && s[1..2] == "a";
    assert Step(s, 0, 0) == StepOut(3, 0, Some(t0), None);
    assert ScanFrom(s, 0, 0) == ScanOut([t0, t3], [e]);
  }

  /** The inner loops of the number and identifier cases: advance `current`
      while the next character belongs to the class. */
  method SkipRun(source: string, from: nat, cls: CharClass) returns (current: nat)
    requires from <= |source|
    ensures current == RunEnd(source, from, cls)
  {
    current := from;
    while current < |source| && InClass(source[current], cls)
      invariant from <= current <= |source|
      invariant RunEnd(source, current, cls) == RunEnd(source, from, cls)
      decreases |source| - current
    {
      current := current + 1;
    }
  }

  /** The inner loop of the string case: advance to the next `"` or the end
      of the source, counting the newlines passed. */
  method SkipString(source: string, from: nat, line0: int) returns (current: nat, line: int)
    requires from <= |source|
    ensures current == RunEnd(source, from, StringBody)
    ensures line == line0 + NewlinesIn(source, from, current)
  {
    current, line := from, line0;
    while current < |source| && source[current] != '"'
      invariant from <= current <= |source|
      invariant RunEnd(source, current, StringBody) == RunEnd(source, from, StringBody)
      invariant line == line0 + NewlinesIn(source, from, current)
      decreases |source| - current
    {
      if source[current] == '\n' {
        line := line + 1;
      }
      current := current + 1;
    }
  }

  /** The body of the outer loop: scan the lexeme that begins at `start`. */
  method ScanLexeme(source: string, start: nat, line0: int)
    returns (current: nat, line: int, t: Option<Token>, err: Option<ScanError>)
    requires start < |source|
    ensures var o := Step(source, start, line0);
      current == o.next && line == o.line && err == o.error
      && (if t.Some? then o.lexed == Some(Lexed(t.value, start, current)) else o.lexed.None?)
    ensures start < current <= |source|
  {
    current, line, t, err := start, line0, None, None;
    var c := source[current];
    current := current + 1;
    if CharToken(c).Some? {
      t := Some(Token(CharToken(c).value, source[start..current], NoLiteral, line));
    } else if c == '"' {
      current, line := SkipString(source, current, line);
      if current == |source| {
        err := Some(ScanError(line, UnterminatedString));
      }
      t := Some(Token(String, source[start..current], StrLit(JsSubstring(source, start + 1, current - 1)), line));
    } else if c == ' ' || c == '\r' || c == '\t' {
    } else if c == '\n' {
      line := line + 1;
    } else if IsNumberChar(c) {
      current := SkipRun(source, current, NumberChars);
      t := Some(Token(Number, source[start..current], NumberLiteral(source[start..current]), line));
    } else if IsIdentChar(c) {
      current := SkipRun(source, current, IdentChars);
      var word := source[start..current];
      t := Some(Token(WordKind(word), word, NoLiteral, line));
    } else {
      err := Some(ScanError(line, UnexpectedCharacter(c)));
    }
  }

  /** The token of one iteration, with its span, as a list of zero or one. */
  function LexedOf(t: Option<Token>, from: nat, to: nat): seq<Lexed>
  {
    if t.Some? then [Lexed(t.value, from, to)] else []
  }

  /** The scan as the loop accumulates it: `acc` is what was produced
      before reaching `start`. */
  function ScanLoop(s: string, start: nat, line: int, acc: ScanOut): ScanOut
    requires start <= |s|
    decreases |s| - start
  {
    if start == |s| then acc
    else
      var o := Step(s, start, line);
      ScanLoop(s, o.next, o.line, ScanOut(acc.lexed + OptionToSeq(o.lexed), acc.errors + OptionToSeq(o.error)))
  }

  /** The accumulated scan is the recursive scan appended to the
      accumulator. */
  lemma {:induction false} ScanLoopFrom(s: string, start: nat, line: int, acc: ScanOut)
    requires start <= |s|
    ensures ScanLoop(s, start, line, acc) == ScanOut(acc.lexed + ScanFrom(s, start, line).lexed, acc.errors + ScanFrom(s, start, line).errors)
    decreases |s| - start
  {
    if start == |s| {
      assert acc.lexed + [] == acc.lexed && acc.errors + [] == acc.errors;
    } else {
      var o := Step(s, start, line);
      var acc' := ScanOut(acc.lexed + OptionToSeq(o.lexed), acc.errors + OptionToSeq(o.error));
      ScanLoopFrom(s, o.next, o.line, acc');
      var rest := ScanFrom(s, o.next, o.line);
      assert acc'.lexed + rest.lexed == acc.lexed + (OptionToSeq(o.lexed) + rest.lexed);
      assert acc'.errors + rest.errors == acc.errors + (OptionToSeq(o.error) + rest.errors);
    }
  }

  /** `scanTokens`. */
  method ScanTokens(source: string) returns (tokens: seq<Token>, errors: seq<ScanError>)
    ensures tokens == TokensOf(Scan(source).lexed) && errors == Scan(source).errors
  {
    var start, line := 0, 0;
    tokens, errors := [], [];
    ghost var lexed: seq<Lexed> := [];
    ghost var whole := ScanLoop(source, 0, 0, ScanOut([], []));
    while start < |source|
      invariant start <= |source|
      invariant tokens == TokensOf(lexed)
      invariant ScanLoop(source, start, line, ScanOut(lexed, errors)) == whole
      decreases |source| - start
    {
      var current, line', t, err := ScanLexeme(source, start, line);
      ghost var o := Step(source, start, line);
      ghost var acc := ScanOut(lexed + OptionToSeq(o.lexed), errors + OptionToSeq(o.error));
      assert ScanLoop(source, start, line, ScanOut(lexed, errors)) == ScanLoop(source, current, line', acc);
      assert OptionToSeq(o.lexed) == LexedOf(t, start, current);
      if err.Some? {
        assert OptionToSeq(o.error) == [err.value];
        errors := errors + [err.value];
      } else {
        assert errors + OptionToSeq(o.error) == errors;
      }
      if t.Some? {
        assert TokensOf(lexed + [Lexed(t.value, start, current)]) == TokensOf(lexed) + [t.value];
        tokens := tokens + [t.value];
      }
      lexed := lexed + LexedOf(t, start, current);
      start, line := current, line';
    }
    ScanLoopFrom(source, 0, 0, ScanOut([], []));
  }
}
