/** The recursive-descent parser over a token list (src/parser.ts).

    Every parse function takes the remaining tokens and returns the parsed
    expression with the tokens after it (`{expr, rest}`), or throws. The
    functions here are the source's functions over values; the two loops of
    `parse_list` and `parse_bindings` are also written as methods
    (`ParseListLoop`, `ParseBindingsLoop`) and proved to compute the same.

    Reading through a missing token (`rest[0].type` on an empty list) is a
    TypeError. `parse_loop` and `parse_fn` are stubs that return
    `undefined`; a caller that destructures the result then fails with a
    TypeError, which is how the model reports them. */
module Parser {
  import opened Wrappers
  import opened Syntax

  /** The value of a `LiteralExpr`: a token's `literal`, a boolean, or null. */
  datatype Value = TokenLiteral(lit: Literal) | BoolValue(b: bool) | NullValue

  datatype Binding = Binding(key: Token, value: Expr)

  datatype Expr =
    | LiteralExpr(value: Value)
    | NameExpr(name: string)
    | ListExpr(children: seq<Expr>)
    | IfExpr(cond: Expr, trueChild: Expr, falseChild: Expr)
    | LetExpr(bindings: seq<Binding>, body: Expr)

  /** `{expr, rest}`. */
  datatype Parsed = Parsed(expr: Expr, rest: seq<Token>)

  /** The loop state of `parse_list` / `parse_bindings` on leaving the loop:
      what was collected, and the tokens from the closing bracket on. */
  datatype Items<T> = Items(items: seq<T>, rest: seq<Token>)

  /** The loop's result when `prefix` was collected before reaching the
      state whose remaining loop gives `r`. */
  function Prepend<T>(prefix: seq<T>, r: Result<Items<T>>): Result<Items<T>>
  {
    if r.Err? then r else Ok(Items(prefix + r.value.items, r.value.rest))
  }

  lemma PrependNothing<T>(r: Result<Items<T>>)
    ensures Prepend([], r) == r
  {
    if r.Ok? { assert [] + r.value.items == r.value.items; }
  }

  /** `rest` is what is left of `tokens` after at least one token was read. */
  predicate ProperSuffix(rest: seq<Token>, tokens: seq<Token>)
  {
    |rest| < |tokens| && rest == tokens[|tokens| - |rest|..]
  }

  /** `rest` is a suffix of `tokens`, possibly all of it. */
  predicate Suffix(rest: seq<Token>, tokens: seq<Token>)
  {
    |rest| <= |tokens| && rest == tokens[|tokens| - |rest|..]
  }

  lemma SuffixTrans(a: seq<Token>, b: seq<Token>, c: seq<Token>)
    requires Suffix(a, b) && Suffix(b, c)
    ensures Suffix(a, c)
  {
    assert c[|c| - |b|..][|b| - |a|..] == c[|c| - |a|..];
  }

  /** Reading `.type` of the token past the end of the list. */
  const MissingToken := TypeError(ReadOfUndefined("type"))

  /** The text of each parse error, as the source throws it. */
  function Message(f: ParseFailure): string
  {
    match f
    case EndOfInput => "Expected expr, reached end of input"
    case DanglingParen => "Dangling L_PAREN, reached end of input"
    case UnclosedList => "Expected R_PAREN at end of list, reached end of input"
    case UnterminatedBindings => "Unterminated bindings, reached end of input"
    case UnclosedBindings => "Expected R_SQUARE at end of bindings, reached end of input"
    case UnterminatedIf(input) => GotInput("Unterminated if expression", input)
    case IfMissingChildren =>
      "Unterminated if expression, only parsed condition before end of input (missing true/false children)"
    case IfMissingElse =>
      "Unterminated if expression, only parsed condition and true child before end of input (missing false child)"
    case IfMissingParen => "Unterminated if expression, missing R_PAREN before end of input"
    case UnterminatedLet(input) => GotInput("Unterminated let expression", input)
    case LetMissingBody => "Unterminated let expression, only parsed bindings before end of input (missing body)"
    case LetMissingParen => "Unterminated let expression, missing R_PAREN before end of input"
    case Unexpected(expected, token) => Got(Expected(expected), token)
  }

  function Expected(e: Expectation): string
  {
    match e
    case ExpectLiteral => "Expected literal"
    case ExpectExprStart => "Expected expression of LITERAL, IDENTIFIER or starting with L_PAREN"
    case ExpectIfClose => "Expected R_PAREN at end of if expression"
    case ExpectLetBindings => "Expected L_SQUARE for bindings in let expression"
    case ExpectLetClose => "Expected R_PAREN at end of let expression"
  }

  /** A message that names the offending token: `<what>, got <type> (<lexeme>)`. */
  function Got(what: string, token: Token): string
  {
    what + ", got " + TypeName(token.kind) + " (" + token.lexeme + ")"
  }

  /** A message that quotes the whole input: `<what>, got "<lexemes>" before end of input`. */
  function GotInput(what: string, tokens: seq<Token>): string
  {
    what + ", got \"" + JoinLexemes(tokens) + "\" before end of input"
  }

  function JoinLexemes(tokens: seq<Token>): string
  {
    if tokens == [] then ""
    else if |tokens| == 1 then tokens[0].lexeme
    else tokens[0].lexeme + " " + JoinLexemes(tokens[1..])
  }

  predicate IsLiteralKind(k: TokenType)
  {
    k == String || k == Number || k == True || k == False || k == Nil
  }

  /** `parse_literal`. */
  function ParseLiteral(tokens: seq<Token>): (r: Result<Parsed>)
  {
    if tokens == [] then Err(MissingToken)
    else
      var token := tokens[0];
      if token.kind == String || token.kind == Number then Ok(Parsed(LiteralExpr(TokenLiteral(token.literal)), tokens[1..]))
      else if token.kind == True then Ok(Parsed(LiteralExpr(BoolValue(true)), tokens[1..]))
      else if token.kind == False then Ok(Parsed(LiteralExpr(BoolValue(false)), tokens[1..]))
      else if token.kind == Nil then Ok(Parsed(LiteralExpr(NullValue), tokens[1..]))
      else Err(ParseError(Unexpected(ExpectLiteral, token)))
  }

  /** `parse_name`. */
  function ParseName(tokens: seq<Token>): (r: Result<Parsed>)
  {
    if tokens == [] then Err(MissingToken)
    else Ok(Parsed(NameExpr(tokens[0].lexeme), tokens[1..]))
  }

  /** `parse_expr`. */
  function ParseExpr(tokens: seq<Token>): (r: Result<Parsed>)
    decreases |tokens|, 2
    ensures r.Ok? ==> |r.value.rest| < |tokens|
  {
    if tokens == [] then Err(ParseError(EndOfInput))
    else
      var head := tokens[0];
      if IsLiteralKind(head.kind) then ParseLiteral(tokens)
      else if head.kind == Identifier then ParseName(tokens)
      else if head.kind == LParen then ParseParen(tokens)
      else
        Err(ParseError(Unexpected(ExpectExprStart, head)))
  }

  /** The `(` branch of `parse_expr`: the token after `(` decides. */
  function ParseParen(tokens: seq<Token>): (r: Result<Parsed>)
    decreases |tokens|, 1
    ensures r.Ok? ==> |r.value.rest| < |tokens|
  {
    if |tokens| < 2 then Err(ParseError(DanglingParen))
    else
      var lookahead := tokens[1].kind;
      if lookahead == If then ParseIf(tokens)
      else if lookahead == Let then ParseLet(tokens)
      else if lookahead == Loop then Err(TypeError(DestructureUndefined("parse_loop")))
      else if lookahead == Fn then Err(TypeError(DestructureUndefined("parse_fn")))
      else ParseList(tokens)
  }

  /** The loop of `parse_list`, from `rest` on: children up to the first
      R_PAREN at their level, which is left in `rest`. */
  function ListItems(rest: seq<Token>): (r: Result<Items<Expr>>)
    decreases |rest|, 3
    ensures r.Ok? ==> |r.value.rest| <= |rest| && r.value.rest != [] && r.value.rest[0].kind == RParen
  {
    if rest == [] then Err(MissingToken)
    else if rest[0].kind == RParen then Ok(Items([], rest))
    else
      var p :- ParseExpr(rest);
      if p.rest == [] then Err(ParseError(UnclosedList))
      else
        var more :- ListItems(p.rest);
        Ok(Items([p.expr] + more.items, more.rest))
  }

  /** `parse_list`: skip `(`, collect children, consume `)`. */
  function ParseList(tokens: seq<Token>): (r: Result<Parsed>)
    decreases |tokens|, 0
    ensures r.Ok? ==> |r.value.rest| < |tokens|
  {
    if tokens == [] then Err(MissingToken)
    else
    var items :- ListItems(tokens[1..]);
    Ok(Parsed(ListExpr(items.items), items.rest[1..]))
  }

  /** The loop of `parse_bindings`, from `rest` on: key token and value
      expression pairs up to an R_SQUARE, which is left in `rest`. The key
      may be a token of any type. */
  function BindingItems(rest: seq<Token>): (r: Result<Items<Binding>>)
    decreases |rest|, 3
    ensures r.Ok? ==> |r.value.rest| <= |rest| && r.value.rest != [] && r.value.rest[0].kind == RSquare
  {
    if rest == [] then Err(MissingToken)
    else if rest[0].kind == RSquare then Ok(Items([], rest))
    else if |rest| == 1 then Err(ParseError(UnterminatedBindings))
    else
      var p :- ParseExpr(rest[1..]);
      if p.rest == [] then Err(ParseError(UnclosedBindings))
      else
        var more :- BindingItems(p.rest);
        Ok(Items([Binding(rest[0], p.expr)] + more.items, more.rest))
  }

  /** `parse_bindings`: skip `[`, collect bindings, consume `]`. */
  function ParseBindings(tokens: seq<Token>): (r: Result<Items<Binding>>)
    decreases |tokens|, 0
    ensures r.Ok? ==> |r.value.rest| < |tokens|
  {
    if tokens == [] then Err(MissingToken)
    else
    var items :- BindingItems(tokens[1..]);
    Ok(Items(items.items, items.rest[1..]))
  }

  /** `parse_if`: `(`, `if`, condition, true child, false child, `)`. */
  function ParseIf(tokens: seq<Token>): (r: Result<Parsed>)
    decreases |tokens|, 0
    ensures r.Ok? ==> |r.value.rest| < |tokens|
  {
    if |tokens| < 3 then
      Err(ParseError(UnterminatedIf(tokens)))
    else
      var c :- ParseExpr(tokens[2..]);
      if c.rest == [] then
        Err(ParseError(IfMissingChildren))
      else
        var t :- ParseExpr(c.rest);
        if t.rest == [] then
          Err(ParseError(IfMissingElse))
        else
          var f :- ParseExpr(t.rest);
          if f.rest == [] then Err(ParseError(IfMissingParen))
          else if f.rest[0].kind != RParen then
            Err(ParseError(Unexpected(ExpectIfClose, f.rest[0])))
          else
            Ok(Parsed(IfExpr(c.expr, t.expr, f.expr), f.rest[1..]))
  }

  /** `parse_let`: `(`, `let`, bindings, body, `)`. */
  function ParseLet(tokens: seq<Token>): (r: Result<Parsed>)
    decreases |tokens|, 0
    ensures r.Ok? ==> |r.value.rest| < |tokens|
  {
    if |tokens| < 3 then
      Err(ParseError(UnterminatedLet(tokens)))
    else if tokens[2].kind != LSquare then
      Err(ParseError(Unexpected(ExpectLetBindings, tokens[2])))
    else
      var b :- ParseBindings(tokens[2..]);
      if b.rest == [] then
        Err(ParseError(LetMissingBody))
      else
        var body :- ParseExpr(b.rest);
        if body.rest == [] then Err(ParseError(LetMissingParen))
        else if body.rest[0].kind != RParen then
          Err(ParseError(Unexpected(ExpectLetClose, body.rest[0])))
        else
          Ok(Parsed(LetExpr(b.items, body.expr), body.rest[1..]))
  }

  lemma PrependPrepend<T>(a: seq<T>, b: seq<T>, r: Result<Items<T>>)
    ensures Prepend(a, Prepend(b, r)) == Prepend(a + b, r)
  {
    if r.Ok? { assert a + (b + r.value.items) == (a + b) + r.value.items; }
  }

  /** One turn of the loop of `parse_list`, at the function level. */
  lemma ListItemsStep(rest: seq<Token>)
    requires rest != [] && rest[0].kind != RParen
    requires ParseExpr(rest).Ok? && ParseExpr(rest).value.rest != []
    ensures ListItems(rest) == Prepend([ParseExpr(rest).value.expr], ListItems(ParseExpr(rest).value.rest))
  {
  }

  /** One turn of the loop of `parse_bindings`, at the function level. */
  lemma BindingItemsStep(rest: seq<Token>)
    requires |rest| > 1 && rest[0].kind != RSquare
    requires ParseExpr(rest[1..]).Ok? && ParseExpr(rest[1..]).value.rest != []
    ensures BindingItems(rest) ==
      Prepend([Binding(rest[0], ParseExpr(rest[1..]).value.expr)], BindingItems(ParseExpr(rest[1..]).value.rest))
  {
  }

  /** The loop of `parse_list` as the source writes it: `rest` is
      reassigned and `children` grows until `rest` starts with R_PAREN. */
  method ParseListLoop(tokens: seq<Token>) returns (r: Result<Parsed>)
    ensures r == ParseList(tokens)
  {
    var rest := if tokens == [] then [] else tokens[1..];
    var children: seq<Expr> := [];
    PrependNothing(ListItems(rest));
    while rest == [] || rest[0].kind != RParen
      invariant tokens != [] ==> ListItems(tokens[1..]) == Prepend(children, ListItems(rest))
      invariant tokens == [] ==> rest == []
      decreases |rest|
    {
      if rest == [] {
        return Err(MissingToken);
      }
      var p := ParseExpr(rest);
      if p.Err? {
        return Err(p.fault);
      }
      ghost var before := children;
      children := children + [p.value.expr];
      if p.value.rest == [] {
        return Err(ParseError(UnclosedList));
      }
      ListItemsStep(rest);
      PrependPrepend(before, [p.value.expr], ListItems(p.value.rest));
      rest := p.value.rest;
    }
    assert ListItems(rest) == Ok(Items([], rest));
    assert children + [] == children;
    return Ok(Parsed(ListExpr(children), rest[1..]));
  }

  /** The loop of `parse_bindings` as the source writes it. */
  method ParseBindingsLoop(tokens: seq<Token>) returns (r: Result<Items<Binding>>)
    ensures r == ParseBindings(tokens)
  {
    var rest := if tokens == [] then [] else tokens[1..];
    var bindings: seq<Binding> := [];
    PrependNothing(BindingItems(rest));
    while rest == [] || rest[0].kind != RSquare
      invariant tokens != [] ==> BindingItems(tokens[1..]) == Prepend(bindings, BindingItems(rest))
      invariant tokens == [] ==> rest == []
      decreases |rest|
    {
      if rest == [] {
        return Err(MissingToken);
      }
      var name := rest[0];
      if |rest| == 1 {
        return Err(ParseError(UnterminatedBindings));
      }
      var p := ParseExpr(rest[1..]);
      if p.Err? {
        return Err(p.fault);
      }
      ghost var before := bindings;
      bindings := bindings + [Binding(name, p.value.expr)];
      if p.value.rest == [] {
        return Err(ParseError(UnclosedBindings));
      }
      BindingItemsStep(rest);
      PrependPrepend(before, [Binding(name, p.value.expr)], BindingItems(p.value.rest));
      rest := p.value.rest;
    }
    assert BindingItems(rest) == Ok(Items([], rest));
    assert bindings + [] == bindings;
    return Ok(Items(bindings, rest[1..]));
  }

  /* ---------------------------------------------------------------------
     Properties of the parser.
     --------------------------------------------------------------------- */

  lemma DropSuffix(s: seq<Token>, k: nat)
    requires k <= |s|
    ensures Suffix(s[k..], s)
  {
  }

  /** A suffix of `b[k..]` is a suffix of `b`. */
  lemma SuffixOfDrop(a: seq<Token>, b: seq<Token>, k: nat)
    requires k <= |b| && Suffix(a, b[k..])
    ensures Suffix(a, b)
  {
    assert b[k..][|b[k..]| - |a|..] == b[|b| - |a|..];
  }

  /** Dropping the first token of a non-empty suffix gives a proper suffix. */
  lemma ProperAfterDrop(a: seq<Token>, b: seq<Token>)
    requires a != [] && Suffix(a, b)
    ensures ProperSuffix(a[1..], b)
  {
    assert b[|b| - |a|..][1..] == b[|b| - |a[1..]|..];
  }

  /** Every successful parse leaves a proper suffix of its input: tokens
      are consumed from the front and never put back. */
  lemma {:induction false} ExprSuffix(tokens: seq<Token>)
    ensures ParseExpr(tokens).Ok? ==> ProperSuffix(ParseExpr(tokens).value.rest, tokens)
    decreases |tokens|, 2
  {
    if tokens != [] && tokens[0].kind == LParen && |tokens| > 1 {
      IfSuffix(tokens);
      LetSuffix(tokens);
      ListSuffix(tokens);
    }
  }

  lemma {:induction false} ListItemsSuffix(rest: seq<Token>)
    ensures ListItems(rest).Ok? ==> Suffix(ListItems(rest).value.rest, rest)
    decreases |rest|, 3
  {
    if rest != [] && rest[0].kind != RParen && ParseExpr(rest).Ok? {
      var p := ParseExpr(rest).value;
      ExprSuffix(rest);
      if p.rest != [] {
        ListItemsSuffix(p.rest);
        if ListItems(p.rest).Ok? {
          SuffixTrans(ListItems(p.rest).value.rest, p.rest, rest);
        }
      }
    }
  }

  lemma {:induction false} ListSuffix(tokens: seq<Token>)
    ensures ParseList(tokens).Ok? ==> ProperSuffix(ParseList(tokens).value.rest, tokens)
    decreases |tokens|, 1
  {
    if tokens != [] {
      var r := ListItems(tokens[1..]);
      ListItemsSuffix(tokens[1..]);
      if r.Ok? {
        SuffixOfDrop(r.value.rest, tokens, 1);
        ProperAfterDrop(r.value.rest, tokens);
      }
    }
  }

  lemma {:induction false} BindingItemsSuffix(rest: seq<Token>)
    ensures BindingItems(rest).Ok? ==> Suffix(BindingItems(rest).value.rest, rest)
    decreases |rest|, 3
  {
    if |rest| > 1 && rest[0].kind != RSquare && ParseExpr(rest[1..]).Ok? {
      var p := ParseExpr(rest[1..]).value;
      ExprSuffix(rest[1..]);
      if p.rest != [] {
        BindingItemsSuffix(p.rest);
        if BindingItems(p.rest).Ok? {
          DropSuffix(rest, 1);
          SuffixTrans(p.rest, rest[1..], rest);
          SuffixTrans(BindingItems(p.rest).value.rest, p.rest, rest);
        }
      }
    }
  }

  lemma {:induction false} BindingsSuffix(tokens: seq<Token>)
    ensures ParseBindings(tokens).Ok? ==> ProperSuffix(ParseBindings(tokens).value.rest, tokens)
    decreases |tokens|, 1
  {
    if tokens != [] {
      var r := BindingItems(tokens[1..]);
      BindingItemsSuffix(tokens[1..]);
      if r.Ok? {
        SuffixOfDrop(r.value.rest, tokens, 1);
        ProperAfterDrop(r.value.rest, tokens);
      }
    }
  }

  lemma {:induction false} IfSuffix(tokens: seq<Token>)
    ensures ParseIf(tokens).Ok? ==> ProperSuffix(ParseIf(tokens).value.rest, tokens)
    decreases |tokens|, 1
  {
    if ParseIf(tokens).Ok? {
      var c := ParseExpr(tokens[2..]).value;
      var t := ParseExpr(c.rest).value;
      var f := ParseExpr(t.rest).value;
      assert ParseIf(tokens).value.rest == f.rest[1..];
      ExprSuffix(tokens[2..]);
      ExprSuffix(c.rest);
      ExprSuffix(t.rest);
      DropSuffix(tokens, 2);
      DropSuffix(f.rest, 1);
      SuffixTrans(c.rest, tokens[2..], tokens);
      SuffixTrans(t.rest, c.rest, tokens);
      SuffixTrans(f.rest, t.rest, tokens);
      SuffixTrans(f.rest[1..], f.rest, tokens);
    }
  }

  lemma {:induction false} LetSuffix(tokens: seq<Token>)
    ensures ParseLet(tokens).Ok? ==> ProperSuffix(ParseLet(tokens).value.rest, tokens)
    decreases |tokens|, 1
  {
    if ParseLet(tokens).Ok? {
      var b := ParseBindings(tokens[2..]).value;
      var body := ParseExpr(b.rest).value;
      assert ParseLet(tokens).value.rest == body.rest[1..];
      BindingsSuffix(tokens[2..]);
      ExprSuffix(b.rest);
      DropSuffix(tokens, 2);
      DropSuffix(body.rest, 1);
      SuffixTrans(b.rest, tokens[2..], tokens);
      SuffixTrans(body.rest, b.rest, tokens);
      SuffixTrans(body.rest[1..], body.rest, tokens);
    }
  }

  /** An empty token list is not an expression. */
  lemma EmptyInputFails()
    ensures ParseExpr([]) == Err(ParseError(EndOfInput))
  {
  }

  /** A literal token is one literal expression: STRING and NUMBER keep the
      token's literal, TRUE/FALSE/NIL become true/false/null; exactly one
      token is consumed. */
  lemma LiteralConsumesOne(tokens: seq<Token>)
    requires tokens != [] && IsLiteralKind(tokens[0].kind)
    ensures var t := tokens[0];
      ParseExpr(tokens) == Ok(Parsed(LiteralExpr(
        if t.kind == True then BoolValue(true)
        else if t.kind == False then BoolValue(false)
        else if t.kind == Nil then NullValue
        else TokenLiteral(t.literal)), tokens[1..]))
  {
  }

  /** `parse_literal` rejects every other token type. */
  lemma ParseLiteralRejects(tokens: seq<Token>)
    requires tokens != [] && !IsLiteralKind(tokens[0].kind)
    ensures ParseLiteral(tokens).Err? && ParseLiteral(tokens).fault.ParseError?
  {
  }

  /** An identifier is a name expression and consumes exactly one token. */
  lemma NameConsumesOne(tokens: seq<Token>)
    requires tokens != [] && tokens[0].kind == Identifier
    ensures ParseExpr(tokens) == Ok(Parsed(NameExpr(tokens[0].lexeme), tokens[1..]))
  {
  }

  /** A lone `(` is rejected. */
  lemma DanglingParenFails(lparen: Token)
    requires lparen.kind == LParen
    ensures ParseExpr([lparen]) == Err(ParseError(DanglingParen))
  {
  }

  /** Only literals, identifiers and `(` can start an expression. */
  lemma OtherHeadFails(tokens: seq<Token>)
    requires tokens != [] && !IsLiteralKind(tokens[0].kind)
    requires tokens[0].kind != Identifier && tokens[0].kind != LParen
    ensures ParseExpr(tokens).Err? && ParseExpr(tokens).fault.ParseError?
  {
  }

  /** `let` wants `[` as its third token. */
  lemma LetNeedsSquare(tokens: seq<Token>)
    requires |tokens| >= 3 && tokens[0].kind == LParen && tokens[1].kind == Let && tokens[2].kind != LSquare
    ensures ParseExpr(tokens).Err? && ParseExpr(tokens).fault.ParseError?
  {
    DispatchLet(tokens);
  }

  /* A printer for parse trees: the reference the parser is proved to
     invert. The tokens it makes carry line 0 and no literal unless the
     tree says otherwise. */

  function Tok(kind: TokenType, lexeme: string): Token
  {
    Token(kind, lexeme, NoLiteral, 0)
  }

  function Render(e: Expr): (r: seq<Token>)
    decreases e, 1
  {
    match e
    case LiteralExpr(TokenLiteral(lit)) => [Token(String, "", lit, 0)]
    case LiteralExpr(BoolValue(b)) => if b then [Tok(True, "true")] else [Tok(False, "false")]
    case LiteralExpr(NullValue) => [Tok(Nil, "nil")]
    case NameExpr(name) => [Tok(Identifier, name)]
    case ListExpr(children) => [Tok(LParen, "(")] + RenderAll(children) + [Tok(RParen, ")")]
    case IfExpr(c, t, f) => [Tok(LParen, "("), Tok(If, "if")] + Render(c) + Render(t) + Render(f) + [Tok(RParen, ")")]
    case LetExpr(bindings, body) =>
      [Tok(LParen, "("), Tok(Let, "let"), Tok(LSquare, "[")] + RenderBindings(bindings)
        + [Tok(RSquare, "]")] + Render(body) + [Tok(RParen, ")")]
  }

  function RenderAll(es: seq<Expr>): seq<Token>
    decreases es, 0
  {
    if es == [] then [] else Render(es[0]) + RenderAll(es[1..])
  }

  function RenderBindings(bs: seq<Binding>): seq<Token>
    decreases bs, 0
  {
    if bs == [] then [] else
      var b := bs[0];
      assert b.value < b;
      [b.key] + Render(b.value) + RenderBindings(bs[1..])
  }

  /** Trees the printer can print faithfully: no binding key is a `]`. */
  predicate WellFormed(e: Expr)
    decreases e, 1
  {
    match e
    case LiteralExpr(_) => true
    case NameExpr(_) => true
    case ListExpr(children) => AllWellFormed(children)
    case IfExpr(c, t, f) => WellFormed(c) && WellFormed(t) && WellFormed(f)
    case LetExpr(bindings, body) => BindingsWellFormed(bindings) && WellFormed(body)
  }

  predicate AllWellFormed(es: seq<Expr>)
    decreases es, 0
  {
    es != [] ==> WellFormed(es[0]) && AllWellFormed(es[1..])
  }

  predicate BindingsWellFormed(bs: seq<Binding>)
    decreases bs, 0
  {
    bs != [] ==>
      var b := bs[0];
      assert b.value < b;
      b.key.kind != RSquare && WellFormed(b.value) && BindingsWellFormed(bs[1..])
  }

  /** A printed expression starts with a literal, an identifier or `(`. */
  lemma RenderHead(e: Expr)
    ensures Render(e) != []
    ensures var k := Render(e)[0].kind; IsLiteralKind(k) || k == Identifier || k == LParen
  {
  }

  /** `parse_expr` hands every `(` to the lookahead dispatch. */
  lemma ExprParen(tokens: seq<Token>)
    requires tokens != [] && tokens[0].kind == LParen
    ensures ParseExpr(tokens) == ParseParen(tokens)
  {
  }

  /** `(` followed by `if` is an if expression. */
  lemma DispatchIf(tokens: seq<Token>)
    requires |tokens| >= 2 && tokens[0].kind == LParen && tokens[1].kind == If
    ensures ParseExpr(tokens) == ParseIf(tokens)
  {
    ExprParen(tokens);
  }

  /** `(` followed by `let` is a let expression. */
  lemma DispatchLet(tokens: seq<Token>)
    requires |tokens| >= 2 && tokens[0].kind == LParen && tokens[1].kind == Let
    ensures ParseExpr(tokens) == ParseLet(tokens)
  {
    ExprParen(tokens);
  }

  /** `(` followed by anything but a special form's keyword is a list. */
  lemma DispatchList(tokens: seq<Token>)
    requires |tokens| >= 2 && tokens[0].kind == LParen
    requires tokens[1].kind != If && tokens[1].kind != Let && tokens[1].kind != Loop && tokens[1].kind != Fn
    ensures ParseExpr(tokens) == ParseList(tokens)
  {
    ExprParen(tokens);
  }

  /** `parse_if` when its three children parse and a `)` follows. */
  lemma ParseIfParts(tokens: seq<Token>, c: Parsed, t: Parsed, f: Parsed)
    requires |tokens| >= 3 && ParseExpr(tokens[2..]) == Ok(c)
    requires c.rest != [] && ParseExpr(c.rest) == Ok(t)
    requires t.rest != [] && ParseExpr(t.rest) == Ok(f)
    requires f.rest != [] && f.rest[0].kind == RParen
    ensures ParseIf(tokens) == Ok(Parsed(IfExpr(c.expr, t.expr, f.expr), f.rest[1..]))
  {
  }

  /** `parse_if` when its three children parse and no `)` follows. */
  lemma ParseIfUnclosed(tokens: seq<Token>, c: Parsed, t: Parsed, f: Parsed)
    requires |tokens| >= 3 && ParseExpr(tokens[2..]) == Ok(c)
    requires c.rest != [] && ParseExpr(c.rest) == Ok(t)
    requires t.rest != [] && ParseExpr(t.rest) == Ok(f)
    requires f.rest == [] || f.rest[0].kind != RParen
    ensures ParseIf(tokens).Err?
  {
  }

  /** `parse_if` when the else child does not parse. */
  lemma ParseIfElseFails(tokens: seq<Token>, c: Parsed, t: Parsed)
    requires |tokens| >= 3 && ParseExpr(tokens[2..]) == Ok(c)
    requires c.rest != [] && ParseExpr(c.rest) == Ok(t)
    requires t.rest != [] && ParseExpr(t.rest).Err?
    ensures ParseIf(tokens).Err?
  {
  }

  /** `parse_let` when its bindings and body parse and a `)` follows. */
  lemma ParseBindingsStep(tokens: seq<Token>, b: Items<Binding>)
    requires tokens != [] && BindingItems(tokens[1..]) == Ok(b) && b.rest != []
    ensures ParseBindings(tokens) == Ok(Items(b.items, b.rest[1..]))
  {
  }

  lemma ParseLetParts(tokens: seq<Token>, b: Items<Binding>, body: Parsed)
    requires |tokens| >= 3 && tokens[2].kind == LSquare && ParseBindings(tokens[2..]) == Ok(b)
    requires b.rest != [] && ParseExpr(b.rest) == Ok(body)
    requires body.rest != [] && body.rest[0].kind == RParen
    ensures ParseLet(tokens) == Ok(Parsed(LetExpr(b.items, body.expr), body.rest[1..]))
  {
  }

  /* How printed token lists split up. These facts are about sequences
     only; the round-trip lemmas below use them to find the children of a
     printed expression. */

  lemma ListShape(rcs: seq<Token>, rest: seq<Token>)
    ensures var tokens := [Tok(LParen, "(")] + rcs + [Tok(RParen, ")")] + rest;
      |tokens| >= 2 && tokens[0].kind == LParen
      && tokens[1..] == rcs + [Tok(RParen, ")")] + rest
      && tokens[1] == (if rcs == [] then Tok(RParen, ")") else rcs[0])
  {
    var tokens := [Tok(LParen, "(")] + rcs + [Tok(RParen, ")")] + rest;
    assert tokens == [Tok(LParen, "(")] + (rcs + [Tok(RParen, ")")] + rest);
  }

  lemma IfShape(rc: seq<Token>, rt: seq<Token>, rf: seq<Token>, rest: seq<Token>)
    ensures var tokens := [Tok(LParen, "("), Tok(If, "if")] + rc + rt + rf + [Tok(RParen, ")")] + rest;
      |tokens| >= 3 && tokens[0].kind == LParen && tokens[1].kind == If
      && tokens[2..] == rc + (rt + (rf + ([Tok(RParen, ")")] + rest)))
  {
    var tokens := [Tok(LParen, "("), Tok(If, "if")] + rc + rt + rf + [Tok(RParen, ")")] + rest;
    assert tokens == [Tok(LParen, "("), Tok(If, "if")] + (rc + (rt + (rf + ([Tok(RParen, ")")] + rest))));
  }

  lemma IfTwoShape(rc: seq<Token>, rt: seq<Token>, rest: seq<Token>)
    ensures var tokens := [Tok(LParen, "("), Tok(If, "if")] + rc + rt + [Tok(RParen, ")")] + rest;
      |tokens| >= 3 && tokens[0].kind == LParen && tokens[1].kind == If
      && tokens[2..] == rc + (rt + ([Tok(RParen, ")")] + rest))
  {
    var tokens := [Tok(LParen, "("), Tok(If, "if")] + rc + rt + [Tok(RParen, ")")] + rest;
    assert tokens == [Tok(LParen, "("), Tok(If, "if")] + (rc + (rt + ([Tok(RParen, ")")] + rest)));
  }

  lemma IfFourShape(rc: seq<Token>, rt: seq<Token>, rf: seq<Token>, rg: seq<Token>, rest: seq<Token>)
    ensures var tokens := [Tok(LParen, "("), Tok(If, "if")] + rc + rt + rf + rg + [Tok(RParen, ")")] + rest;
      |tokens| >= 3 && tokens[0].kind == LParen && tokens[1].kind == If
      && tokens[2..] == rc + (rt + (rf + (rg + [Tok(RParen, ")")] + rest)))
  {
    var tokens := [Tok(LParen, "("), Tok(If, "if")] + rc + rt + rf + rg + [Tok(RParen, ")")] + rest;
    assert tokens == [Tok(LParen, "("), Tok(If, "if")] + (rc + (rt + (rf + (rg + [Tok(RParen, ")")] + rest))));
  }

  lemma LetShape(rbs: seq<Token>, rbody: seq<Token>, rest: seq<Token>)
    ensures var tokens := [Tok(LParen, "("), Tok(Let, "let"), Tok(LSquare, "[")] + rbs + [Tok(RSquare, "]")] + rbody
        + [Tok(RParen, ")")] + rest;
      |tokens| >= 3 && tokens[0].kind == LParen && tokens[1].kind == Let && tokens[2].kind == LSquare
      && tokens[2..][1..] == rbs + [Tok(RSquare, "]")] + (rbody + ([Tok(RParen, ")")] + rest))
  {
    var afterBindings := rbody + ([Tok(RParen, ")")] + rest);
    var tokens := [Tok(LParen, "("), Tok(Let, "let"), Tok(LSquare, "[")] + rbs + [Tok(RSquare, "]")] + rbody
      + [Tok(RParen, ")")] + rest;
    assert tokens == [Tok(LParen, "("), Tok(Let, "let"), Tok(LSquare, "[")] + (rbs + [Tok(RSquare, "]")] + afterBindings);
  }

  lemma ConsShape(head: seq<Token>, rs: seq<Token>, close: Token, rest: seq<Token>)
    ensures head + rs + [close] + rest == head + (rs + [close] + rest)
  {
  }

  lemma BindingShape(key: Token, rv: seq<Token>, rs: seq<Token>, rest: seq<Token>)
    ensures var tokens := [key] + rv + rs + [Tok(RSquare, "]")] + rest;
      tokens[0] == key && tokens[1..] == rv + (rs + [Tok(RSquare, "]")] + rest)
  {
    var tokens := [key] + rv + rs + [Tok(RSquare, "]")] + rest;
    assert tokens == [key] + (rv + (rs + [Tok(RSquare, "]")] + rest));
  }

  lemma CloseShape(close: Token, rest: seq<Token>)
    ensures ([close] + rest)[1..] == rest && ([close] + rest)[0] == close
  {
  }

  /** Parsing a printed expression gives the expression back and leaves
      whatever followed it. */
  lemma {:induction false} RoundTrip(e: Expr, rest: seq<Token>)
    requires WellFormed(e)
    ensures ParseExpr(Render(e) + rest) == Ok(Parsed(e, rest))
    decreases e, 2
  {
    match e
    case LiteralExpr(_) =>
    case NameExpr(_) =>
    case ListExpr(children) => RoundTripList(children, rest);
    case IfExpr(c, t, f) => RoundTripIf(c, t, f, rest);
    case LetExpr(bindings, body) => RoundTripLet(bindings, body, rest);
  }

  lemma {:induction false} RoundTripList(children: seq<Expr>, rest: seq<Token>)
    requires AllWellFormed(children)
    ensures ParseExpr(Render(ListExpr(children)) + rest) == Ok(Parsed(ListExpr(children), rest))
    decreases ListExpr(children), 1
  {
    var tokens := Render(ListExpr(children)) + rest;
    RoundTripAll(children, rest);
    ListShape(RenderAll(children), rest);
    CloseShape(Tok(RParen, ")"), rest);
    if children != [] {
      RenderHead(children[0]);
      assert RenderAll(children)[0] == Render(children[0])[0];
    }
    assert ParseList(tokens) == Ok(Parsed(ListExpr(children), rest));
    DispatchList(tokens);
  }

  lemma {:induction false} RoundTripIf(c: Expr, t: Expr, f: Expr, rest: seq<Token>)
    requires WellFormed(c) && WellFormed(t) && WellFormed(f)
    ensures ParseExpr(Render(IfExpr(c, t, f)) + rest) == Ok(Parsed(IfExpr(c, t, f), rest))
    decreases IfExpr(c, t, f), 1
  {
    var tokens := Render(IfExpr(c, t, f)) + rest;
    var afterF := [Tok(RParen, ")")] + rest;
    var afterT := Render(f) + afterF;
    var afterC := Render(t) + afterT;
    IfShape(Render(c), Render(t), Render(f), rest);
    CloseShape(Tok(RParen, ")"), rest);
    RoundTrip(c, afterC);
    RoundTrip(t, afterT);
    RoundTrip(f, afterF);
    RenderHead(t);
    RenderHead(f);
    ParseIfParts(tokens, Parsed(c, afterC), Parsed(t, afterT), Parsed(f, afterF));
    DispatchIf(tokens);
  }

  lemma {:induction false} RoundTripLet(bindings: seq<Binding>, body: Expr, rest: seq<Token>)
    requires BindingsWellFormed(bindings) && WellFormed(body)
    ensures ParseExpr(Render(LetExpr(bindings, body)) + rest) == Ok(Parsed(LetExpr(bindings, body), rest))
    decreases LetExpr(bindings, body), 1
  {
    var tokens := Render(LetExpr(bindings, body)) + rest;
    var afterBody := [Tok(RParen, ")")] + rest;
    var afterBindings := Render(body) + afterBody;
    LetShape(RenderBindings(bindings), Render(body), rest);
    CloseShape(Tok(RSquare, "]"), afterBindings);
    CloseShape(Tok(RParen, ")"), rest);
    RoundTripBindings(bindings, afterBindings);
    ParseBindingsStep(tokens[2..], Items(bindings, [Tok(RSquare, "]")] + afterBindings));
    RoundTrip(body, afterBody);
    ParseLetParts(tokens, Items(bindings, afterBindings), Parsed(body, afterBody));
    DispatchLet(tokens);
  }

  /** The loop of `parse_list` collects printed children in order and stops
      at the `)` that follows them. */
  lemma {:induction false} RoundTripAll(es: seq<Expr>, rest: seq<Token>)
    requires AllWellFormed(es)
    ensures ListItems(RenderAll(es) + [Tok(RParen, ")")] + rest) == Ok(Items(es, [Tok(RParen, ")")] + rest))
    decreases es, 0
  {
    var tokens := RenderAll(es) + [Tok(RParen, ")")] + rest;
    if es != [] {
      var after := RenderAll(es[1..]) + [Tok(RParen, ")")] + rest;
      ConsShape(Render(es[0]), RenderAll(es[1..]), Tok(RParen, ")"), rest);
      RoundTrip(es[0], after);
      RenderHead(es[0]);
      RoundTripAll(es[1..], rest);
      ListItemsStep(tokens);
      assert [es[0]] + es[1..] == es;
    } else {
      assert tokens == [Tok(RParen, ")")] + rest;
    }
  }

  /** The loop of `parse_bindings` collects printed bindings in order and
      stops at the `]` that follows them. */
  lemma {:induction false} RoundTripBindings(bs: seq<Binding>, rest: seq<Token>)
    requires BindingsWellFormed(bs)
    ensures BindingItems(RenderBindings(bs) + [Tok(RSquare, "]")] + rest) == Ok(Items(bs, [Tok(RSquare, "]")] + rest))
    decreases bs, 0
  {
    var tokens := RenderBindings(bs) + [Tok(RSquare, "]")] + rest;
    if bs != [] {
      var b := bs[0];
      assert b.value < b;
      var after := RenderBindings(bs[1..]) + [Tok(RSquare, "]")] + rest;
      BindingShape(b.key, Render(b.value), RenderBindings(bs[1..]), rest);
      RoundTrip(b.value, after);
      RoundTripBindings(bs[1..], rest);
      BindingItemsStep(tokens);
      assert [Binding(b.key, b.value)] + bs[1..] == bs;
    } else {
      assert tokens == [Tok(RSquare, "]")] + rest;
    }
  }

  /** An `if` with only a condition and a true child fails. */
  lemma IfTwoChildrenFails(c: Expr, t: Expr, rest: seq<Token>)
    requires WellFormed(c) && WellFormed(t)
    ensures ParseExpr([Tok(LParen, "("), Tok(If, "if")] + Render(c) + Render(t) + [Tok(RParen, ")")] + rest).Err?
  {
    var tokens := [Tok(LParen, "("), Tok(If, "if")] + Render(c) + Render(t) + [Tok(RParen, ")")] + rest;
    var afterT := [Tok(RParen, ")")] + rest;
    var afterC := Render(t) + afterT;
    IfTwoShape(Render(c), Render(t), rest);
    RoundTrip(c, afterC);
    RoundTrip(t, afterT);
    RenderHead(t);
    assert ParseExpr(afterT).Err?;
    ParseIfElseFails(tokens, Parsed(c, afterC), Parsed(t, afterT));
    DispatchIf(tokens);
  }

  /** An `if` with a fourth child fails. */
  lemma IfFourChildrenFails(c: Expr, t: Expr, f: Expr, g: Expr, rest: seq<Token>)
    requires WellFormed(c) && WellFormed(t) && WellFormed(f) && WellFormed(g)
    ensures ParseExpr([Tok(LParen, "("), Tok(If, "if")] + Render(c) + Render(t) + Render(f) + Render(g)
      + [Tok(RParen, ")")] + rest).Err?
  {
    var tokens := [Tok(LParen, "("), Tok(If, "if")] + Render(c) + Render(t) + Render(f) + Render(g)
      + [Tok(RParen, ")")] + rest;
    var afterF := Render(g) + [Tok(RParen, ")")] + rest;
    var afterT := Render(f) + afterF;
    var afterC := Render(t) + afterT;
    IfFourShape(Render(c), Render(t), Render(f), Render(g), rest);
    RoundTrip(c, afterC);
    RoundTrip(t, afterT);
    RoundTrip(f, afterF);
    RenderHead(t);
    RenderHead(f);
    RenderHead(g);
    ParseIfUnclosed(tokens, Parsed(c, afterC), Parsed(t, afterT), Parsed(f, afterF));
    DispatchIf(tokens);
  }

  /** A list whose input ends before its `)` fails. */
  lemma UnclosedListFails(es: seq<Expr>)
    requires AllWellFormed(es)
    ensures ParseExpr([Tok(LParen, "(")] + RenderAll(es)).Err?
  {
    if es != [] {
      UnclosedItems(es);
      RenderHead(es[0]);
      var tokens := [Tok(LParen, "(")] + RenderAll(es);
      assert tokens[1..] == RenderAll(es);
      DispatchList(tokens);
    }
  }

  lemma {:induction false} UnclosedItems(es: seq<Expr>)
    requires AllWellFormed(es)
    ensures ListItems(RenderAll(es)).Err?
    decreases es
  {
    if es != [] {
      RoundTrip(es[0], RenderAll(es[1..]));
      RenderHead(es[0]);
      if es[1..] != [] {
        UnclosedItems(es[1..]);
      }
    }
  }
}
