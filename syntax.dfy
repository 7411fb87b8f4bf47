/** Tokens and the untyped value tree (src/token.ts, src/types.ts).

    The value tree is what the reader produces and what the checker, the
    code generator and the macro reader consume: literals, symbols, and
    lists and vectors of values. Lists and vectors keep the token of their
    opening bracket, as `LValList`/`LValVector` keep `l_paren`. Numbers are
    integers in this model. */
module Syntax {

  /** The token types. `Symbol` marks the tokens the passes make up for
      generated names. `NotAType` stands for a value that is not a token type
      at all, which the scanner can store in a token's type field (see
      `Scanner.WordKind`). */
  datatype TokenType =
    | LParen | RParen | LSquare | RSquare
    | Plus | Minus | Star | Slash | Eq | Gt | Lt | And | Or | Not
    | Identifier | String | Number | True | False | Nil
    | If | Fn | Let | Loop | Print
    | Symbol
    | NotAType

  /** The text of a token type, as the enum's string values print it. A
      `NotAType` value prints as JavaScript source text of a function, which
      this model does not reproduce. */
  function TypeName(k: TokenType): string
  {
    match k
    case LParen => "L_PAREN" case RParen => "R_PAREN" case LSquare => "L_SQUARE" case RSquare => "R_SQUARE"
    case Plus => "PLUS" case Minus => "MINUS" case Star => "STAR" case Slash => "SLASH" case Eq => "EQ"
    case Gt => "GT" case Lt => "LT" case And => "AND" case Or => "OR" case Not => "NOT"
    case Identifier => "IDENTIFIER" case String => "STRING" case Number => "NUMBER"
    case True => "TRUE" case False => "FALSE" case Nil => "NIL"
    case If => "IF" case Fn => "FN" case Let => "LET" case Loop => "LOOP" case Print => "PRINT"
    case Symbol => "SYMBOL" case NotAType => "function"
  }

  /** The `literal` field of a token: absent, a string, or the value of a
      number lexeme. A number lexeme that holds a `.` denotes a JavaScript
      double, which this model does not compute; it is kept as text. */
  datatype Literal = NoLiteral | StrLit(s: string) | NumLit(n: int) | Decimal(text: string)

  datatype Token = Token(kind: TokenType, lexeme: string, literal: Literal, line: int)

  /** A token made up by a pass rather than read from source (line -1). */
  function SymbolToken(lexeme: string): Token
  {
    Token(Symbol, lexeme, NoLiteral, -1)
  }

  datatype LVal =
    | LNum(n: int)
    | LStr(s: string)
    | LBool(b: bool)
    | LNil
    | LSym(tok: Token)
    | LList(items: seq<LVal>, lparen: Token)
    | LVector(items: seq<LVal>, lparen: Token)
  {
    predicate IsLiteral() { LNum? || LStr? || LBool? || LNil? }
    predicate IsSymbolNamed(name: string) { LSym? && tok.lexeme == name }
  }

  function Size(v: LVal): nat
  {
    match v
    case LList(items, _) => 1 + SizeAll(items)
    case LVector(items, _) => 1 + SizeAll(items)
    case _ => 1
  }

  function SizeAll(s: seq<LVal>): nat
  {
    if s == [] then 0 else Size(s[0]) + SizeAll(s[1..])
  }

  lemma SizeAllElem(s: seq<LVal>, i: nat)
    requires i < |s|
    ensures Size(s[i]) <= SizeAll(s)
  {
    if i > 0 { SizeAllElem(s[1..], i - 1); }
  }

  lemma SizeAllFrom(s: seq<LVal>, i: nat)
    requires i < |s|
    ensures SizeAll(s[i..]) == Size(s[i]) + SizeAll(s[i + 1..])
  {
    assert s[i..][0] == s[i] && s[i..][1..] == s[i + 1..];
  }

  lemma SizeAllEach(s: seq<LVal>)
    ensures forall i :: 0 <= i < |s| ==> Size(s[i]) <= SizeAll(s)
  {
    forall i | 0 <= i < |s| {
      SizeAllElem(s, i);
    }
  }

  /** Every element of a list or vector is smaller than the list. */
  lemma SizeItem(v: LVal, i: nat)
    requires v.LList? || v.LVector?
    requires i < |v.items|
    ensures Size(v.items[i]) < Size(v)
  {
    SizeAllElem(v.items, i);
  }

  predicate AllSymbols(s: seq<LVal>)
  {
    forall i :: 0 <= i < |s| ==> s[i].LSym?
  }

  /** The tokens of a sequence of symbols. */
  function Tokens(ps: seq<LVal>): (r: seq<Token>)
    requires AllSymbols(ps)
    ensures |r| == |ps| && forall i :: 0 <= i < |ps| ==> r[i] == ps[i].tok
  {
    seq(|ps|, i requires 0 <= i < |ps| => ps[i].tok)
  }

  function Lexemes(s: seq<LVal>): (r: seq<string>)
    requires AllSymbols(s)
    ensures |r| == |s|
    ensures forall i :: 0 <= i < |s| ==> r[i] == s[i].tok.lexeme
  {
    if s == [] then [] else [s[0].tok.lexeme] + Lexemes(s[1..])
  }
}
