/** Option and Result, and the failures the TypeScript pipeline raises.

    The source signals failure by throwing. The kinds of throw are told
    apart because callers catch them differently:
    - ParseError: a plain `Error` thrown by the parser; which one is
      recorded as a `ParseFailure`, whose text `Parser.Message` gives;
    - CompileError: thrown by the checker and the macro reader
      (`CheckFailure`, text in `CheckMessage`);
    - RuntimeError: thrown by the interpreter, the native functions, the
      environment and the code generator (`RuntimeFailure`, text in
      `RuntimeMessage`);
    - TypeError: the JavaScript crash that follows a read through
      `undefined` (a missing array element, a stub that returns nothing);
    - ExpectedSymbol: the plain `Error` the code generator throws for a
      list whose head is neither a symbol nor a list.
    OutOfFuel is the model's own: the interpreter follows user closures
    only as deep as its fuel allows. */
module Wrappers {
  import opened Syntax
  import opened Strings

  datatype Option<+T> = None | Some(value: T)

  /** Where the model follows a defect of the source, the code as written
      (`AsWritten`) or the evidently intended behaviour (`Intended`). */
  datatype Version = AsWritten | Intended

  /** The token a parse error names, if the parser expected something else. */
  datatype Expectation = ExpectLiteral | ExpectExprStart | ExpectIfClose | ExpectLetBindings | ExpectLetClose

  /** The parser's errors, one constructor per message it can throw. */
  datatype ParseFailure =
    | EndOfInput
    | DanglingParen
    | UnclosedList
    | UnterminatedBindings
    | UnclosedBindings
    | UnterminatedIf(input: seq<Token>)
    | IfMissingChildren
    | IfMissingElse
    | IfMissingParen
    | UnterminatedLet(input: seq<Token>)
    | LetMissingBody
    | LetMissingParen
    | Unexpected(expected: Expectation, got: Token)

  /** The errors of the static checker and of `defmacro`, each with the
      token the source attaches to it. */
  datatype CheckFailure =
    | WrongArgCount(op: Token, count: nat)
    | BranchTypesDiffer(op: Token)
    | DefnNeedsName(op: Token)
    | ParamsNotSymbols(op: Token)
    | BadVariadic(op: Token)
    | OddBindings(op: Token)
    | BindingNotSymbol(op: Token)
    | NotAFunction(op: Token, isList: bool)
    | ParamCount(op: Token, expected: nat, got: nat)
    | ParamTypeMismatch(op: Token, index: nat)
    | BadHead(op: Token)
    | MacroNeedsName(op: Token)
    | MacroNeedsParams(op: Token)

  /** The errors raised while running or compiling a program. */
  datatype RuntimeFailure =
    | Unresolved(key: string)
    | NotCallable
    | ArityMismatch(name: Option<string>, expected: int, got: nat)
    | ArgTypeMismatch(position: nat, wanted: string)
    | PopEmpty
    | NthOutOfBounds
    | ArgCountAt(op: Token, count: nat)
    | BindingsOdd(op: Token)
    | BindingKeyNotSymbol(op: Token)
    | ParamsNotVector(op: Token)

  /** JavaScript crashes: reading `property` of `undefined`, or
      destructuring the `undefined` that the stub `callee` returned. */
  datatype Crash = ReadOfUndefined(property: string) | DestructureUndefined(callee: string)

  datatype Fault =
    | ParseError(why: ParseFailure)
    | CompileError(check: CheckFailure)
    | RuntimeError(run: RuntimeFailure)
    | TypeError(crash: Crash)
    | ExpectedSymbol
    | OutOfFuel

  datatype Result<+T> = Ok(value: T) | Err(fault: Fault) {
    predicate IsFailure() { Err? }
    function PropagateFailure<U>(): Result<U> requires Err? { Err(fault) }
    function Extract(): T requires Ok? { value }
  }

  function IntText(n: int): string
  {
    if n < 0 then "-" + NatToString(-n) else NatToString(n)
  }

  function ArgCountText(op: Token, count: nat): string
  {
    "Wrong number of args (" + NatToString(count) + ") passed to " + op.lexeme + "."
  }

  /** The text of a checker error. Where the source prints a type or a
      tree with `JSON.stringify` or `toString`, the text stops short of it. */
  function CheckMessage(f: CheckFailure): string
  {
    match f
    case WrongArgCount(op, n) => ArgCountText(op, n)
    case BranchTypesDiffer(_) => "Types of true child and false child don't match."
    case DefnNeedsName(_) => "Functions defined using defn must have a name."
    case ParamsNotSymbols(_) => "Expected a vector of symbols for parameters."
    case BadVariadic(_) => "Variadic functions must have & followed by exactly one symbol."
    case OddBindings(_) => "Expected an even number of forms in bindings vector."
    case BindingNotSymbol(_) => "Expected a symbol in bindings vector."
    case NotAFunction(op, isList) =>
      (if isList then "List" else "Symbol " + op.lexeme) + " is not a function."
    case ParamCount(_, e, g) =>
      "Function requires " + NatToString(e) + " parameters, got " + NatToString(g) + "."
    case ParamTypeMismatch(op, i) =>
      "Parameter " + NatToString(i + 1) + " to function " + op.lexeme + " doesn't match expected type."
    case BadHead(_) => "Expected symbol/s-expression."
    case MacroNeedsName(_) => "Expected a symbol as the first argument to defmacro."
    case MacroNeedsParams(_) => "Expected a vector of parameters as the second argument to defmacro."
  }

  /** The text of a runtime error. */
  function RuntimeMessage(f: RuntimeFailure): string
  {
    match f
    case Unresolved(key) => "Unable to resolve symbol " + key + "."
    case NotCallable => "is not a function."
    case ArityMismatch(name, e, g) =>
      "Function " + (if name.Some? then name.value else "(anon)") + " requires " + IntText(e)
        + " parameters, got " + NatToString(g) + "."
    case ArgTypeMismatch(i, t) => "Parameter " + NatToString(i) + " to function doesn't match expected type " + t + "."
    case PopEmpty => "Can't pop empty list!"
    case NthOutOfBounds => "nth index out of bounds!"
    case ArgCountAt(op, n) => ArgCountText(op, n)
    case BindingsOdd(_) => "Expected an even number of forms in bindings vector."
    case BindingKeyNotSymbol(_) => "Expected a symbol in bindings vector."
    case ParamsNotVector(_) => "Expected a vector of symbols."
  }
}
