/** The typed tree the checker produces and the interpreter and the
    lowering pass consume (src/expr.ts, as used by src/checker.ts).

    The source's type objects and capture-set arrays are shared between
    nodes and updated in place: narrowing rewrites a placeholder type
    object that several nodes and scope entries hold, and `if` and `fn`
    grow or shrink the capture array of one of their children. To keep
    that sharing, both live in a `Heap`: a node holds the index of its type
    (`ty`) and of its capture list (`caps`), and an update in place is a
    write to one heap cell. */
module Types {
  import opened Syntax
  import opened Wrappers

  /** Index of a type object in the heap. */
  type Slot = nat

  /** Index of a capture-set array in the heap. */
  type CapRef = nat

  datatype BaseType = TAny | TNumber | TString | TBoolean | TNil | TList | TVector | TSymbol

  /** An `ExprType`: a base type, a function type whose parameter, rest and
      result types are themselves heap objects, or a placeholder (`POLY`)
      named after the symbol it was made for. */
  datatype Type =
    | BaseT(base: BaseType)
    | FuncT(params: seq<Slot>, rest: Option<Slot>, ret: Slot)
    | PolyT(name: string)

  /** A type object as the heap holds it: its type, and its `narrowable`
      flag. The flag is a separate property of the object: narrowing
      overwrites the type with `Object.assign` and leaves the flag in
      place, so a placeholder that has been narrowed keeps `narrowable`
      set. Objects made as base or function types have no flag (false). */
  datatype TypeObj = TypeObj(t: Type, narrowable: bool)

  /** The text of a base type, as the source's enum prints it. */
  function BaseName(b: BaseType): string
  {
    match b
    case TAny => "ANY" case TNumber => "NUMBER" case TString => "STRING" case TBoolean => "BOOLEAN"
    case TNil => "NIL" case TList => "LIST" case TVector => "VECTOR" case TSymbol => "SYMBOL"
  }

  datatype Heap = Heap(types: seq<TypeObj>, caps: seq<seq<Token>>)

  /** The type object stored at `s`. A slot past the end never arises from
      the checker; the placeholder returned for it keeps the function total. */
  function TypeAt(h: Heap, s: Slot): TypeObj
  {
    if s < |h.types| then h.types[s] else TypeObj(PolyT(""), false)
  }

  function CapsAt(h: Heap, c: CapRef): seq<Token>
  {
    if c < |h.caps| then h.caps[c] else []
  }

  datatype Binding = Binding(key: Token, value: Expr)

  /** The typed tree. Literals are the untyped literal values themselves;
      `FnE.name` is the function's name as text and `FnE.rest` the token
      after `&`, if any. */
  datatype Expr =
    | Lit(value: LVal, caps: CapRef, ty: Slot)
    | SymbolE(sym: Token, caps: CapRef, ty: Slot)
    | ListE(children: seq<Expr>, lparen: Token, caps: CapRef, ty: Slot)
    | VectorE(children: seq<Expr>, lparen: Token, caps: CapRef, ty: Slot)
    | IfE(cond: Expr, trueChild: Expr, falseChild: Expr, caps: CapRef, ty: Slot)
    | FnE(def: bool, params: seq<Token>, body: Expr, caps: CapRef, ty: Slot, lparen: Token,
          name: Option<string>, rest: Option<Token>)
    | LetE(bindings: seq<Binding>, body: Expr, caps: CapRef, ty: Slot)
    | DoE(bodies: seq<Expr>, caps: CapRef, ty: Slot, token: Token)
    | SE(op: Expr, children: seq<Expr>, caps: CapRef, ty: Slot, lparen: Token)
}
