/** Runtime values and the table of native functions (src/types.ts,
    src/interpreter.ts:17-29, src/native.ts).

    A function value holds a `Callable`: a native function, or a closure
    made by `interpret_fn`. A closure keeps its parameters, its body, the
    frame it was created in (an index into the interpreter's frame arena)
    and its own name, which it binds in its body. Only natives carry a
    `name` on the callable itself; the source's closure object has none. */
module Runtime {
  import opened Syntax
  import opened Wrappers
  import opened Types

  datatype NativeOp =
    | Add | Subtract | Equals | Modulo
    | Negate | AnyOf | AllOf
    | PrintOp
    | ListOp | ConsOp | PopOp | NthOp | CountOp

  datatype Callable =
    | Native(op: NativeOp)
    | Closure(params: seq<Token>, body: Expr, frame: nat, selfName: Option<string>)

  datatype RVal =
    | RNum(n: int)
    | RStr(s: string)
    | RBool(b: bool)
    | RNil
    | RSym(tok: Token)
    | RList(items: seq<RVal>)
    | RVector(items: seq<RVal>)
    | RFunc(fn: Callable, name: Option<string>)

  /** A syntax value used as a runtime value. The source's literal nodes
      are runtime values as they stand (the interpreter returns a literal
      node itself), and the macro reader hands whole syntax trees to macros;
      a list or vector loses its bracket token on the way. */
  function AsValue(v: LVal): (r: RVal)
    ensures v.LList? ==> r.RList? && |r.items| == |v.items|
    ensures v.LVector? ==> r.RVector? && |r.items| == |v.items|
    decreases v
  {
    match v
    case LNum(n) => RNum(n)
    case LStr(s) => RStr(s)
    case LBool(b) => RBool(b)
    case LNil => RNil
    case LSym(t) => RSym(t)
    case LList(items, _) => RList(seq(|items|, i requires 0 <= i < |items| => AsValue(items[i])))
    case LVector(items, _) => RVector(seq(|items|, i requires 0 <= i < |items| => AsValue(items[i])))
  }

  /** The `type` field of a runtime value. */
  datatype Tag = BaseTag(base: BaseType) | FunctionTag

  function TagOf(v: RVal): (t: Tag)
    ensures t == FunctionTag <==> v.RFunc?
  {
    match v
    case RNum(_) => BaseTag(TNumber)
    case RStr(_) => BaseTag(TString)
    case RBool(_) => BaseTag(TBoolean)
    case RNil => BaseTag(TNil)
    case RSym(_) => BaseTag(TSymbol)
    case RList(_) => BaseTag(TList)
    case RVector(_) => BaseTag(TVector)
    case RFunc(_, _) => FunctionTag
  }

  /** `truthy` (src/interpreter.ts:17-19). */
  predicate Truthy(v: RVal)
  {
    !((v.RBool? && !v.b) || v.RNil?)
  }

  /** Only `false` and nil are falsey. */
  lemma TruthySpec(v: RVal)
    ensures !Truthy(v) <==> v == RBool(false) || v == RNil
  {
  }

  // The native table, in the order of `native_funcs` (src/native.ts).

  const NativeCount: nat := 13

  /** The native at position `i` of the table (the last one past its end). */
  function NativeAt(i: int): NativeOp
  {
    match i
    case 0 => Add case 1 => Subtract case 2 => Equals case 3 => Modulo
    case 4 => Negate case 5 => AnyOf case 6 => AllOf case 7 => PrintOp
    case 8 => ListOp case 9 => ConsOp case 10 => PopOp case 11 => NthOp case _ => CountOp
  }

  /** The position of a native in the table. */
  function NativeIndex(op: NativeOp): (i: nat)
    ensures i < NativeCount && NativeAt(i) == op
  {
    match op
    case Add => 0 case Subtract => 1 case Equals => 2 case Modulo => 3
    case Negate => 4 case AnyOf => 5 case AllOf => 6 case PrintOp => 7
    case ListOp => 8 case ConsOp => 9 case PopOp => 10 case NthOp => 11 case CountOp => 12
  }

  function NativeOps(): (r: seq<NativeOp>)
    ensures |r| == NativeCount && forall i :: 0 <= i < NativeCount ==> r[i] == NativeAt(i)
  {
    seq(NativeCount, i => NativeAt(i))
  }

  function NativeName(op: NativeOp): string
  {
    match op
    case Add => "+" case Subtract => "-" case Equals => "=" case Modulo => "mod"
    case Negate => "not" case AnyOf => "or" case AllOf => "and" case PrintOp => "print"
    case ListOp => "list" case ConsOp => "cons" case PopOp => "pop" case NthOp => "nth" case CountOp => "count"
  }

  /** -1 accepts any number of arguments. */
  function Arity(op: NativeOp): int
  {
    match op
    case Modulo => 2 case Negate => 1 case ConsOp => 2 case PopOp => 1 case NthOp => 2 case CountOp => 1
    case _ => -1
  }

  /** The declared positional parameter types. */
  function Params(op: NativeOp): seq<BaseType>
  {
    match op
    case Equals => [TAny]
    case Modulo => [TNumber, TNumber]
    case Negate => [TAny]
    case ConsOp => [TAny, TList]
    case PopOp => [TList]
    case NthOp => [TList, TNumber]
    case CountOp => [TList]
    case _ => []
  }

  /** The type of the arguments past the positional ones, if any. */
  function Rest(op: NativeOp): Option<BaseType>
  {
    match op
    case Add => Some(TNumber) case Subtract => Some(TNumber)
    case Equals => Some(TAny) case AnyOf => Some(TAny) case AllOf => Some(TAny)
    case PrintOp => Some(TAny) case ListOp => Some(TAny)
    case _ => None
  }

  function ReturnType(op: NativeOp): BaseType
  {
    match op
    case Add => TNumber case Subtract => TNumber case Equals => TBoolean case Modulo => TNumber
    case Negate => TBoolean case AnyOf => TBoolean case AllOf => TBoolean case PrintOp => TNil
    case ListOp => TList case ConsOp => TList case PopOp => TList case NthOp => TAny case CountOp => TNumber
  }

  /** The table is consistent: a fixed arity is the number of declared
      parameters and comes with no rest type, and every variadic entry
      has a rest type. */
  lemma TableShape(op: NativeOp)
    ensures Arity(op) == -1 <==> Rest(op).Some?
    ensures Arity(op) != -1 ==> Arity(op) == |Params(op)|
  {
  }

  /** No two positions of the table hold the same native. */
  lemma NativeAtInjective(i: nat, j: nat)
    requires i < NativeCount && j < NativeCount && NativeAt(i) == NativeAt(j)
    ensures i == j
  {
    assert NativeIndex(NativeAt(i)) == i && NativeIndex(NativeAt(j)) == j;
  }

  /** No two natives share a name. */
  lemma NativeNameInjective(a: NativeOp, b: NativeOp)
    requires NativeName(a) == NativeName(b)
    ensures a == b
  {
  }

  lemma NativeNamesDistinct(i: nat, j: nat)
    requires i < j < |NativeOps()|
    ensures NativeName(NativeOps()[i]) != NativeName(NativeOps()[j])
  {
    if NativeName(NativeOps()[i]) == NativeName(NativeOps()[j]) {
      NativeNameInjective(NativeOps()[i], NativeOps()[j]);
      NativeAtInjective(i, j);
    }
  }

  /** The table lists every native. */
  lemma NativeOpsComplete(op: NativeOp)
    ensures op in NativeOps()
  {
    assert NativeOps()[NativeIndex(op)] == op;
  }

  /** What a call sees of a callable: its name, its arity, its declared
      parameter types and rest type (src/interpreter.ts:21-29, 48-51). */
  function CallableName(f: Callable): Option<string>
  {
    if f.Native? then Some(NativeName(f.op)) else None
  }

  function CallableArity(f: Callable): int
  {
    if f.Native? then Arity(f.op) else |f.params|
  }

  function CallableParams(f: Callable): seq<BaseType>
  {
    if f.Native? then Params(f.op) else []
  }

  function CallableRest(f: Callable): Option<BaseType>
  {
    if f.Native? then Rest(f.op) else None
  }
}
