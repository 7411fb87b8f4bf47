/** The native functions and the `when` macro (src/native.ts).

    The interpreter calls a native only after its arity and argument-type
    checks, so each native below requires what those checks establish
    (`Fits`). `+` and `-` keep the accumulator loops of the source as the
    methods `Plus` and `Minus`, proved against `Sum`. */
module Natives {
  import opened Syntax
  import opened Wrappers
  import opened Types
  import opened Runtime

  predicate AllNumbers(args: seq<RVal>)
  {
    forall i :: 0 <= i < |args| ==> args[i].RNum?
  }

  /** The expected type of argument `i`: the positional type, else the
      rest type (`params[i] ?? params_rest`). */
  function ExpectedAt(params: seq<BaseType>, rest: Option<BaseType>, i: nat): Option<BaseType>
  {
    if i < |params| then Some(params[i]) else rest
  }

  predicate Matches(expected: BaseType, v: RVal)
  {
    expected == TAny || TagOf(v) == BaseTag(expected)
  }

  /** What the interpreter's checks guarantee about the arguments of a
      native call: the arity fits, and when the native declares positional
      types every argument matches its expected type. */
  predicate Fits(op: NativeOp, args: seq<RVal>)
  {
    (Arity(op) == -1 || |args| == Arity(op)) &&
    (|Params(op)| > 0 ==>
      forall i :: 0 <= i < |args| ==>
        ExpectedAt(Params(op), Rest(op), i).Some? && Matches(ExpectedAt(Params(op), Rest(op), i).value, args[i]))
  }

  // ---- + and - ----

  /** The sum of the numbers, added left to right from 0. */
  function Sum(args: seq<RVal>): int
    requires AllNumbers(args)
  {
    if args == [] then 0 else Sum(args[..|args| - 1]) + args[|args| - 1].n
  }

  /** The sum splits over concatenation. */
  lemma {:induction false} SumAppend(a: seq<RVal>, b: seq<RVal>)
    requires AllNumbers(a) && AllNumbers(b)
    ensures AllNumbers(a + b) && Sum(a + b) == Sum(a) + Sum(b)
    decreases |b|
  {
    if b != [] {
      var b' := b[..|b| - 1];
      assert (a + b)[..|a + b| - 1] == a + b';
      SumAppend(a, b');
    } else {
      assert a + b == a;
    }
  }

  /** The sum counts the first argument once and then the others. */
  lemma SumFirst(args: seq<RVal>)
    requires AllNumbers(args) && args != []
    ensures Sum(args) == args[0].n + Sum(args[1..])
  {
    SumAppend([args[0]], args[1..]);
    assert [args[0]] + args[1..] == args;
    assert [args[0]][..0] == [];
  }

  /** `+` (src/native.ts:16-22): `sum` starts at 0 and each argument is
      added in turn. */
  method Plus(args: seq<RVal>) returns (sum: int)
    requires AllNumbers(args)
    ensures sum == Sum(args)
  {
    sum := 0;
    for i := 0 to |args|
      invariant sum == Sum(args[..i])
    {
      assert args[..i + 1][..i] == args[..i];
      sum := sum + args[i].n;
    }
    assert args[..|args|] == args;
  }

  /** `-` (src/native.ts:30-37): the first argument minus every later one.
      With no argument the source reads `.value` of `undefined`. */
  method Minus(args: seq<RVal>) returns (r: Result<int>)
    requires AllNumbers(args)
    ensures args == [] <==> r == Err(TypeError(ReadOfUndefined("value")))
    ensures args != [] ==> r == Ok(args[0].n - Sum(args[1..]))
  {
    if |args| == 0 {
      return Err(TypeError(ReadOfUndefined("value")));
    }
    var difference := args[0].n;
    for i := 1 to |args|
      invariant difference == args[0].n - Sum(args[1..i])
    {
      assert args[1..i + 1][..i - 1] == args[1..i];
      difference := difference - args[i].n;
    }
    assert args[1..|args|] == args[1..];
    return Ok(difference);
  }

  // ---- not, or, and ----

  /** Index of the first argument `want` says yes to (`Array.find`). */
  function FindFirst(args: seq<RVal>, truthy: bool): (r: Option<nat>)
    ensures r.Some? ==> r.value < |args| && Truthy(args[r.value]) == truthy
    ensures r.Some? ==> forall j :: 0 <= j < r.value ==> Truthy(args[j]) != truthy
    ensures r.None? ==> forall j :: 0 <= j < |args| ==> Truthy(args[j]) != truthy
  {
    if args == [] then None
    else if Truthy(args[0]) == truthy then Some(0)
    else match FindFirst(args[1..], truthy)
      case None => None
      case Some(k) => Some(k + 1)
  }

  /** `not` (src/native.ts:72-74). */
  function Not(args: seq<RVal>): (r: RVal)
    requires |args| == 1
    ensures r.RBool? && (r.b <==> !Truthy(args[0]))
  {
    RBool(!Truthy(args[0]))
  }

  /** `or` (src/native.ts:82-92): nil for no arguments, else the first
      truthy argument, else the last argument. */
  function Or(args: seq<RVal>): RVal
  {
    if args == [] then RNil
    else match FindFirst(args, true)
      case Some(i) => args[i]
      case None => args[|args| - 1]
  }

  /** `and` (src/native.ts:100-110): true for no arguments, else the first
      falsey argument, else the last argument. */
  function And(args: seq<RVal>): RVal
  {
    if args == [] then RBool(true)
    else match FindFirst(args, false)
      case Some(i) => args[i]
      case None => args[|args| - 1]
  }

  /** `or` returns one of its arguments, the first truthy one if any, and
      its result is truthy exactly when some argument is. */
  lemma OrSpec(args: seq<RVal>)
    ensures args == [] ==> Or(args) == RNil
    ensures args != [] ==> Or(args) in args
    ensures Truthy(Or(args)) <==> exists i :: 0 <= i < |args| && Truthy(args[i])
    ensures forall i :: 0 <= i < |args| && Truthy(args[i]) && (forall j :: 0 <= j < i ==> !Truthy(args[j])) ==>
      Or(args) == args[i]
  {
    var f := FindFirst(args, true);
    if f.Some? {
      forall i | 0 <= i < |args| && Truthy(args[i]) && (forall j :: 0 <= j < i ==> !Truthy(args[j]))
        ensures Or(args) == args[i]
      {
        assert !(i < f.value) && !(f.value < i);
      }
    }
  }

  /** `and` returns one of its arguments, the first falsey one if any, and
      its result is truthy exactly when every argument is. */
  lemma AndSpec(args: seq<RVal>)
    ensures args == [] ==> And(args) == RBool(true)
    ensures args != [] ==> And(args) in args
    ensures Truthy(And(args)) <==> forall i :: 0 <= i < |args| ==> Truthy(args[i])
    ensures forall i :: 0 <= i < |args| && !Truthy(args[i]) && (forall j :: 0 <= j < i ==> Truthy(args[j])) ==>
      And(args) == args[i]
  {
    var f := FindFirst(args, false);
    if f.Some? {
      forall i | 0 <= i < |args| && !Truthy(args[i]) && (forall j :: 0 <= j < i ==> Truthy(args[j]))
        ensures And(args) == args[i]
      {
        assert !(i < f.value) && !(f.value < i);
      }
    }
  }

  // ---- list, cons, pop, nth, count ----

  /** `cons` (src/native.ts:146-148): the first argument in front of the
      list's elements. */
  function Cons(args: seq<RVal>): (r: RVal)
    requires |args| == 2 && args[1].RList?
    ensures r.RList? && |r.items| == |args[1].items| + 1
    ensures r.items[0] == args[0] && r.items[1..] == args[1].items
  {
    RList([args[0]] + args[1].items)
  }

  /** `pop` (src/native.ts:155-162): a RuntimeError on the empty list,
      otherwise the list without its head. */
  function Pop(args: seq<RVal>): (r: Result<RVal>)
    requires |args| == 1 && args[0].RList?
    ensures r.Err? <==> args[0].items == []
    ensures r.Err? ==> r.fault == RuntimeError(PopEmpty)
    ensures r.Ok? ==> r.value == RList(args[0].items[1..])
  {
    var list := args[0].items;
    if |list| == 0 then Err(RuntimeError(PopEmpty)) else Ok(RList(list[1..]))
  }

  /** `nth` (src/native.ts:169-177): the element at the index, or a
      RuntimeError when the index is negative or not below the length. */
  function Nth(args: seq<RVal>): (r: Result<RVal>)
    requires |args| == 2 && args[0].RList? && args[1].RNum?
    ensures r.Ok? <==> 0 <= args[1].n < |args[0].items|
    ensures r.Ok? ==> r.value == args[0].items[args[1].n]
    ensures r.Err? ==> r.fault == RuntimeError(NthOutOfBounds)
  {
    var list := args[0].items;
    var index := args[1].n;
    if index < 0 || index >= |list| then Err(RuntimeError(NthOutOfBounds)) else Ok(list[index])
  }

  /** `count` (src/native.ts:184-186). */
  function Count(args: seq<RVal>): (r: RVal)
    requires |args| == 1 && args[0].RList?
    ensures r == RNum(|args[0].items|)
  {
    RNum(|args[0].items|)
  }

  /** `pop` undoes `cons`. */
  lemma PopCons(x: RVal, l: seq<RVal>)
    ensures Pop([Cons([x, RList(l)])]) == Ok(RList(l))
  {
  }

  /** `cons` adds one to the `count`, and `nth 0` of it is the new head. */
  lemma ConsCountNth(x: RVal, l: seq<RVal>)
    ensures Count([Cons([x, RList(l)])]) == RNum(|l| + 1)
    ensures Nth([Cons([x, RList(l)]), RNum(0)]) == Ok(x)
  {
  }

  // ---- the when macro ----

  /** A copy of `token` with another lexeme (`{ ...token, lexeme }`). */
  function Relexeme(token: Token, lexeme: string): Token
  {
    Token(token.kind, lexeme, token.literal, token.line)
  }

  /** `when` (src/native.ts:199-206) builds `(if test (do body...))`, both
      symbols carrying the call's token. With no argument the test is
      `undefined`, which crashes as soon as the result is read back as
      syntax; the model reports that crash here. */
  function When(args: seq<RVal>, token: Token): (r: Result<RVal>)
    ensures args == [] <==> r.Err?
    ensures r.Ok? ==> r.value.RList? && |r.value.items| == 3
    ensures r.Ok? ==> r.value.items[0] == RSym(Relexeme(token, "if")) && r.value.items[1] == args[0]
    ensures r.Ok? ==> r.value.items[2] == RList([RSym(Relexeme(token, "do"))] + args[1..])
  {
    if args == [] then Err(TypeError(ReadOfUndefined("type")))
    else Ok(RList([RSym(Relexeme(token, "if")), args[0], RList([RSym(Relexeme(token, "do"))] + args[1..])]))
  }

  // ---- dispatch ----

  /** The calls the model does not compute: `=` (it uses the host's deep
      equality), `mod` (the host's floating-point remainder), and `+`/`-`
      on arguments that are not all numbers (the host's coercions). */
  type Foreign = (NativeOp, seq<RVal>) -> Result<RVal>

  /** A native call, after the interpreter's checks. `print` writes to the
      console and returns nil; the output is not modelled. */
  function Apply(op: NativeOp, args: seq<RVal>, foreign: Foreign): (r: Result<RVal>)
    requires Fits(op, args)
    ensures op == Add && AllNumbers(args) ==> r == Ok(RNum(Sum(args)))
    ensures op == Subtract && AllNumbers(args) && args != [] ==> r == Ok(RNum(args[0].n - Sum(args[1..])))
    ensures op == ListOp ==> r == Ok(RList(args))
  {
    match op
    case Add => if AllNumbers(args) then Ok(RNum(Sum(args))) else foreign(op, args)
    case Subtract =>
      if args == [] then Err(TypeError(ReadOfUndefined("value")))
      else if AllNumbers(args) then Ok(RNum(args[0].n - Sum(args[1..])))
      else foreign(op, args)
    case Equals => foreign(op, args)
    case Modulo => foreign(op, args)
    case Negate => Ok(Not(args))
    case AnyOf => Ok(Or(args))
    case AllOf => Ok(And(args))
    case PrintOp => Ok(RNil)
    case ListOp => Ok(RList(args))
    case ConsOp =>
      assert Matches(TList, args[1]);
      Ok(Cons(args))
    case PopOp =>
      assert Matches(TList, args[0]);
      Pop(args)
    case NthOp =>
      assert Matches(TList, args[0]) && Matches(TNumber, args[1]);
      Nth(args)
    case CountOp =>
      assert Matches(TList, args[0]);
      Ok(Count(args))
  }
}
