/** The code generator (src/asm.ts): from the reader's values to x86-64
    instructions, as symbolic data rather than text.

    Every value is one machine word whose three low bits are its tag.
    A `Translator` appends instructions to `asm` and data to `data`,
    draws label numbers from its `id` counter and keeps the current
    scope in `env`. Here each of its `compile_*` methods is specified by
    a function from the translator's state (`TState`) to the state after
    it and the failure, if any; the class itself is in module
    Translators.

    Three places follow a defect of the source when the `Version` is
    `AsWritten` and the evidently intended behaviour when it is
    `Intended`:
    - an integer literal is shifted with JavaScript's 32-bit `<<`, so a
      literal of 2^28 or more in size wraps;
    - `get_mem` reads parameter 5 from `REGISTER_PARAMS[6]`, which does
      not exist, and reads every parameter of a function with six or
      more from where a call leaves a different argument;
    - `compile_fn` copies every captured name into the closure from the
      frame slot its index would have as a local, whatever its kind. */
module Asm {
  import opened Syntax
  import opened Wrappers
  import opened Strings
  import opened TranslatorEnvs

  // ---- tagged words ----

  const TagMask: int := 7
  const NilTag: int := 0
  const BoolTag: int := 1
  const IntTag: int := 2
  const ClosureTag: int := 3
  const ListTag: int := 4
  const StringTag: int := 5
  const Null: int := 0
  /** The word of `true`, which a conditional compares against. */
  const TrueWord: int := 9
  /** `dword 4`: the empty list, a null pointer with the list tag. */
  const EmptyListWord: int := 4

  /** `w & 0b111` of a two's-complement word. */
  function TagOf(w: int): int { w % 8 }

  /** `w >> 3`, the arithmetic shift: the payload. */
  function Payload(w: int): int { w / 8 }

  /** JavaScript's ToInt32: the signed 32-bit integer congruent to `x`. */
  function Int32(x: int): (r: int)
    ensures -0x8000_0000 <= r < 0x8000_0000
    ensures (x - r) % 0x1_0000_0000 == 0
  {
    var u := x % 0x1_0000_0000;
    if u < 0x8000_0000 then u else u - 0x1_0000_0000
  }

  /** `(n << 3) | INT_MASK` as JavaScript computes it: the shift works on
      the 32-bit value of `n` and gives a signed 32-bit result whose
      three low bits are clear, so the `|` adds the tag. */
  function IntWordAsWritten(n: int): int
  {
    Int32(Int32(n) * 8) + IntTag
  }

  /** The tagged 64-bit word of `n`. */
  function IntWord(n: int): int
  {
    n * 8 + IntTag
  }

  function IntWordOf(n: int, ver: Version): int
  {
    if ver == AsWritten then IntWordAsWritten(n) else IntWord(n)
  }

  /** `((b ? 1 : 0) << 3) | BOOL_MASK`. */
  function BoolWord(b: bool): int
  {
    (if b then 1 else 0) * 8 + BoolTag
  }

  /** The word a number, boolean or nil literal loads into `rax` (a
      string loads a pointer the runtime tags). */
  function LiteralWord(v: LVal, ver: Version): int
    requires v.LNum? || v.LBool? || v.LNil?
  {
    match v
    case LNum(n) => IntWordOf(n, ver)
    case LBool(b) => BoolWord(b)
    case LNil => 0
  }

  lemma Int32Small(x: int)
    requires -0x8000_0000 <= x < 0x8000_0000
    ensures Int32(x) == x
  {
  }

  /** Both encodings tag an integer as an integer. */
  lemma IntTagged(n: int, ver: Version)
    ensures TagOf(IntWordOf(n, ver)) == IntTag
  {
    var m := Int32(Int32(n) * 8);
    assert (Int32(n) * 8 - m) % 0x1_0000_0000 == 0;
    assert m % 8 == 0;
  }

  /** The intended encoding round-trips every payload a 64-bit word can
      carry next to its tag. */
  lemma IntWordRoundTrip(n: int)
    requires -0x1000_0000_0000_0000 <= n < 0x1000_0000_0000_0000
    ensures -0x8000_0000_0000_0000 <= IntWord(n) < 0x8000_0000_0000_0000
    ensures TagOf(IntWord(n)) == IntTag && Payload(IntWord(n)) == n
  {
  }

  /** Below 2^28 in size the two encodings agree. */
  lemma AsWrittenAgrees(n: int)
    requires -0x1000_0000 <= n < 0x1000_0000
    ensures IntWordAsWritten(n) == IntWord(n)
  {
    Int32Small(n);
    Int32Small(n * 8);
  }

  /** The literal 2^28 loads the word of -2^28. */
  lemma LargeLiteralWraps()
    ensures IntWordAsWritten(0x1000_0000) == -0x8000_0000 + IntTag
    ensures Payload(IntWordAsWritten(0x1000_0000)) == -0x1000_0000
    ensures Payload(IntWord(0x1000_0000)) == 0x1000_0000
  {
    Int32Small(0x1000_0000);
    assert Int32(0x8000_0000) == -0x8000_0000;
  }

  /** Only `true` loads the word a conditional tests for. */
  lemma OnlyTrueIsTrueWord(v: LVal, ver: Version)
    requires v.LNum? || v.LBool? || v.LNil?
    ensures LiteralWord(v, ver) == TrueWord <==> v == LBool(true)
  {
    if v.LNum? {
      IntTagged(v.n, ver);
    }
  }

  /** The tag check before a call (`rax & 7` against 3) sends every
      literal's word and the empty list to `__error`. */
  lemma LiteralsAreNotClosures(v: LVal, ver: Version)
    requires v.LNum? || v.LBool? || v.LNil?
    ensures TagOf(LiteralWord(v, ver)) != ClosureTag
    ensures TagOf(EmptyListWord) == ListTag && Payload(EmptyListWord) == Null
  {
    if v.LNum? {
      IntTagged(v.n, ver);
    }
  }

  // ---- operands and instructions ----

  datatype Reg = RAX | RBX | RCX | RDX | RSI | RDI | R8 | R9 | RBP | RSP

  /** `REGISTER_PARAMS`: the closure in `rdi`, then the arguments. */
  const RegisterParams: seq<Reg> := [RDI, RSI, RDX, RCX, R8, R9]

  /** The run-time routines the generated code calls or jumps to:
      `__allocate`, `__removeTag`, `__toClosure`, `__toList`,
      `__toString` and `__error`. */
  datatype Routine = Allocate | RemoveTag | ToClosure | ToList | ToString | Fail

  /** An operand. `Ext(r)` is the label of a run-time routine and
      `NativeClosure(n)` the label `__<n>_closure` of a built-in's
      closure. `Mem(base, d)` is `[base+d]` (`[base-|d|]` when `d` is
      negative); `Undefined` is what a template prints for an index past
      the end of `REGISTER_PARAMS`. */
  datatype Operand =
    | R(reg: Reg)
    | Imm(n: int)
    | Dword(n: int)
    | Sym(sym: string)
    | Ext(routine: Routine)
    | NativeClosure(native: string)
    | Mem(base: Reg, disp: int)
    | SymMem(at: string, disp: int)
    | Undefined

  /** `call [rax]` is `Call(Mem(RAX, 0))`. */
  datatype Instr =
    | Mov(dst: Operand, src: Operand)
    | Push(r: Reg)
    | Pop(r: Reg)
    | Call(callee: Operand)
    | BitAnd(r: Reg, other: Reg)
    | BitOr(r: Reg, imm: int)
    | BitXor(r: Reg, other: Reg)
    | Cmp(r: Reg, imm: int)
    | Je(target: string)
    | JneExt(dest: Routine)
    | Jmp(target: string)
    | Label(name: string)
    | AddRsp(bytes: int)
    | Ret

  /** `dq value`, `label: dq "text"`, `label:`. */
  datatype DataItem = Dq(value: Operand) | DqString(name: string, text: string) | DataLabel(name: string)

  /** `REGISTER_PARAMS[i]`. */
  function RegisterParam(i: nat): (r: Operand)
    ensures r.R? <==> i < 6
  {
    if i < |RegisterParams| then R(RegisterParams[i]) else Undefined
  }

  function Min(a: int, b: int): int { if a < b then a else b }

  // ---- addressing ----

  /** `format_mem(reg, index)`: a non-negative index is a slot below the
      frame pointer, a negative one a word above the saved frame pointer
      and the return address. */
  function FormatMem(reg: Reg, index: int): (r: Operand)
    ensures r.Mem? && r.base == reg && r.disp % 8 == 0
    ensures index >= 0 <==> r.disp < 0
    ensures r.disp != 0 && r.disp != 8
  {
    if index >= 0 then Mem(reg, -8 * (index + 1)) else Mem(reg, -8 * (index - 1))
  }

  lemma FormatMemInjective(reg: Reg, a: int, b: int)
    requires FormatMem(reg, a) == FormatMem(reg, b)
    ensures a == b
  {
  }

  /** Where `get_mem` reads parameter `index`, as written. */
  function ParamAsWritten(index: nat): Operand
  {
    if index <= 5 then RegisterParam(index + 1) else Mem(RBP, 8 * (index + 2 - 6))
  }

  /** Where a call leaves argument `index` of `count`: `compile_s` pops
      the last `min(5, count)` arguments into `rsi` onwards and leaves
      the others on the stack, the last of them on top, which the callee
      sees at `[rbp+16]` once it has pushed `rbp` above the return
      address. */
  function ParamAt(count: nat, index: nat): Operand
  {
    var onStack := count - Min(5, count);
    if index >= onStack then RegisterParam(index - onStack + 1)
    else Mem(RBP, 16 + 8 * (onStack - 1 - index))
  }

  function ParamLocation(count: nat, index: nat, ver: Version): Operand
  {
    if ver == AsWritten then ParamAsWritten(index) else ParamAt(count, index)
  }

  /** `get_mem(reg, v)`: load the value of a name into `reg`. `count` is
      the number of parameters of the function being compiled. */
  function GetMem(reg: Reg, v: TEnvVar, count: nat, ver: Version): seq<Instr>
  {
    match v.kind
    case Local => [Mov(R(reg), Mem(RBP, -8 * (v.index + 1)))]
    case Param => [Mov(R(reg), ParamLocation(count, v.index, ver))]
    case Closure => [Mov(R(RAX), R(RDI)), Call(Ext(RemoveTag)), Mov(R(reg), Mem(RAX, 8 * (v.index + 1)))]
    case Func => [Mov(R(reg), Sym(v.name)), BitOr(reg, ClosureTag)]
  }

  /** A local lives in the frame slot `format_mem` names for its index. */
  lemma LocalIsFrameSlot(reg: Reg, v: TEnvVar, count: nat, ver: Version)
    requires v.kind == Local
    ensures GetMem(reg, v, count, ver) == [Mov(R(reg), FormatMem(RBP, v.index))]
  {
  }

  // ---- the calling convention ----

  /** The registers `compile_s` pops arguments into, in the order it pops
      them: the k-th pop fills `REGISTER_PARAMS[min(5, n) - k]`. */
  function ArgPopRegs(n: nat): (r: seq<Reg>)
    ensures |r| == Min(5, n)
  {
    var k := Min(5, n);
    seq(k, i requires 0 <= i < k => RegisterParams[k - i])
  }

  /** Pops into `regs` in turn from `stack`, whose top is its last
      element; `file` maps registers to what they hold. */
  function PopInto(regs: seq<Reg>, stack: seq<nat>, file: map<Reg, nat>): (r: (seq<nat>, map<Reg, nat>))
    requires |regs| <= |stack|
  {
    if regs == [] then (stack, file)
    else PopInto(regs[1..], stack[..|stack| - 1], file[regs[0] := stack[|stack| - 1]])
  }

  predicate DistinctRegs(regs: seq<Reg>)
  {
    forall i, j :: 0 <= i < j < |regs| ==> regs[i] != regs[j]
  }

  /** Popping distinct registers leaves the bottom of the stack and puts
      the k-th value from the top in the k-th register. */
  lemma {:induction false} PopIntoSpec(regs: seq<Reg>, stack: seq<nat>, file: map<Reg, nat>)
    requires |regs| <= |stack| && DistinctRegs(regs)
    ensures PopInto(regs, stack, file).0 == stack[..|stack| - |regs|]
    ensures forall k :: 0 <= k < |regs| ==>
      regs[k] in PopInto(regs, stack, file).1 && PopInto(regs, stack, file).1[regs[k]] == stack[|stack| - 1 - k]
  {
    if regs != [] {
      var stack' := stack[..|stack| - 1];
      var file' := file[regs[0] := stack[|stack| - 1]];
      PopIntoSpec(regs[1..], stack', file');
      var r := PopInto(regs[1..], stack', file');
      assert stack'[..|stack'| - |regs[1..]|] == stack[..|stack| - |regs|];
      forall k | 0 <= k < |regs|
        ensures regs[k] in r.1 && r.1[regs[k]] == stack[|stack| - 1 - k]
      {
        if k > 0 {
          assert regs[1..][k - 1] == regs[k];
        } else {
          assert forall j :: 0 <= j < |regs[1..]| ==> regs[1..][j] != regs[0];
          PopIntoKeeps(regs[1..], stack', file', regs[0]);
        }
      }
    }
  }

  /** A register the pops do not name keeps its value. */
  lemma {:induction false} PopIntoKeeps(regs: seq<Reg>, stack: seq<nat>, file: map<Reg, nat>, x: Reg)
    requires |regs| <= |stack|
    requires forall j :: 0 <= j < |regs| ==> regs[j] != x
    requires x in file
    ensures x in PopInto(regs, stack, file).1 && PopInto(regs, stack, file).1[x] == file[x]
  {
    if regs != [] {
      PopIntoKeeps(regs[1..], stack[..|stack| - 1], file[regs[0] := stack[|stack| - 1]], x);
    }
  }

  /** The stack and registers when a function called with `n` arguments
      starts: argument `j` was pushed `j`-th, then the pops ran. */
  function CallLayout(n: nat): (seq<nat>, map<Reg, nat>)
  {
    PopInto(ArgPopRegs(n), seq(n, j => j), map[])
  }

  /** The argument a callee finds at an operand: a register the pops
      filled, or a stack word above the return address. */
  function CalleeReads(loc: Operand, layout: (seq<nat>, map<Reg, nat>)): Option<nat>
  {
    var rest := layout.0;
    if loc.R? && loc.reg in layout.1 then Some(layout.1[loc.reg])
    else if loc.Mem? && loc.base == RBP && loc.disp >= 16 && (loc.disp - 16) % 8 == 0
      && (loc.disp - 16) / 8 < |rest| then Some(rest[|rest| - 1 - (loc.disp - 16) / 8])
    else None
  }

  lemma ArgPopRegsDistinct(n: nat)
    ensures DistinctRegs(ArgPopRegs(n))
  {
    var regs := ArgPopRegs(n);
    forall i, j | 0 <= i < j < |regs| ensures regs[i] != regs[j] {
      var k := Min(5, n);
      assert regs[i] == RegisterParams[k - i] && regs[j] == RegisterParams[k - j];
    }
  }

  /** Reading every parameter where `ParamAt` says finds the argument
      passed in its position. */
  lemma ParamsAgree(n: nat, j: nat)
    requires j < n
    ensures CalleeReads(ParamAt(n, j), CallLayout(n)) == Some(j)
  {
    var regs := ArgPopRegs(n);
    var stack := seq(n, i => i);
    ArgPopRegsDistinct(n);
    PopIntoSpec(regs, stack, map[]);
    var layout := CallLayout(n);
    var k := Min(5, n);
    var onStack := n - k;
    if j >= onStack {
      var pop := n - 1 - j;
      assert regs[pop] == RegisterParams[j - onStack + 1];
      assert layout.1[regs[pop]] == stack[n - 1 - pop];
    } else {
      assert layout.0 == stack[..onStack];
    }
  }

  /** With five arguments or fewer the source's addressing is the
      convention's. */
  lemma FewParamsAsWritten(n: nat, j: nat)
    requires j < n <= 5
    ensures ParamAsWritten(j) == ParamAt(n, j)
  {
  }

  /** A function of six parameters reads the sixth from no register and
      its first from `rsi`, where the call left the second argument. */
  lemma SixParamsMisread()
    ensures ParamAsWritten(5) == Undefined
    ensures CalleeReads(ParamAsWritten(0), CallLayout(6)) == Some(1)
    ensures CalleeReads(ParamAt(6, 0), CallLayout(6)) == Some(0)
  {
    ParamsAgree(6, 0);
    ParamsAgree(6, 1);
    assert ParamAt(6, 1) == R(RSI);
  }

  /** `count` saved registers pushed in order and popped in reverse
      (`RestoreRegs`) are each restored. */
  function SaveRegs(count: nat): seq<Reg>
    requires count <= 6
  {
    RegisterParams[..count]
  }

  function RestoreRegs(count: nat): (r: seq<Reg>)
    requires count <= 6
    ensures |r| == count
  {
    seq(count, i requires 0 <= i < count => RegisterParams[count - i - 1])
  }

  lemma SavedRegistersRestored(count: nat)
    requires count <= 6
    ensures forall i :: 0 <= i < count ==>
      RegisterParams[i] in PopInto(RestoreRegs(count), seq(count, k => k), map[]).1 &&
      PopInto(RestoreRegs(count), seq(count, k => k), map[]).1[RegisterParams[i]] == i
  {
    var regs := RestoreRegs(count);
    assert DistinctRegs(regs) by {
      forall i, j | 0 <= i < j < |regs| ensures regs[i] != regs[j] {
        assert regs[i] == RegisterParams[count - i - 1] && regs[j] == RegisterParams[count - j - 1];
      }
    }
    PopIntoSpec(regs, seq(count, k => k), map[]);
    forall i | 0 <= i < count
      ensures RegisterParams[i] in PopInto(regs, seq(count, k => k), map[]).1
      ensures PopInto(regs, seq(count, k => k), map[]).1[RegisterParams[i]] == i
    {
      assert regs[count - i - 1] == RegisterParams[i];
    }
  }

  // ---- labels ----

  /** The names `getId` numbers: `label_<id>` and `after_<id>` (jump
      targets), `anon<id>` and `named<id>_<name>` (functions), and
      `string<id>` (string data). */
  datatype LabelKind = IfLabel | AfterLabel | AnonLabel | NamedLabel(fn: string) | StringLabel

  function Prefix(kind: LabelKind): string
  {
    match kind
    case IfLabel => "label_"
    case AfterLabel => "after_"
    case AnonLabel => "anon"
    case NamedLabel(_) => "named"
    case StringLabel => "string"
  }

  function LabelOf(kind: LabelKind, id: nat): string
  {
    if kind.NamedLabel? then "named" + NatToString(id) + "_" + kind.fn
    else Prefix(kind) + NatToString(id)
  }

  /** In `digits + "_" + rest` the first non-digit is the underscore. */
  lemma UnderscoreAfterDigits(a: string, x: string)
    requires AllDigits(a)
    ensures (a + "_" + x)[|a|] == '_'
    ensures forall i :: 0 <= i < |a| ==> (a + "_" + x)[i] == a[i] && IsDigit((a + "_" + x)[i])
  {
  }

  lemma DigitsBeforeUnderscore(a: string, b: string, x: string, y: string)
    requires AllDigits(a) && AllDigits(b) && a + "_" + x == b + "_" + y
    ensures a == b && x == y
  {
    var s, t := a + "_" + x, b + "_" + y;
    UnderscoreAfterDigits(a, x);
    UnderscoreAfterDigits(b, y);
    assert a == s[..|a|] && b == t[..|b|];
    assert x == s[|a| + 1..] && y == t[|b| + 1..];
  }

  /** The first two characters of a label tell its kind. */
  function Head(k: LabelKind): (char, char)
  {
    match k
    case IfLabel => ('l', 'a')
    case AfterLabel => ('a', 'f')
    case AnonLabel => ('a', 'n')
    case NamedLabel(_) => ('n', 'a')
    case StringLabel => ('s', 't')
  }

  lemma LabelHead(k: LabelKind, id: nat)
    ensures |LabelOf(k, id)| >= 2
    ensures LabelOf(k, id)[0] == Head(k).0 && LabelOf(k, id)[1] == Head(k).1
  {
  }

  /** Different numbers, or different kinds, give different labels: the
      labels `getId` hands out are all distinct. */
  lemma LabelOfInjective(k1: LabelKind, a: nat, k2: LabelKind, b: nat)
    requires LabelOf(k1, a) == LabelOf(k2, b)
    ensures a == b && k1 == k2
  {
    LabelHead(k1, a);
    LabelHead(k2, b);
    NatToStringDigits(a);
    NatToStringDigits(b);
    if k1.NamedLabel? != k2.NamedLabel? || (!k1.NamedLabel? && k1 != k2) {
      assert false;
    } else if k1.NamedLabel? {
      var d1, d2 := NatToString(a), NatToString(b);
      assert LabelOf(k1, a)[5..] == d1 + "_" + k1.fn;
      assert LabelOf(k2, b)[5..] == d2 + "_" + k2.fn;
      DigitsBeforeUnderscore(d1, d2, k1.fn, k2.fn);
      if a != b {
        NatToStringInjective(a, b);
      }
    } else if a != b {
      PrefixedDistinct(Prefix(k1), a, b);
    }
  }

  // ---- what each compile method does to the translator ----

  /** The fields of a `Translator`. */
  datatype TState = TState(env: TEnv, id: nat, asm: seq<Instr>, data: seq<DataItem>)

  /** A new `Translator`. */
  const Start := TState(Empty, 0, [], [])

  function Emit(s: TState, code: seq<Instr>): TState
  {
    s.(asm := s.asm + code)
  }

  /** Emitting `a` and then `b` is emitting `a + b`. */
  lemma EmitEmit(s: TState, a: seq<Instr>, b: seq<Instr>)
    ensures Emit(Emit(s, a), b) == Emit(s, a + b)
  {
    assert s.asm + a + b == s.asm + (a + b);
  }

  /** `nativeMap`: the built-ins a program reaches through closures the
      runtime provides. */
  function Native(name: string): Option<string>
  {
    if name == "+" then Some("plus")
    else if name == "-" then Some("minus")
    else if name == "=" then Some("eq")
    else if name == "peek" || name == "pop" || name == "nth" || name == "cons" || name == "count" || name == "print" then Some(name)
    else None
  }

  /** How many argument registers hold live values: the parameters, and
      `rdi` when the frame has closure variables. */
  function LiveRegs(t: Tracker): nat
  {
    t.params + (if t.closures > 0 then 1 else 0)
  }

  function SavePushes(count: nat): (r: seq<Instr>)
    requires count <= 6
    ensures |r| == count
  {
    seq(count, i requires 0 <= i < count => Push(RegisterParams[i]))
  }

  function RestorePops(count: nat): (r: seq<Instr>)
    requires count <= 6
    ensures |r| == count
  {
    seq(count, i requires 0 <= i < count => Pop(RestoreRegs(count)[i]))
  }

  function ArgPops(n: nat): (r: seq<Instr>)
    ensures |r| == Min(5, n)
  {
    seq(Min(5, n), i requires 0 <= i < Min(5, n) => Pop(ArgPopRegs(n)[i]))
  }

  /** `rax & 7` must be the closure tag, or control goes to `__error`. */
  const TagCheck: seq<Instr> := [Mov(R(RBX), Imm(TagMask)), BitAnd(RBX, RAX), Cmp(RBX, ClosureTag), JneExt(Fail)]

  /** What `compile_s` emits once the callee is in `rax`. */
  function CallTail(n: nat, saved: nat): seq<Instr>
    requires saved <= 6
  {
    TagCheck + [Mov(R(RDI), R(RAX))] + ArgPops(n) + [Call(Ext(RemoveTag)), Call(Mem(RAX, 0))]
    + (if n > 5 then [AddRsp((n - 5) * 8)] else []) + RestorePops(saved)
  }

  /** Cell `i` of a list of `n`: allocate it, pop the cell after it
      (none for the first, which is the last element) and the value,
      fill it, and push it unless it is the head. */
  function ListNode(i: nat, n: nat): seq<Instr>
  {
    [Mov(R(RAX), Imm(16)), Call(Ext(Allocate))]
    + (if i == 0 then [] else [Pop(RCX)])
    + [Pop(RBX), Mov(Mem(RAX, 0), R(RBX)), Mov(Mem(RAX, 8), if i == 0 then Dword(Null) else R(RCX))]
    + (if i < n - 1 then [Push(RAX)] else [])
  }

  function ListNodes(k: nat, n: nat): seq<Instr>
  {
    if k == 0 then [] else ListNodes(k - 1, n) + ListNode(k - 1, n)
  }

  /** `compile_literal`. */
  function EmitLiteral(e: LVal, s: TState, ver: Version): (r: TState)
    requires e.IsLiteral()
    ensures r.env == s.env
    ensures e.LNum? || e.LBool? ==> r == Emit(s, [Mov(R(RAX), Imm(LiteralWord(e, ver)))])
    ensures e.LNil? ==> r == Emit(s, [BitXor(RAX, RAX)]) && LiteralWord(e, ver) == 0
  {
    match e
    case LNum(n) => Emit(s, [Mov(R(RAX), Imm(IntWordOf(n, ver)))])
    case LBool(b) => Emit(s, [Mov(R(RAX), Imm(BoolWord(b)))])
    case LStr(text) =>
      var name := LabelOf(StringLabel, s.id + 1);
      TState(s.env, s.id + 1, s.asm + [Mov(R(RAX), Sym(name)), Call(Ext(ToString))],
        s.data + [Dq(Imm(|text|)), DqString(name, text)])
    case LNil => Emit(s, [BitXor(RAX, RAX)])
  }

  /** `compile_symbol`: a built-in's closure, or the name's value. */
  function EmitSymbol(tok: Token, s: TState, ver: Version): (r: (TState, Option<Fault>))
    ensures r.0.env == s.env && r.0.id == s.id && r.0.data == s.data
    ensures r.1.Some? <==> Native(tok.lexeme).None? && Lookup(s.env, tok.lexeme).None?
    ensures r.1.Some? ==> r.1.value == RuntimeError(Unresolved(tok.lexeme)) && r.0 == s
  {
    match Native(tok.lexeme)
    case Some(n) => (Emit(s, [Mov(R(RAX), NativeClosure(n)), Call(Ext(ToClosure))]), None)
    case None =>
      match Retrieve(s.env, tok)
      case Err(f) => (s, Some(f))
      case Ok(v) => (Emit(s, GetMem(RAX, v, s.env.tracker.params, ver)), None)
  }

  /** `compile_vector`: only the empty vector emits anything. */
  function EmitVector(items: seq<LVal>, s: TState): (r: TState)
    ensures r.env == s.env
  {
    if items == [] then Emit(s, [Mov(R(RAX), Dword(EmptyListWord))]) else s
  }

  /** `compile_primary`: a quoted value. */
  function EmitPrimary(e: LVal, s: TState, ver: Version): (r: (TState, Option<Fault>))
    ensures r.1.None? ==> r.0.env == s.env
    decreases Size(e), 0
  {
    match e
    case LSym(tok) => EmitSymbol(tok, s, ver)
    case LVector(items, _) => (EmitVector(items, s), None)
    case LList(items, _) => EmitList(items, s, ver)
    case _ => (EmitLiteral(e, s, ver), None)
  }

  /** `compile_list`: build the cells from the last element to the
      first, between saving and restoring the live argument registers. */
  function EmitList(items: seq<LVal>, s: TState, ver: Version): (r: (TState, Option<Fault>))
    ensures r.1.None? ==> r.0.env == s.env
    decreases SizeAll(items), 2
  {
    if items == [] then (Emit(s, [Mov(R(RAX), Dword(EmptyListWord))]), None)
    else
      var saved := Min(4, LiveRegs(s.env.tracker));
      assert items[0..] == items;
      var (s1, err) := EmitChildren(items, 0, Emit(s, SavePushes(saved)), ver);
      if err.Some? then (s1, err)
      else (Emit(s1, ListNodes(|items|, |items|) + RestorePops(saved) + [Call(Ext(ToList))]), None)
  }

  /** The loop of `compile_list` that computes and pushes the elements,
      from element `i` on. */
  function EmitChildren(items: seq<LVal>, i: nat, s: TState, ver: Version): (r: (TState, Option<Fault>))
    requires i <= |items|
    ensures r.1.None? ==> r.0.env == s.env
    decreases SizeAll(items[i..]), 1
  {
    if i == |items| then (s, None)
    else
      SizeAllFrom(items, i);
      var (s1, err) := EmitPrimary(items[i], s, ver);
      if err.Some? then (s1, err)
      else EmitChildren(items, i + 1, Emit(s1, [Push(RAX)]), ver)
  }

  /** What `compile_expr` does with a list headed by `op`: a special
      form named by a symbol, a call of a symbol or of a list, or a
      failure for any other head. */
  datatype Form = Quote | IfForm | FnForm | LetForm | DoForm | Apply | NotAForm

  function FormOf(op: LVal): (r: Form)
    ensures r in {Quote, IfForm, FnForm, LetForm, DoForm} ==> op.LSym?
    ensures r == NotAForm <==> !op.LSym? && !op.LList?
  {
    if op.LSym? then
      var name := op.tok.lexeme;
      if name == "quote" then Quote
      else if name == "if" then IfForm
      else if name == "fn" then FnForm
      else if name == "let" then LetForm
      else if name == "do" then DoForm
      else Apply
    else if op.LList? then Apply
    else NotAForm
  }

  /** `compile_expr`. */
  function EmitExpr(e: LVal, s: TState, ver: Version): (r: (TState, Option<Fault>))
    ensures r.1.None? ==> r.0.env == s.env
    decreases Size(e), 0
  {
    match e
    case LSym(tok) => EmitSymbol(tok, s, ver)
    case LVector(items, _) => (EmitVector(items, s), None)
    case LList(items, _) =>
      if items == [] then (s, Some(ExpectedSymbol))
      else
        var op, args := items[0], items[1..];
        SizeAllFrom(items, 0);
        assert items[0..] == items;
        (match FormOf(op)
        case Quote => if args == [] then (s, None) else SizeAllElem(args, 0); EmitPrimary(args[0], s, ver)
        case IfForm => EmitIf(op.tok, args, s, ver)
        case FnForm => EmitFn(op.tok, args, s, ver)
        case LetForm => EmitLet(op.tok, args, s, ver)
        case DoForm => EmitDo(args, s, ver)
        case Apply => EmitS(op, args, s, ver)
        case NotAForm => (s, Some(ExpectedSymbol)))
    case _ => (EmitLiteral(e, s, ver), None)
  }

  /** `compile_s`: a call. */
  function EmitS(op: LVal, args: seq<LVal>, s: TState, ver: Version): (r: (TState, Option<Fault>))
    ensures r.1.None? ==> r.0.env == s.env
    decreases Size(op) + SizeAll(args), 1
  {
    var saved := 1 + Min(5, LiveRegs(s.env.tracker));
    assert args[0..] == args;
    var (s1, err) := EmitArgs(args, 0, Emit(s, SavePushes(saved)), ver);
    if err.Some? then (s1, err)
    else
      var (s2, err2) := EmitExpr(op, s1, ver);
      if err2.Some? then (s2, err2)
      else (Emit(s2, CallTail(|args|, saved)), None)
  }

  /** The loop of `compile_s` that computes and pushes the arguments,
      from argument `i` on. */
  function EmitArgs(args: seq<LVal>, i: nat, s: TState, ver: Version): (r: (TState, Option<Fault>))
    requires i <= |args|
    ensures r.1.None? ==> r.0.env == s.env
    decreases SizeAll(args[i..]), 1
  {
    if i == |args| then (s, None)
    else
      SizeAllFrom(args, i);
      var (s1, err) := EmitExpr(args[i], s, ver);
      if err.Some? then (s1, err)
      else EmitArgs(args, i + 1, Emit(s1, [Push(RAX)]), ver)
  }

  /** `compile_if`: the false branch (nil when absent) falls through,
      the true branch is jumped to when the condition is `true`. */
  function EmitIf(op: Token, args: seq<LVal>, s: TState, ver: Version): (r: (TState, Option<Fault>))
    ensures r.1.None? ==> r.0.env == s.env
    decreases SizeAll(args), 1
  {
    if |args| < 2 || |args| > 3 then (s, Some(RuntimeError(ArgCountAt(op, |args|))))
    else
      var onTrue, after := LabelOf(IfLabel, s.id + 1), LabelOf(IfLabel, s.id + 2);
      SizeAllEach(args);
      var (s1, e1) := EmitExpr(args[0], s.(id := s.id + 2), ver);
      if e1.Some? then (s1, e1)
      else
        var (s2, e2) := EmitExpr(if |args| == 3 then args[2] else LNil, Emit(s1, [Cmp(RAX, TrueWord), Je(onTrue)]), ver);
        if e2.Some? then (s2, e2)
        else
          var (s3, e3) := EmitExpr(args[1], Emit(s2, [Jmp(after), Label(onTrue)]), ver);
          if e3.Some? then (s3, e3)
          else (Emit(s3, [Label(after)]), None)
  }

  /** `compile_let`. The bindings run in a copy of the scope; only the
      body is inside the `try`, so only after it is the scope restored,
      whether or not it fails. */
  function EmitLet(op: Token, args: seq<LVal>, s: TState, ver: Version): (r: (TState, Option<Fault>))
    ensures r.1.None? ==> r.0.env == s.env
    ensures |args| != 2 ==> r == (s, Some(RuntimeError(ArgCountAt(op, |args|))))
    ensures |args| == 2 && (!args[0].LVector? || |args[0].items| % 2 != 0) ==> r == (s, Some(RuntimeError(BindingsOdd(op))))
    decreases SizeAll(args), 1
  {
    if |args| != 2 then (s, Some(RuntimeError(ArgCountAt(op, |args|))))
    else if !args[0].LVector? || |args[0].items| % 2 != 0 then (s, Some(RuntimeError(BindingsOdd(op))))
    else
      var bindings := args[0].items;
      SizeAllEach(args);
      assert bindings[0..] == bindings;
      var (s1, e1) := EmitBindings(op, bindings, 0, s.(env := Nested(s.env, true)), ver);
      if e1.Some? then (s1, e1)
      else
        var (s2, e2) := EmitExpr(args[1], s1, ver);
        if e2.Some? then (s2.(env := s.env), e2)
        else (Emit(s2, [AddRsp(s1.env.tracker.locals * 8)]).(env := s.env), None)
  }

  /** Once its bindings are compiled, `compile_let` gives back the
      enclosing scope whether its body compiles or fails: the `finally`
      restores it. Only a failing binding, outside the `try`, leaves the
      nested scope in place. */
  lemma EmitLetRestores(op: Token, args: seq<LVal>, s: TState, ver: Version)
    requires |args| == 2 && args[0].LVector? && |args[0].items| % 2 == 0
    requires EmitBindings(op, args[0].items, 0, s.(env := Nested(s.env, true)), ver).1.None?
    ensures EmitLet(op, args, s, ver).0.env == s.env
  {
    assert args[0].items[0..] == args[0].items;
  }

  /** The loop of `compile_let` from the pair at `i` on: compute the
      value, push it, and bind the name to the next local slot. */
  function EmitBindings(op: Token, items: seq<LVal>, i: nat, s: TState, ver: Version): (r: (TState, Option<Fault>))
    requires i <= |items| && (|items| - i) % 2 == 0
    ensures r.1.None? ==> 2 * (r.0.env.tracker.locals - s.env.tracker.locals) == |items| - i
    decreases SizeAll(items[i..]), 1
  {
    if i == |items| then (s, None)
    else if !items[i].LSym? then (s, Some(RuntimeError(BindingKeyNotSymbol(op))))
    else
      PairShrinks(items, i);
      var (s1, e1) := EmitExpr(items[i + 1], s, ver);
      if e1.Some? then (s1, e1)
      else EmitBindings(op, items, i + 2, Emit(s1, [Push(RAX)]).(env := Bind(s1.env, items[i].tok.lexeme, Local, "")), ver)
  }

  /** From a position an even count before the end, there is a
      binding to take, an even count remains after it, and both its value
      and the rest are smaller than what was left. */
  lemma PairShrinks(items: seq<LVal>, i: nat)
    requires i < |items| && (|items| - i) % 2 == 0
    ensures i + 2 <= |items| && (|items| - (i + 2)) % 2 == 0
    ensures Size(items[i + 1]) < SizeAll(items[i..])
    ensures SizeAll(items[i + 2..]) < SizeAll(items[i..])
  {
    SizeAllFrom(items, i);
    SizeAllFrom(items, i + 1);
  }

  /** The scope of a function body: the names of the enclosing frame as
      closure slots, then the parameters, then the function's own name. */
  function FnScope(enclosing: TEnv, params: seq<string>, name: Option<string>, closure: string): TEnv
  {
    var frame := FrameOf(Keys(enclosing.symbols), params);
    if name.Some? then Bind(frame, name.value, Func, closure) else frame
  }

  /** Copy the `i`-th name of the enclosing frame into slot `i + 1` of
      the closure `closure`. */
  function CaptureCopy(v: TEnvVar, i: nat, closure: string, count: nat, ver: Version): seq<Instr>
  {
    var store := Mov(SymMem(closure, 8 * (i + 1)), R(RAX));
    if v.kind == Func then [Mov(R(RAX), Sym(v.name)), Call(Ext(ToClosure)), store]
    else if ver == AsWritten then [Mov(R(RAX), FormatMem(RBP, v.index)), store]
    else GetMem(RAX, v, count, ver) + [store]
  }

  function CaptureCopies(es: seq<Entry>, closure: string, count: nat, ver: Version): seq<Instr>
  {
    if es == [] then []
    else CaptureCopies(es[..|es| - 1], closure, count, ver) + CaptureCopy(es[|es| - 1].v, |es| - 1, closure, count, ver)
  }

  /** The copies of the first `i + 1` names are those of the first `i`
      and then that of name `i`. */
  lemma CaptureCopiesNext(es: seq<Entry>, i: nat, closure: string, count: nat, ver: Version)
    requires i < |es|
    ensures CaptureCopies(es[..i + 1], closure, count, ver)
      == CaptureCopies(es[..i], closure, count, ver) + CaptureCopy(es[i].v, i, closure, count, ver)
  {
    assert es[..i + 1][..i] == es[..i];
  }

  /** In a named function's scope its own name is the closure's label. */
  lemma FnScopeSelf(enclosing: TEnv, params: seq<string>, name: Option<string>, closure: string)
    requires name.Some?
    ensures Lookup(FnScope(enclosing, params, name, closure), name.value) == Some(TEnvVar(Func, 0, closure))
  {
    var frame := FrameOf(Keys(enclosing.symbols), params);
    assert frame.tracker.Of(Func) == 0;
    BindFinds(frame, name.value, Func, closure);
  }

  /** Parameter `j`, unless a later parameter or the function's name
      repeats it, is parameter number `j` of the body. */
  lemma FnScopeParam(enclosing: TEnv, params: seq<string>, name: Option<string>, closure: string, j: nat)
    requires j < |params|
    requires forall k :: j < k < |params| ==> params[k] != params[j]
    requires name != Some(params[j])
    ensures Lookup(FnScope(enclosing, params, name, closure), params[j]) == Some(TEnvVar(Param, j, ""))
  {
    var frame := FrameOf(Keys(enclosing.symbols), params);
    FrameParam(Keys(enclosing.symbols), params, j);
    if name.Some? {
      BindOther(frame, name.value, Func, closure, params[j]);
    }
  }

  /** The `i`-th name of the enclosing frame, unless a parameter or the
      function's name shadows it, is closure slot `i` of the body. */
  lemma FnScopeCaptured(enclosing: TEnv, params: seq<string>, name: Option<string>, closure: string, i: nat)
    requires i < |enclosing.symbols| && DistinctKeys(enclosing.symbols)
    requires enclosing.symbols[i].key !in params && name != Some(enclosing.symbols[i].key)
    ensures Lookup(FnScope(enclosing, params, name, closure), enclosing.symbols[i].key) == Some(TEnvVar(Closure, i, ""))
  {
    var keys := Keys(enclosing.symbols);
    var frame := FrameOf(keys, params);
    assert keys[i] == enclosing.symbols[i].key;
    FrameCaptured(keys, params, i);
    if name.Some? {
      BindOther(frame, name.value, Func, closure, keys[i]);
    }
  }

  /** `compile_fn` stores the `i`-th captured value at offset `8(i+1)`
      of the closure, and the body reads closure slot `i`, which that
      name becomes (`FnScopeCaptured`), at the same offset of the
      closure it is running. */
  lemma CaptureSlotAgrees(v: TEnvVar, i: nat, closure: string, reg: Reg, count: nat, ver: Version)
    ensures var copy := CaptureCopy(v, i, closure, count, ver);
      copy[|copy| - 1] == Mov(SymMem(closure, 8 * (i + 1)), R(RAX))
    ensures GetMem(reg, TEnvVar(Closure, i, ""), count, ver)[2] == Mov(R(reg), Mem(RAX, 8 * (i + 1)))
  {
  }

  /** In `(fn [x] (fn [] x))` the inner closure copies `x` from the
      frame slot `[rbp-8]`, where the call left no argument, rather than
      from `rsi`, where it left `x`. */
  lemma CapturedParamAsWritten()
    ensures CaptureCopy(TEnvVar(Param, 0, ""), 0, "anon4_closure", 1, AsWritten)[0] == Mov(R(RAX), Mem(RBP, -8))
    ensures CalleeReads(Mem(RBP, -8), CallLayout(1)) == None
    ensures CalleeReads(ParamAt(1, 0), CallLayout(1)) == Some(0)
  {
    ParamsAgree(1, 0);
  }

  /** Corrected, a captured parameter is copied from where the call left
      that argument. */
  lemma CapturedParamIntended(v: TEnvVar, i: nat, closure: string, n: nat)
    requires v.kind == Param && v.index < n
    ensures CaptureCopy(v, i, closure, n, Intended)[0] == Mov(R(RAX), ParamAt(n, v.index))
    ensures CalleeReads(ParamAt(n, v.index), CallLayout(n)) == Some(v.index)
  {
    ParamsAgree(n, v.index);
  }

  /** What `compile_fn` takes from its arguments: the parameter names,
      the function's own name when the first argument is a symbol, and
      the body, which a named function with no third argument lacks. */
  datatype FnHead = FnHead(params: seq<string>, name: Option<string>, body: Option<LVal>)

  /** The checks at the top of `compile_fn`: at least two arguments, then
      a vector of symbols for the parameters. */
  function FnParts(op: Token, args: seq<LVal>): (r: Result<FnHead>)
    ensures |args| < 2 ==> r == Err(RuntimeError(ArgCountAt(op, |args|)))
    ensures |args| >= 2 ==>
      var params := if args[0].LSym? then args[1] else args[0];
      (r.Ok? <==> params.LVector? && AllSymbols(params.items)) &&
      (r.Err? ==> r.fault == RuntimeError(ParamsNotVector(op))) &&
      (r.Ok? ==> r.value.params == Lexemes(params.items))
    ensures r.Ok? ==> (r.value.name.Some? <==> args[0].LSym?)
    ensures r.Ok? && r.value.name.Some? ==> r.value.name.value == args[0].tok.lexeme
    ensures r.Ok? ==> r.value.body == if !args[0].LSym? then Some(args[1]) else if |args| > 2 then Some(args[2]) else None
    ensures r.Ok? ==> (if r.value.body.Some? then Size(r.value.body.value) else 0) < SizeAll(args)
  {
    if |args| < 2 then Err(RuntimeError(ArgCountAt(op, |args|)))
    else
      var named := args[0].LSym?;
      var params := if named then args[1] else args[0];
      if !params.LVector? || !AllSymbols(params.items) then Err(RuntimeError(ParamsNotVector(op)))
      else
        SizeAllFrom(args, 0);
        SizeAllFrom(args, 1);
        SizeAllEach(args[2..]);
        Ok(FnHead(Lexemes(params.items), if named then Some(args[0].tok.lexeme) else None,
          if !named then Some(args[1]) else if |args| > 2 then Some(args[2]) else None))
  }

  /** `anon<id>` or `named<id>_<name>`. */
  function FnLabel(name: Option<string>, id: nat): string
  {
    match name
    case None => LabelOf(AnonLabel, id)
    case Some(n) => LabelOf(NamedLabel(n), id)
  }

  /** `compile_fn`: the closure's data, the copies of the captured
      values, and the body, which is jumped around. */
  function EmitFn(op: Token, args: seq<LVal>, s: TState, ver: Version): (r: (TState, Option<Fault>))
    ensures r.1.None? ==> r.0.env == s.env
    decreases SizeAll(args), 2
  {
    match FnParts(op, args)
    case Err(f) => (s, Some(f))
    case Ok(h) =>
      EmitFnBody(h.body, s.(id := s.id + 2), h.params, h.name, LabelOf(AfterLabel, s.id + 1), FnLabel(h.name, s.id + 2), ver)
  }

  /** `compile_fn` of a well-formed function literal draws its two
      labels and goes on with `EmitFnBody`. */
  lemma EmitFnOk(op: Token, args: seq<LVal>, s: TState, ver: Version, h: FnHead)
    requires FnParts(op, args) == Ok(h)
    ensures EmitFn(op, args, s, ver) ==
      EmitFnBody(h.body, s.(id := s.id + 2), h.params, h.name, LabelOf(AfterLabel, s.id + 1), FnLabel(h.name, s.id + 2), ver)
  {
  }

  /** The translator as `compile_fn` enters the body: the closure's
      data, the copies of the enclosing scope's values into it, the jump
      around the body, the body's label and frame set-up, and the body's
      scope. */
  function FnStart(s: TState, params: seq<string>, name: Option<string>, after: string, fn: string, ver: Version): TState
  {
    var closure := fn + "_closure";
    TState(
      FnScope(s.env, params, name, closure),
      s.id,
      s.asm + CaptureCopies(s.env.symbols, closure, s.env.tracker.params, ver)
        + [Jmp(after), Label(fn), Push(RBP), Mov(R(RBP), R(RSP))],
      s.data + [DataLabel(closure), Dq(Sym(fn))] + ClosureSlots(|s.env.symbols|))
  }

  /** One `dq 0` for each captured name, filled in by the copies. */
  function ClosureSlots(n: nat): (r: seq<DataItem>)
    ensures |r| == n && forall i :: 0 <= i < n ==> r[i] == Dq(Imm(0))
  {
    seq(n, _ => Dq(Imm(0)))
  }

  /** `compile_fn` once its labels are drawn: the closure and the entry
      into the body's scope (`FnStart`), then the `try` (`EmitFnTry`). */
  function EmitFnBody(body: Option<LVal>, s: TState, params: seq<string>, name: Option<string>, after: string, fn: string, ver: Version): (r: (TState, Option<Fault>))
    ensures r.0.env == s.env
    decreases if body.Some? then Size(body.value) else 0, 2
  {
    EmitFnTry(body, FnStart(s, params, name, after, fn, ver), s.env, after, fn + "_closure", ver)
  }

  /** The `try` of `compile_fn`: the body, if there is one, then the
      return and the closure value; the enclosing scope comes back
      whether or not the body fails. */
  function EmitFnTry(body: Option<LVal>, s: TState, enclosing: TEnv, after: string, closure: string, ver: Version): (r: (TState, Option<Fault>))
    ensures r.0.env == enclosing
    decreases if body.Some? then Size(body.value) else 0, 1
  {
    var (s1, err) := if body.None? then (s, None) else EmitExpr(body.value, s, ver);
    if err.Some? then (s1.(env := enclosing), err)
    else (Emit(s1, [Pop(RBP), Ret, Label(after), Mov(R(RAX), Sym(closure)), Call(Ext(ToClosure))]).(env := enclosing), None)
  }

  /** `compile_do`. */
  function EmitDo(args: seq<LVal>, s: TState, ver: Version): (r: (TState, Option<Fault>))
    ensures r.1.None? ==> r.0.env == s.env
    decreases SizeAll(args), 2
  {
    if args == [] then (Emit(s, [Mov(R(RAX), Imm(0))]), None)
    else
      assert args[0..] == args;
      EmitSeq(args, 0, s, ver)
  }

  /** The loop of `compile_do` from form `i` on. */
  function EmitSeq(args: seq<LVal>, i: nat, s: TState, ver: Version): (r: (TState, Option<Fault>))
    requires i <= |args|
    ensures r.1.None? ==> r.0.env == s.env
    decreases SizeAll(args[i..]), 1
  {
    if i == |args| then (s, None)
    else
      SizeAllFrom(args, i);
      var (s1, err) := EmitExpr(args[i], s, ver);
      if err.Some? then (s1, err)
      else EmitSeq(args, i + 1, s1, ver)
  }

  /** The loop of `compile` from form `i` on. */
  function EmitProgram(program: seq<LVal>, i: nat, s: TState, ver: Version): (r: (TState, Option<Fault>))
    requires i <= |program|
    ensures r.1.None? ==> r.0.env == s.env
    decreases |program| - i
  {
    if i == |program| then (s, None)
    else
      var (s1, err) := EmitExpr(program[i], s, ver);
      if err.Some? then (s1, err)
      else EmitProgram(program, i + 1, s1, ver)
  }
}
