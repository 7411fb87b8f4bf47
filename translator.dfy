/** The `Translator` class of src/asm.ts: the object that walks the
    reader's values and appends x86-64 instructions to `asm` and data to
    `data`, numbering labels with `id` and tracking names in `env`.

    Each `compile_*` method is proved to leave the translator in the
    state, and to fail with the error, that the function of module Asm
    of the same name computes from the state before it; the properties
    of those functions (module AsmStack, and the lemmas of module Asm)
    are therefore properties of the class. A thrown error is returned as
    `Some(fault)`; the translator is left as it was at the `throw`, with
    the scope restored only where a `finally` restores it. */
module Translators {
  import opened Syntax
  import opened Wrappers
  import opened TranslatorEnvs
  import opened Asm

  class Translator {
    var env: TEnv
    var id: nat
    var asm: seq<Instr>
    var data: seq<DataItem>
    /** Which reading of the three defects the generated code follows. */
    const ver: Version

    /** The fields, as a value. */
    function State(): TState
      reads this
    {
      TState(env, id, asm, data)
    }

    constructor(ver: Version)
      ensures State() == Start && this.ver == ver
    {
      env, id, asm, data := Empty, 0, [], [];
      this.ver := ver;
    }

    /** `getId`: the next label number. */
    method GetId() returns (n: nat)
      modifies this
      ensures n == id == old(id) + 1
      ensures env == old(env) && asm == old(asm) && data == old(data)
    {
      id := id + 1;
      n := id;
    }

    /** `compile_literal`. */
    method CompileLiteral(e: LVal)
      requires e.IsLiteral()
      modifies this
      ensures State() == EmitLiteral(e, old(State()), ver)
    {
      if e.LNum? {
        asm := asm + [Mov(R(RAX), Imm(IntWordOf(e.n, ver)))];
      } else if e.LBool? {
        asm := asm + [Mov(R(RAX), Imm(BoolWord(e.b)))];
      } else if e.LStr? {
        var n := GetId();
        var name := LabelOf(StringLabel, n);
        data := data + [Dq(Imm(|e.s|)), DqString(name, e.s)];
        asm := asm + [Mov(R(RAX), Sym(name)), Call(Ext(ToString))];
      } else {
        asm := asm + [BitXor(RAX, RAX)];
      }
    }

    /** `compile_symbol`. */
    method CompileSymbol(tok: Token) returns (err: Option<Fault>)
      modifies this
      ensures (State(), err) == EmitSymbol(tok, old(State()), ver)
    {
      var native := Native(tok.lexeme);
      if native.Some? {
        asm := asm + [Mov(R(RAX), NativeClosure(native.value)), Call(Ext(ToClosure))];
        return None;
      }
      var entry := Retrieve(env, tok);
      if entry.Err? {
        return Some(entry.fault);
      }
      asm := asm + GetMem(RAX, entry.value, env.tracker.params, ver);
      return None;
    }

    /** `compile_vector`. */
    method CompileVector(items: seq<LVal>)
      modifies this
      ensures State() == EmitVector(items, old(State()))
    {
      if |items| == 0 {
        asm := asm + [Mov(R(RAX), Dword(EmptyListWord))];
      }
    }

    /** `compile_primary`. */
    method CompilePrimary(e: LVal) returns (err: Option<Fault>)
      modifies this
      ensures (State(), err) == EmitPrimary(e, old(State()), ver)
      decreases Size(e), 0
    {
      match e
      case LSym(tok) =>
        err := CompileSymbol(tok);
      case LVector(items, _) =>
        CompileVector(items);
        err := None;
      case LList(items, _) =>
        err := CompileList(items);
      case _ =>
        CompileLiteral(e);
        err := None;
    }

    /** The loop of `compile_list` and `compile_s` that saves the first
        `count` argument registers, in order. */
    method SaveRegisters(count: nat)
      requires count <= 6
      modifies this
      ensures State() == Emit(old(State()), SavePushes(count))
    {
      ghost var s0 := State();
      var i := 0;
      while i < count
        invariant i <= count
        invariant State() == Emit(s0, SavePushes(count)[..i])
      {
        assert SavePushes(count)[..i + 1] == SavePushes(count)[..i] + [Push(RegisterParams[i])];
        asm := asm + [Push(RegisterParams[i])];
        i := i + 1;
      }
      assert SavePushes(count)[..count] == SavePushes(count);
    }

    /** The loop that restores them, in reverse. */
    method RestoreRegisters(count: nat)
      requires count <= 6
      modifies this
      ensures State() == Emit(old(State()), RestorePops(count))
    {
      ghost var s0 := State();
      var i := 0;
      while i < count
        invariant i <= count
        invariant State() == Emit(s0, RestorePops(count)[..i])
      {
        assert RestoreRegs(count)[i] == RegisterParams[count - i - 1];
        assert RestorePops(count)[..i + 1] == RestorePops(count)[..i] + [Pop(RegisterParams[count - i - 1])];
        asm := asm + [Pop(RegisterParams[count - i - 1])];
        i := i + 1;
      }
      assert RestorePops(count)[..count] == RestorePops(count);
    }

    /** The loop of `compile_list` that computes and pushes each element. */
    method PushChildren(items: seq<LVal>) returns (err: Option<Fault>)
      modifies this
      ensures (State(), err) == EmitChildren(items, 0, old(State()), ver)
      decreases SizeAll(items), 1
    {
      ghost var s0 := State();
      SizeAllEach(items);
      assert items[0..] == items;
      var i := 0;
      while i < |items|
        invariant i <= |items|
        invariant EmitChildren(items, i, State(), ver) == EmitChildren(items, 0, s0, ver)
      {
        ghost var before := State();
        SizeAllFrom(items, i);
        err := CompilePrimary(items[i]);
        if err.Some? {
          assert EmitChildren(items, i, before, ver) == (State(), err);
          return;
        }
        asm := asm + [Push(RAX)];
        i := i + 1;
      }
      err := None;
    }

    /** The loop of `compile_list` that builds the cells, last element
        first. */
    method BuildCells(n: nat)
      modifies this
      ensures State() == Emit(old(State()), ListNodes(n, n))
    {
      ghost var s0 := State();
      var i := 0;
      while i < n
        invariant i <= n
        invariant State() == Emit(s0, ListNodes(i, n))
      {
        asm := asm + ListNode(i, n);
        i := i + 1;
      }
    }

    /** `compile_list`. */
    method CompileList(items: seq<LVal>) returns (err: Option<Fault>)
      modifies this
      ensures (State(), err) == EmitList(items, old(State()), ver)
      decreases SizeAll(items), 2
    {
      if |items| == 0 {
        asm := asm + [Mov(R(RAX), Dword(EmptyListWord))];
        return None;
      }
      var saved := Min(4, LiveRegs(env.tracker));
      SaveRegisters(saved);
      err := PushChildren(items);
      if err.Some? {
        return;
      }
      ghost var s2 := State();
      BuildCells(|items|);
      RestoreRegisters(saved);
      asm := asm + [Call(Ext(ToList))];
      EmitEmit(s2, ListNodes(|items|, |items|), RestorePops(saved));
      EmitEmit(s2, ListNodes(|items|, |items|) + RestorePops(saved), [Call(Ext(ToList))]);
    }

    /** The loop of `compile_s` that computes and pushes each argument. */
    method PushArgs(args: seq<LVal>) returns (err: Option<Fault>)
      modifies this
      ensures (State(), err) == EmitArgs(args, 0, old(State()), ver)
      decreases SizeAll(args), 1
    {
      ghost var s0 := State();
      SizeAllEach(args);
      assert args[0..] == args;
      var i := 0;
      while i < |args|
        invariant i <= |args|
        invariant EmitArgs(args, i, State(), ver) == EmitArgs(args, 0, s0, ver)
      {
        ghost var before := State();
        SizeAllFrom(args, i);
        err := CompileExpr(args[i]);
        if err.Some? {
          assert EmitArgs(args, i, before, ver) == (State(), err);
          return;
        }
        asm := asm + [Push(RAX)];
        i := i + 1;
      }
      err := None;
    }

    /** What `compile_s` emits once the callee is in `rax`: the tag
        check, the closure into `rdi`, the pops into the argument
        registers, the call, the release of the arguments left on the
        stack, and the restore. */
    method EmitCall(n: nat, saved: nat)
      requires saved <= 6
      modifies this
      ensures State() == Emit(old(State()), CallTail(n, saved))
    {
      ghost var s0 := State();
      asm := asm + TagCheck + [Mov(R(RDI), R(RAX))];
      var regParams := Min(5, n);
      var i := 0;
      while i < regParams
        invariant i <= regParams
        invariant State() == Emit(s0, TagCheck + [Mov(R(RDI), R(RAX))] + ArgPops(n)[..i])
      {
        assert ArgPopRegs(n)[i] == RegisterParams[regParams - i];
        assert ArgPops(n)[..i + 1] == ArgPops(n)[..i] + [Pop(RegisterParams[regParams - i])];
        asm := asm + [Pop(RegisterParams[regParams - i])];
        i := i + 1;
      }
      assert ArgPops(n)[..regParams] == ArgPops(n);
      asm := asm + [Call(Ext(RemoveTag)), Call(Mem(RAX, 0))];
      var stackParams := n - 5;
      if stackParams > 0 {
        asm := asm + [AddRsp(stackParams * 8)];
      }
      ghost var calls := TagCheck + [Mov(R(RDI), R(RAX))] + ArgPops(n);
      EmitEmit(s0, calls, [Call(Ext(RemoveTag)), Call(Mem(RAX, 0))]);
      calls := calls + [Call(Ext(RemoveTag)), Call(Mem(RAX, 0))];
      EmitEmit(s0, calls, if n > 5 then [AddRsp((n - 5) * 8)] else []);
      calls := calls + (if n > 5 then [AddRsp((n - 5) * 8)] else []);
      assert State() == Emit(s0, calls);
      RestoreRegisters(saved);
      EmitEmit(s0, calls, RestorePops(saved));
    }

    /** `compile_s`. */
    method CompileS(op: LVal, args: seq<LVal>) returns (err: Option<Fault>)
      modifies this
      ensures (State(), err) == EmitS(op, args, old(State()), ver)
      decreases Size(op) + SizeAll(args), 1
    {
      var saved := 1 + Min(5, LiveRegs(env.tracker));
      SaveRegisters(saved);
      err := PushArgs(args);
      if err.Some? {
        return;
      }
      err := CompileExpr(op);
      if err.Some? {
        return;
      }
      EmitCall(|args|, saved);
    }

    /** `compile_if`. */
    method CompileIf(op: Token, args: seq<LVal>) returns (err: Option<Fault>)
      modifies this
      ensures (State(), err) == EmitIf(op, args, old(State()), ver)
      decreases SizeAll(args), 1
    {
      if |args| < 2 || |args| > 3 {
        return Some(RuntimeError(ArgCountAt(op, |args|)));
      }
      ghost var s0 := State();
      var falseChild := if |args| == 3 then args[2] else LNil;
      var n1 := GetId();
      var labelTrue := LabelOf(IfLabel, n1);
      var n2 := GetId();
      var labelAfter := LabelOf(IfLabel, n2);
      SizeAllEach(args);
      ghost var r := EmitIf(op, args, s0, ver);
      err := CompileExpr(args[0]);
      if err.Some? {
        assert r == (State(), err);
        return;
      }
      asm := asm + [Cmp(RAX, TrueWord), Je(labelTrue)];
      err := CompileExpr(falseChild);
      if err.Some? {
        assert r == (State(), err);
        return;
      }
      asm := asm + [Jmp(labelAfter), Label(labelTrue)];
      err := CompileExpr(args[1]);
      if err.Some? {
        assert r == (State(), err);
        return;
      }
      asm := asm + [Label(labelAfter)];
    }

    /** The loop of `compile_let` over the pairs of the bindings vector:
        compute the value, push it, and bind the name to the next local
        slot; a name that is not a symbol stops it. */
    method PushBindings(op: Token, items: seq<LVal>) returns (err: Option<Fault>)
      requires |items| % 2 == 0
      modifies this
      ensures (State(), err) == EmitBindings(op, items, 0, old(State()), ver)
      decreases SizeAll(items), 1
    {
      ghost var s0 := State();
      SizeAllEach(items);
      assert items[0..] == items;
      var i := 0;
      while i < |items|
        invariant i <= |items| && (|items| - i) % 2 == 0
        invariant EmitBindings(op, items, i, State(), ver) == EmitBindings(op, items, 0, s0, ver)
      {
        ghost var before := State();
        PairShrinks(items, i);
        if !items[i].LSym? {
          assert EmitBindings(op, items, i, before, ver) == (before, Some(RuntimeError(BindingKeyNotSymbol(op))));
          return Some(RuntimeError(BindingKeyNotSymbol(op)));
        }
        err := CompileExpr(items[i + 1]);
        if err.Some? {
          assert EmitBindings(op, items, i, before, ver) == (State(), err);
          return;
        }
        ghost var mid := State();
        asm := asm + [Push(RAX)];
        env := Bind(env, items[i].tok.lexeme, Local, "");
        assert State() == Emit(mid, [Push(RAX)]).(env := Bind(mid.env, items[i].tok.lexeme, Local, ""));
        assert EmitBindings(op, items, i, before, ver) == EmitBindings(op, items, i + 2, State(), ver);
        i := i + 2;
      }
      err := None;
    }

    /** `compile_let`. */
    method CompileLet(op: Token, args: seq<LVal>) returns (err: Option<Fault>)
      modifies this
      ensures (State(), err) == EmitLet(op, args, old(State()), ver)
      decreases SizeAll(args), 1
    {
      if |args| != 2 {
        return Some(RuntimeError(ArgCountAt(op, |args|)));
      }
      if !args[0].LVector? || |args[0].items| % 2 != 0 {
        return Some(RuntimeError(BindingsOdd(op)));
      }
      var bindings := args[0].items;
      var enclosing := env;
      env := Nested(enclosing, true);
      SizeAllEach(args);
      err := PushBindings(op, bindings);
      if err.Some? {
        return;
      }
      ghost var s1 := State();
      err := CompileExpr(args[1]);
      if err.Some? {
        env := enclosing;
        return;
      }
      asm := asm + [AddRsp(env.tracker.locals * 8)];
      env := enclosing;
      assert env == old(env);
    }

    /** The `flatMap` of `compile_fn` that copies each name of the
        enclosing frame into its slot of the closure. */
    method CaptureCode(es: seq<Entry>, closure: string, count: nat) returns (code: seq<Instr>)
      ensures code == CaptureCopies(es, closure, count, ver)
    {
      code := [];
      var i := 0;
      while i < |es|
        invariant i <= |es|
        invariant code == CaptureCopies(es[..i], closure, count, ver)
      {
        CaptureCopiesNext(es, i, closure, count, ver);
        code := code + CaptureCopy(es[i].v, i, closure, count, ver);
        i := i + 1;
      }
      assert es[..i] == es;
    }

    /** The scope `compile_fn` builds for the body: a new frame binding
        the enclosing frame's names as closure slots, then the
        parameters, then the function's own name. */
    method FnFrame(enclosing: TEnv, params: seq<string>, name: Option<string>, closure: string) returns (nested: TEnv)
      ensures nested == FnScope(enclosing, params, name, closure)
    {
      nested := Nested(enclosing, false);
      var keys := Keys(enclosing.symbols);
      var i := 0;
      while i < |keys|
        invariant i <= |keys|
        invariant nested == BindAll(Empty, keys[..i], Closure)
      {
        assert keys[..i + 1][..i] == keys[..i];
        nested := Bind(nested, keys[i], Closure, "");
        i := i + 1;
      }
      assert keys[..i] == keys;
      i := 0;
      while i < |params|
        invariant i <= |params|
        invariant nested == BindAll(BindAll(Empty, keys, Closure), params[..i], Param)
      {
        assert params[..i + 1][..i] == params[..i];
        nested := Bind(nested, params[i], Param, "");
        i := i + 1;
      }
      assert params[..i] == params;
      if name.Some? {
        nested := Bind(nested, name.value, Func, closure);
      }
    }

    /** The part of `compile_fn` before its `try`: the closure's data,
        the copies into it, the jump around the body and the body's
        entry, and the body's scope. */
    method EnterFn(params: seq<string>, name: Option<string>, after: string, fn: string)
      modifies this
      ensures State() == FnStart(old(State()), params, name, after, fn, ver)
    {
      var closure := fn + "_closure";
      var enclosing := env;
      data := data + [DataLabel(closure), Dq(Sym(fn))] + ClosureSlots(|enclosing.symbols|);
      var copies := CaptureCode(enclosing.symbols, closure, enclosing.tracker.params);
      asm := asm + copies + [Jmp(after), Label(fn), Push(RBP), Mov(R(RBP), R(RSP))];
      env := FnFrame(enclosing, params, name, closure);
    }

    /** `compile_fn` once its labels are drawn: the entry (`EnterFn`),
        then the `try`. */
    method CompileFnBody(body: Option<LVal>, params: seq<string>, name: Option<string>, after: string, fn: string) returns (err: Option<Fault>)
      modifies this
      ensures (State(), err) == EmitFnBody(body, old(State()), params, name, after, fn, ver)
      decreases if body.Some? then Size(body.value) else 0, 2
    {
      var enclosing := env;
      EnterFn(params, name, after, fn);
      err := CompileFnTry(body, enclosing, after, fn + "_closure");
    }

    /** The `try` of `compile_fn`: the body, if there is one, then the
        return and the closure value, with the enclosing scope restored
        whether or not the body fails. */
    method CompileFnTry(body: Option<LVal>, enclosing: TEnv, after: string, closure: string) returns (err: Option<Fault>)
      modifies this
      ensures (State(), err) == EmitFnTry(body, old(State()), enclosing, after, closure, ver)
      decreases if body.Some? then Size(body.value) else 0, 1
    {
      if body.Some? {
        err := CompileExpr(body.value);
        if err.Some? {
          env := enclosing;
          return;
        }
      }
      asm := asm + [Pop(RBP), Ret, Label(after), Mov(R(RAX), Sym(closure)), Call(Ext(ToClosure))];
      env := enclosing;
      err := None;
    }

    /** `compile_fn`. */
    method CompileFn(op: Token, args: seq<LVal>) returns (err: Option<Fault>)
      modifies this
      ensures (State(), err) == EmitFn(op, args, old(State()), ver)
      decreases SizeAll(args), 2
    {
      var head := FnParts(op, args);
      if head.Err? {
        return Some(head.fault);
      }
      ghost var s0 := State();
      EmitFnOk(op, args, s0, ver, head.value);
      var FnHead(params, name, body) := head.value;
      var n1 := GetId();
      var after := LabelOf(AfterLabel, n1);
      var n2 := GetId();
      var fn := FnLabel(name, n2);
      assert State() == s0.(id := s0.id + 2);
      err := CompileFnBody(body, params, name, after, fn);
      assert (State(), err) == EmitFnBody(body, s0.(id := s0.id + 2), params, name, after, fn, ver);
    }

    /** `compile_do`. */
    method CompileDo(args: seq<LVal>) returns (err: Option<Fault>)
      modifies this
      ensures (State(), err) == EmitDo(args, old(State()), ver)
      decreases SizeAll(args), 2
    {
      if |args| == 0 {
        asm := asm + [Mov(R(RAX), Imm(0))];
        return None;
      }
      ghost var s0 := State();
      SizeAllEach(args);
      assert args[0..] == args;
      var i := 0;
      while i < |args|
        invariant i <= |args|
        invariant EmitSeq(args, i, State(), ver) == EmitSeq(args, 0, s0, ver)
      {
        ghost var before := State();
        SizeAllFrom(args, i);
        err := CompileExpr(args[i]);
        if err.Some? {
          assert EmitSeq(args, i, before, ver) == (State(), err);
          return;
        }
        i := i + 1;
      }
      err := None;
    }

    /** `compile_expr`. */
    method CompileExpr(e: LVal) returns (err: Option<Fault>)
      modifies this
      ensures (State(), err) == EmitExpr(e, old(State()), ver)
      decreases Size(e), 0
    {
      match e
      case LSym(tok) =>
        err := CompileSymbol(tok);
      case LVector(items, _) =>
        CompileVector(items);
        err := None;
      case LList(items, _) =>
        if items == [] {
          return Some(ExpectedSymbol);
        }
        var op, args := items[0], items[1..];
        SizeAllFrom(items, 0);
        assert items[0..] == items;
        match FormOf(op) {
          case Quote =>
            if args == [] {
              err := None;
            } else {
              SizeAllElem(args, 0);
              err := CompilePrimary(args[0]);
            }
          case IfForm =>
            err := CompileIf(op.tok, args);
          case FnForm =>
            err := CompileFn(op.tok, args);
          case LetForm =>
            err := CompileLet(op.tok, args);
          case DoForm =>
            err := CompileDo(args);
          case Apply =>
            err := CompileS(op, args);
          case NotAForm =>
            err := Some(ExpectedSymbol);
        }
      case _ =>
        CompileLiteral(e);
        err := None;
    }
  }

  /** `compile`: a new translator, then each form of the program in turn. */
  method Compile(program: seq<LVal>, ver: Version) returns (t: Translator, err: Option<Fault>)
    ensures fresh(t)
    ensures (t.State(), err) == EmitProgram(program, 0, Start, ver)
  {
    t := new Translator(ver);
    var i := 0;
    while i < |program|
      invariant i <= |program|
      invariant fresh(t) && t.ver == ver
      invariant EmitProgram(program, i, t.State(), ver) == EmitProgram(program, 0, Start, ver)
    {
      ghost var before := t.State();
      err := t.CompileExpr(program[i]);
      if err.Some? {
        assert EmitProgram(program, i, before, ver) == (t.State(), err);
        return;
      }
      i := i + 1;
    }
    err := None;
  }
}
