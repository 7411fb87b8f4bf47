/** Stack discipline of the code src/asm.ts emits: how far each
    instruction moves `rsp`, counted in words, and proofs that calls,
    list construction and whole expressions leave it where they found it.

    A `let` frees its slots with `add rsp, 8 * tracker[LOCAL]`, and its
    frame starts with the enclosing frame's counts, so a `let` nested in
    another `let` of the same function also frees the enclosing `let`'s
    slots (`LetDelta`). The balance theorems are therefore stated for
    programs in which no `let` sits inside another `let` of the same
    function body (`LetsUnnested`). */
module AsmStack {
  import opened Syntax
  import opened Wrappers
  import opened TranslatorEnvs
  import opened Asm

  /** Words pushed by one instruction (negative: words released). */
  function Step(ins: Instr): int
  {
    match ins
    case Push(_) => 1
    case Pop(_) => -1
    case AddRsp(bytes) => -(bytes / 8)
    case _ => 0
  }

  /** Words pushed by straight-line code. Both arms of a conditional
      and a function body that is jumped around are counted too, so a
      zero total for code whose pieces are each balanced says every
      path is balanced. */
  function StackDelta(code: seq<Instr>): int
  {
    if code == [] then 0 else StackDelta(code[..|code| - 1]) + Step(code[|code| - 1])
  }

  lemma {:induction false} DeltaAppend(a: seq<Instr>, b: seq<Instr>)
    ensures StackDelta(a + b) == StackDelta(a) + StackDelta(b)
  {
    if b != [] {
      assert (a + b)[..|a + b| - 1] == a + b[..|b| - 1];
      assert (a + b)[|a + b| - 1] == b[|b| - 1];
      DeltaAppend(a, b[..|b| - 1]);
    } else {
      assert a + b == a;
    }
  }

  lemma DeltaSingle(ins: Instr)
    ensures StackDelta([ins]) == Step(ins)
  {
    assert [ins][..0] == [];
  }

  /** Code whose instructions all move the stack by `d`. */
  lemma {:induction false} DeltaUniform(code: seq<Instr>, d: int)
    requires forall i :: 0 <= i < |code| ==> Step(code[i]) == d
    ensures StackDelta(code) == d * |code|
  {
    if code != [] {
      DeltaUniform(code[..|code| - 1], d);
    }
  }

  lemma EmitDelta(s: TState, code: seq<Instr>)
    ensures StackDelta(Emit(s, code).asm) == StackDelta(s.asm) + StackDelta(code)
  {
    DeltaAppend(s.asm, code);
  }

  /** Reading a variable touches no stack. */
  lemma GetMemNeutral(reg: Reg, v: TEnvVar, count: nat, ver: Version)
    ensures StackDelta(GetMem(reg, v, count, ver)) == 0
  {
    DeltaUniform(GetMem(reg, v, count, ver), 0);
  }

  /** A call releases the `n` argument words (popped into registers or
      dropped with `add rsp`) and the `saved` registers. */
  lemma CallTailDelta(n: nat, saved: nat)
    requires saved <= 6
    ensures StackDelta(CallTail(n, saved)) == -(n as int) - saved
  {
    var a := TagCheck + [Mov(R(RDI), R(RAX))];
    var calls := [Call(Ext(RemoveTag)), Call(Mem(RAX, 0))];
    var free: seq<Instr> := if n > 5 then [AddRsp((n - 5) * 8)] else [];
    DeltaUniform(a, 0);
    DeltaUniform(ArgPops(n), -1);
    DeltaUniform(calls, 0);
    DeltaUniform(RestorePops(saved), -1);
    if n > 5 {
      assert (n - 5) * 8 / 8 == n - 5;
      DeltaUniform(free, 5 - n);
    }
    DeltaAppend(a, ArgPops(n));
    DeltaAppend(a + ArgPops(n), calls);
    DeltaAppend(a + ArgPops(n) + calls, free);
    DeltaAppend(a + ArgPops(n) + calls + free, RestorePops(saved));
  }

  lemma ListNodeDelta(i: nat, n: nat)
    ensures StackDelta(ListNode(i, n)) == (if i == 0 then -1 else -2) + (if i < n - 1 then 1 else 0)
  {
    var alloc := [Mov(R(RAX), Imm(16)), Call(Ext(Allocate))];
    var next: seq<Instr> := if i == 0 then [] else [Pop(RCX)];
    var fill := [Pop(RBX), Mov(Mem(RAX, 0), R(RBX)), Mov(Mem(RAX, 8), if i == 0 then Dword(Null) else R(RCX))];
    var keep: seq<Instr> := if i < n - 1 then [Push(RAX)] else [];
    DeltaUniform(alloc, 0);
    DeltaUniform(next, -1);
    assert StackDelta(fill) == -1 by {
      DeltaUniform(fill[..1], -1);
      DeltaUniform(fill[1..], 0);
      DeltaAppend(fill[..1], fill[1..]);
      assert fill == fill[..1] + fill[1..];
    }
    DeltaUniform(keep, 1);
    DeltaAppend(alloc, next);
    DeltaAppend(alloc + next, fill);
    DeltaAppend(alloc + next + fill, keep);
  }

  /** Building the first `k` of `n` cells pops the `n` pushed values and
      leaves one cell pointer pushed until the last, which stays in `rax`. */
  lemma {:induction false} ListNodesDelta(k: nat, n: nat)
    requires 1 <= k <= n
    ensures StackDelta(ListNodes(k, n)) == if k == n then -(k as int) else 1 - k
  {
    DeltaAppend(ListNodes(k - 1, n), ListNode(k - 1, n));
    ListNodeDelta(k - 1, n);
    if k > 1 {
      ListNodesDelta(k - 1, n);
    }
  }

  lemma LiteralBalanced(e: LVal, s: TState, ver: Version)
    requires e.IsLiteral()
    ensures StackDelta(EmitLiteral(e, s, ver).asm) == StackDelta(s.asm)
  {
    match e
    case LNum(n) => EmitDelta(s, [Mov(R(RAX), Imm(IntWordOf(n, ver)))]);
    case LBool(b) => EmitDelta(s, [Mov(R(RAX), Imm(BoolWord(b)))]);
    case LStr(text) =>
      var name := LabelOf(StringLabel, s.id + 1);
      DeltaUniform([Mov(R(RAX), Sym(name)), Call(Ext(ToString))], 0);
      DeltaAppend(s.asm, [Mov(R(RAX), Sym(name)), Call(Ext(ToString))]);
    case LNil => EmitDelta(s, [BitXor(RAX, RAX)]);
  }

  lemma SymbolBalanced(tok: Token, s: TState, ver: Version)
    ensures StackDelta(EmitSymbol(tok, s, ver).0.asm) == StackDelta(s.asm)
  {
    match Native(tok.lexeme)
    case Some(n) =>
      var code := [Mov(R(RAX), NativeClosure(n)), Call(Ext(ToClosure))];
      DeltaUniform(code, 0);
      EmitDelta(s, code);
    case None =>
      match Retrieve(s.env, tok)
      case Err(_) =>
      case Ok(v) =>
        GetMemNeutral(RAX, v, s.env.tracker.params, ver);
        EmitDelta(s, GetMem(RAX, v, s.env.tracker.params, ver));
  }

  lemma VectorBalanced(items: seq<LVal>, s: TState)
    ensures StackDelta(EmitVector(items, s).asm) == StackDelta(s.asm)
  {
    EmitDelta(s, [Mov(R(RAX), Dword(EmptyListWord))]);
  }

  // ---- quoted data ----

  lemma PrimaryBalanced(e: LVal, s: TState, ver: Version)
    ensures var r := EmitPrimary(e, s, ver); r.1.None? ==> StackDelta(r.0.asm) == StackDelta(s.asm)
    decreases Size(e), 0
  {
    match e
    case LSym(tok) => SymbolBalanced(tok, s, ver);
    case LVector(items, _) => VectorBalanced(items, s);
    case LList(items, _) => ListBalanced(items, s, ver);
    case _ => LiteralBalanced(e, s, ver);
  }

  /** `compile_list` for `n` elements: the saved registers, `n` pushed
      values, `2n - 1` pops and `n - 1` pushes building the cells, and
      the saved registers popped again: nothing is left on the stack. */
  lemma ListBalanced(items: seq<LVal>, s: TState, ver: Version)
    ensures var r := EmitList(items, s, ver); r.1.None? ==> StackDelta(r.0.asm) == StackDelta(s.asm)
    decreases SizeAll(items), 2
  {
    var r := EmitList(items, s, ver);
    if items == [] {
      EmitDelta(s, [Mov(R(RAX), Dword(EmptyListWord))]);
    } else if r.1.None? {
      var saved := Min(4, LiveRegs(s.env.tracker));
      var s0 := Emit(s, SavePushes(saved));
      assert items[0..] == items;
      var (s1, err) := EmitChildren(items, 0, s0, ver);
      var tail := ListNodes(|items|, |items|) + RestorePops(saved) + [Call(Ext(ToList))];
      assert err.None? && r.0 == Emit(s1, tail);
      DeltaUniform(SavePushes(saved), 1);
      EmitDelta(s, SavePushes(saved));
      ChildrenPushed(items, 0, s0, ver);
      ListTailDelta(|items|, saved);
      EmitDelta(s1, tail);
    }
  }

  /** Building the cells of `n` pushed values and restoring `saved`
      registers. */
  lemma ListTailDelta(n: nat, saved: nat)
    requires 1 <= n && saved <= 6
    ensures StackDelta(ListNodes(n, n) + RestorePops(saved) + [Call(Ext(ToList))]) == -(n as int) - saved
  {
    ListNodesDelta(n, n);
    DeltaUniform(RestorePops(saved), -1);
    DeltaSingle(Call(Ext(ToList)));
    DeltaAppend(ListNodes(n, n), RestorePops(saved));
    DeltaAppend(ListNodes(n, n) + RestorePops(saved), [Call(Ext(ToList))]);
  }

  /** Each element from `i` on leaves one word pushed. */
  lemma ChildrenPushed(items: seq<LVal>, i: nat, s: TState, ver: Version)
    requires i <= |items|
    ensures var r := EmitChildren(items, i, s, ver); r.1.None? ==> StackDelta(r.0.asm) == StackDelta(s.asm) + (|items| - i)
    decreases SizeAll(items[i..]), 1
  {
    var r := EmitChildren(items, i, s, ver);
    if i == |items| {
      assert r == (s, None);
    } else {
      SizeAllFrom(items, i);
      var (s1, err) := EmitPrimary(items[i], s, ver);
      if err.None? {
        assert r == EmitChildren(items, i + 1, Emit(s1, [Push(RAX)]), ver);
        PrimaryBalanced(items[i], s, ver);
        DeltaSingle(Push(RAX));
        EmitDelta(s1, [Push(RAX)]);
        ChildrenPushed(items, i + 1, Emit(s1, [Push(RAX)]), ver);
      } else {
        assert r == (s1, err);
      }
    }
  }

  // ---- expressions ----

  /** No `let` sits inside another `let` of the same function body.
      `inLet` says whether `e` is itself inside one; a function body
      starts a new frame. */
  predicate LetsUnnested(e: LVal, inLet: bool)
  {
    match e
    case LList(items, _) =>
      if |items| > 0 && FormOf(items[0]) == LetForm then
        !inLet && forall i :: 1 <= i < |items| ==> LetsUnnested(items[i], true)
      else if |items| > 0 && FormOf(items[0]) == FnForm then
        forall i :: 1 <= i < |items| ==> LetsUnnested(items[i], false)
      else
        forall i :: 0 <= i < |items| ==> LetsUnnested(items[i], inLet)
    case LVector(items, _) => forall i :: 0 <= i < |items| ==> LetsUnnested(items[i], inLet)
    case _ => true
  }

  predicate AllUnnested(es: seq<LVal>, inLet: bool)
  {
    forall i :: 0 <= i < |es| ==> LetsUnnested(es[i], inLet)
  }

  /** An expression that is not inside a `let`, compiled where the frame
      has no local slots, or one inside a `let` that holds no further
      `let`, leaves the stack as it found it. */
  lemma ExprBalanced(e: LVal, s: TState, ver: Version, inLet: bool)
    requires LetsUnnested(e, inLet)
    requires !inLet ==> s.env.tracker.locals == 0
    ensures var r := EmitExpr(e, s, ver); r.1.None? ==> StackDelta(r.0.asm) == StackDelta(s.asm)
    decreases Size(e), 0
  {
    match e
    case LSym(tok) => SymbolBalanced(tok, s, ver);
    case LVector(items, _) => VectorBalanced(items, s);
    case LList(items, _) =>
      if items != [] {
        var op, args := items[0], items[1..];
        SizeAllFrom(items, 0);
        assert items[0..] == items;
        assert forall j :: 0 <= j < |args| ==> args[j] == items[j + 1];
        match FormOf(op)
        case Quote =>
          if args != [] {
            SizeAllElem(args, 0);
            PrimaryBalanced(args[0], s, ver);
          }
        case IfForm => IfBalanced(op.tok, args, s, ver, inLet);
        case FnForm => FnBalanced(op.tok, args, s, ver);
        case LetForm => LetDelta(op.tok, args, s, ver);
        case DoForm => DoBalanced(args, s, ver, inLet);
        case Apply => SBalanced(op, args, s, ver, inLet);
        case NotAForm =>
      }
    case _ => LiteralBalanced(e, s, ver);
  }

  /** `compile_s`: the saved registers and one word per argument are
      pushed, and the call sequence releases them all. */
  lemma SBalanced(op: LVal, args: seq<LVal>, s: TState, ver: Version, inLet: bool)
    requires LetsUnnested(op, inLet) && AllUnnested(args, inLet)
    requires !inLet ==> s.env.tracker.locals == 0
    ensures var r := EmitS(op, args, s, ver); r.1.None? ==> StackDelta(r.0.asm) == StackDelta(s.asm)
    decreases Size(op) + SizeAll(args), 1
  {
    var r := EmitS(op, args, s, ver);
    var saved := 1 + Min(5, LiveRegs(s.env.tracker));
    var s0 := Emit(s, SavePushes(saved));
    assert args[0..] == args;
    var (s1, err) := EmitArgs(args, 0, s0, ver);
    if err.Some? {
      assert r == (s1, err);
    } else {
      var (s2, err2) := EmitExpr(op, s1, ver);
      if err2.Some? {
        assert r == (s2, err2);
      } else {
        assert r == (Emit(s2, CallTail(|args|, saved)), None);
        DeltaUniform(SavePushes(saved), 1);
        EmitDelta(s, SavePushes(saved));
        ArgsPushed(args, 0, s0, ver, inLet);
        ExprBalanced(op, s1, ver, inLet);
        CallTailDelta(|args|, saved);
        EmitDelta(s2, CallTail(|args|, saved));
      }
    }
  }

  /** Each argument from `i` on leaves one word pushed. */
  lemma ArgsPushed(args: seq<LVal>, i: nat, s: TState, ver: Version, inLet: bool)
    requires i <= |args| && AllUnnested(args, inLet)
    requires !inLet ==> s.env.tracker.locals == 0
    ensures var r := EmitArgs(args, i, s, ver); r.1.None? ==> StackDelta(r.0.asm) == StackDelta(s.asm) + (|args| - i)
    decreases SizeAll(args[i..]), 1
  {
    if i < |args| {
      SizeAllFrom(args, i);
      ExprBalanced(args[i], s, ver, inLet);
      var (s1, err) := EmitExpr(args[i], s, ver);
      if err.None? {
        EmitDelta(s1, [Push(RAX)]);
        ArgsPushed(args, i + 1, Emit(s1, [Push(RAX)]), ver, inLet);
      }
    }
  }

  /** The test and the jump around the false branch of a conditional. */
  lemma JumpsNeutral(onTrue: string, after: string)
    ensures StackDelta([Cmp(RAX, TrueWord), Je(onTrue)]) == 0
    ensures StackDelta([Jmp(after), Label(onTrue)]) == 0
    ensures StackDelta([Label(onTrue)]) == 0
  {
    DeltaSingle(Label(onTrue));
    DeltaUniform([Cmp(RAX, TrueWord), Je(onTrue)], 0);
    DeltaUniform([Jmp(after), Label(onTrue)], 0);
  }

  lemma IfBalanced(op: Token, args: seq<LVal>, s: TState, ver: Version, inLet: bool)
    requires AllUnnested(args, inLet)
    requires !inLet ==> s.env.tracker.locals == 0
    ensures var r := EmitIf(op, args, s, ver); r.1.None? ==> StackDelta(r.0.asm) == StackDelta(s.asm)
    decreases SizeAll(args), 1
  {
    var r := EmitIf(op, args, s, ver);
    if |args| < 2 || |args| > 3 {
      assert r.1 == Some(RuntimeError(ArgCountAt(op, |args|)));
    } else {
      var onTrue, after := LabelOf(IfLabel, s.id + 1), LabelOf(IfLabel, s.id + 2);
      var test, skip := [Cmp(RAX, TrueWord), Je(onTrue)], [Jmp(after), Label(onTrue)];
      var other := if |args| == 3 then args[2] else LNil;
      SizeAllEach(args);
      var (s1, e1) := EmitExpr(args[0], s.(id := s.id + 2), ver);
      if e1.None? {
        var (s2, e2) := EmitExpr(other, Emit(s1, test), ver);
        if e2.None? {
          var (s3, e3) := EmitExpr(args[1], Emit(s2, skip), ver);
          if e3.None? {
            assert r == (Emit(s3, [Label(after)]), None);
            assert StackDelta(s1.asm) == StackDelta(s.asm) by {
              ExprBalanced(args[0], s.(id := s.id + 2), ver, inLet);
            }
            assert StackDelta(s2.asm) == StackDelta(s1.asm) by {
              JumpsNeutral(onTrue, after);
              EmitDelta(s1, test);
              ExprBalanced(other, Emit(s1, test), ver, inLet);
            }
            assert StackDelta(s3.asm) == StackDelta(s2.asm) by {
              JumpsNeutral(onTrue, after);
              EmitDelta(s2, skip);
              ExprBalanced(args[1], Emit(s2, skip), ver, inLet);
            }
            JumpsNeutral(after, after);
            EmitDelta(s3, [Label(after)]);
          } else {
            assert r == (s3, e3);
          }
        } else {
          assert r == (s2, e2);
        }
      } else {
        assert r == (s1, e1);
      }
    }
  }

  /** `add rsp, 8k` releases `k` words. */
  lemma FreeDelta(k: nat)
    ensures StackDelta([AddRsp(k * 8)]) == -(k as int)
  {
    DeltaSingle(AddRsp(k * 8));
    assert k * 8 / 8 == k;
  }

  /** `compile_let` pushes one word per binding and then releases every
      local slot of its frame, which includes those of the enclosing
      frame: the stack ends lower by the enclosing frame's local count. */
  lemma LetDelta(op: Token, args: seq<LVal>, s: TState, ver: Version)
    requires AllUnnested(args, true)
    ensures var r := EmitLet(op, args, s, ver);
      r.1.None? ==> StackDelta(r.0.asm) == StackDelta(s.asm) - s.env.tracker.locals
    decreases SizeAll(args), 1
  {
    var r := EmitLet(op, args, s, ver);
    if |args| != 2 {
      assert r.1 == Some(RuntimeError(ArgCountAt(op, |args|)));
    } else if !args[0].LVector? || |args[0].items| % 2 != 0 {
      assert r.1 == Some(RuntimeError(BindingsOdd(op)));
    } else {
      var bindings := args[0].items;
      SizeAllEach(args);
      assert bindings[0..] == bindings;
      var s0 := s.(env := Nested(s.env, true));
      BindingsPushed(op, bindings, 0, s0, ver);
      var (s1, e1) := EmitBindings(op, bindings, 0, s0, ver);
      if e1.None? {
        ExprBalanced(args[1], s1, ver, true);
        var (s2, e2) := EmitExpr(args[1], s1, ver);
        if e2.None? {
          var free := [AddRsp(s1.env.tracker.locals * 8)];
          FreeDelta(s1.env.tracker.locals);
          EmitDelta(s2, free);
          assert r == (Emit(s2, free).(env := s.env), None);
        }
      }
    }
  }

  /** Each binding from `i` on leaves its value pushed. */
  lemma BindingsPushed(op: Token, items: seq<LVal>, i: nat, s: TState, ver: Version)
    requires i <= |items| && (|items| - i) % 2 == 0 && AllUnnested(items, true)
    ensures var r := EmitBindings(op, items, i, s, ver);
      r.1.None? ==> 2 * (StackDelta(r.0.asm) - StackDelta(s.asm)) == |items| - i
    decreases SizeAll(items[i..]), 1
  {
    if i < |items| && items[i].LSym? {
      PairShrinks(items, i);
      var (s1, e1) := EmitExpr(items[i + 1], s, ver);
      if e1.None? {
        var s2 := Emit(s1, [Push(RAX)]).(env := Bind(s1.env, items[i].tok.lexeme, Local, ""));
        assert StackDelta(s2.asm) == StackDelta(s.asm) + 1 by {
          assert LetsUnnested(items[i + 1], true);
          ExprBalanced(items[i + 1], s, ver, true);
          DeltaSingle(Push(RAX));
          EmitDelta(s1, [Push(RAX)]);
        }
        BindingsPushed(op, items, i + 2, s2, ver);
        assert EmitBindings(op, items, i, s, ver) == EmitBindings(op, items, i + 2, s2, ver);
      }
    }
  }

  /** A function body starts a frame with no local slots. */
  lemma FnScopeNoLocals(enclosing: TEnv, params: seq<string>, name: Option<string>, closure: string)
    ensures FnScope(enclosing, params, name, closure).tracker.locals == 0
  {
    var withClosure := BindAll(Empty, Keys(enclosing.symbols), Closure);
    assert withClosure.tracker.Of(Local) == 0;
    assert FrameOf(Keys(enclosing.symbols), params).tracker.Of(Local) == 0;
  }

  lemma {:induction false} CopiesNeutral(es: seq<Entry>, closure: string, count: nat, ver: Version)
    ensures StackDelta(CaptureCopies(es, closure, count, ver)) == 0
  {
    if es != [] {
      var last := es[|es| - 1];
      CopiesNeutral(es[..|es| - 1], closure, count, ver);
      var copy := CaptureCopy(last.v, |es| - 1, closure, count, ver);
      if last.v.kind != Func && ver == Intended {
        GetMemNeutral(RAX, last.v, count, ver);
        DeltaAppend(GetMem(RAX, last.v, count, ver), [Mov(SymMem(closure, 8 * |es|), R(RAX))]);
      } else {
        DeltaUniform(copy, 0);
      }
      DeltaAppend(CaptureCopies(es[..|es| - 1], closure, count, ver), copy);
    }
  }

  /** A function body's frame: `rbp` is pushed on entry and popped
      before `ret`. */
  lemma FnCodeDeltas(after: string, fn: string, closure: string)
    ensures StackDelta([Jmp(after), Label(fn), Push(RBP), Mov(R(RBP), R(RSP))]) == 1
    ensures StackDelta([Pop(RBP), Ret, Label(after), Mov(R(RAX), Sym(closure)), Call(Ext(ToClosure))]) == -1
  {
    var entry := [Jmp(after), Label(fn), Push(RBP), Mov(R(RBP), R(RSP))];
    assert entry == [Jmp(after), Label(fn)] + [Push(RBP)] + [Mov(R(RBP), R(RSP))];
    DeltaUniform([Jmp(after), Label(fn)], 0);
    DeltaSingle(Push(RBP));
    DeltaSingle(Mov(R(RBP), R(RSP)));
    DeltaAppend([Jmp(after), Label(fn)], [Push(RBP)]);
    DeltaAppend([Jmp(after), Label(fn)] + [Push(RBP)], [Mov(R(RBP), R(RSP))]);
    var exit := [Pop(RBP), Ret, Label(after), Mov(R(RAX), Sym(closure)), Call(Ext(ToClosure))];
    assert exit == [Pop(RBP)] + exit[1..];
    DeltaSingle(Pop(RBP));
    DeltaUniform(exit[1..], 0);
    DeltaAppend([Pop(RBP)], exit[1..]);
  }

  /** Entering a function body: the copies into the closure move no
      stack, `rbp` is pushed, and the body's frame has no local slots. */
  lemma FnStartDelta(s: TState, params: seq<string>, name: Option<string>, after: string, fn: string, ver: Version)
    ensures StackDelta(FnStart(s, params, name, after, fn, ver).asm) == StackDelta(s.asm) + 1
    ensures FnStart(s, params, name, after, fn, ver).env.tracker.locals == 0
  {
    var closure := fn + "_closure";
    var copies := CaptureCopies(s.env.symbols, closure, s.env.tracker.params, ver);
    var entry := [Jmp(after), Label(fn), Push(RBP), Mov(R(RBP), R(RSP))];
    CopiesNeutral(s.env.symbols, closure, s.env.tracker.params, ver);
    FnCodeDeltas(after, fn, closure);
    DeltaAppend(s.asm, copies);
    DeltaAppend(s.asm + copies, entry);
    FnScopeNoLocals(s.env, params, name, closure);
  }

  /** The code of a function literal is balanced where it stands. */
  lemma FnBalanced(op: Token, args: seq<LVal>, s: TState, ver: Version)
    requires AllUnnested(args, false)
    ensures var r := EmitFn(op, args, s, ver); r.1.None? ==> StackDelta(r.0.asm) == StackDelta(s.asm)
    decreases SizeAll(args), 2
  {
    var head := FnParts(op, args);
    if head.Ok? {
      var h := head.value;
      if h.body.Some? {
        assert h.body.value == args[1] || h.body.value == args[2];
      }
      EmitFnOk(op, args, s, ver, h);
      FnBodyBalanced(h.body, s.(id := s.id + 2), h.params, h.name, LabelOf(AfterLabel, s.id + 1), FnLabel(h.name, s.id + 2), ver);
    }
  }

  /** The body is entered with `rbp` pushed and pops it before `ret`. */
  lemma FnBodyBalanced(body: Option<LVal>, s: TState, params: seq<string>, name: Option<string>, after: string, fn: string, ver: Version)
    requires body.Some? ==> LetsUnnested(body.value, false)
    ensures var r := EmitFnBody(body, s, params, name, after, fn, ver);
      r.1.None? ==> StackDelta(r.0.asm) == StackDelta(s.asm)
    decreases if body.Some? then Size(body.value) else 0, 2
  {
    FnStartDelta(s, params, name, after, fn, ver);
    FnTryBalanced(body, FnStart(s, params, name, after, fn, ver), s.env, after, fn + "_closure", ver);
  }

  /** The `try` of a function pops the `rbp` its entry pushed. */
  lemma FnTryBalanced(body: Option<LVal>, s: TState, enclosing: TEnv, after: string, closure: string, ver: Version)
    requires body.Some? ==> LetsUnnested(body.value, false)
    requires s.env.tracker.locals == 0
    ensures var r := EmitFnTry(body, s, enclosing, after, closure, ver);
      r.1.None? ==> StackDelta(r.0.asm) == StackDelta(s.asm) - 1
    decreases if body.Some? then Size(body.value) else 0, 1
  {
    var (s1, err) := if body.None? then (s, None) else EmitExpr(body.value, s, ver);
    if body.Some? {
      ExprBalanced(body.value, s, ver, false);
    }
    if err.None? {
      var exit := [Pop(RBP), Ret, Label(after), Mov(R(RAX), Sym(closure)), Call(Ext(ToClosure))];
      FnCodeDeltas(after, "", closure);
      EmitDelta(s1, exit);
    }
  }

  lemma DoBalanced(args: seq<LVal>, s: TState, ver: Version, inLet: bool)
    requires AllUnnested(args, inLet)
    requires !inLet ==> s.env.tracker.locals == 0
    ensures var r := EmitDo(args, s, ver); r.1.None? ==> StackDelta(r.0.asm) == StackDelta(s.asm)
    decreases SizeAll(args), 2
  {
    if args == [] {
      EmitDelta(s, [Mov(R(RAX), Imm(0))]);
    } else {
      assert args[0..] == args;
      SeqBalanced(args, 0, s, ver, inLet);
    }
  }

  lemma SeqBalanced(args: seq<LVal>, i: nat, s: TState, ver: Version, inLet: bool)
    requires i <= |args| && AllUnnested(args, inLet)
    requires !inLet ==> s.env.tracker.locals == 0
    ensures var r := EmitSeq(args, i, s, ver); r.1.None? ==> StackDelta(r.0.asm) == StackDelta(s.asm)
    decreases SizeAll(args[i..]), 1
  {
    if i < |args| {
      SizeAllFrom(args, i);
      ExprBalanced(args[i], s, ver, inLet);
      var (s1, err) := EmitExpr(args[i], s, ver);
      if err.None? {
        SeqBalanced(args, i + 1, s1, ver, inLet);
      }
    }
  }

  /** A program whose `let`s are not nested within one function leaves
      `rsp` where `_start` set `rbp`. */
  lemma {:induction false} ProgramBalanced(program: seq<LVal>, i: nat, s: TState, ver: Version)
    requires i <= |program| && AllUnnested(program, false)
    requires s.env.tracker.locals == 0
    ensures var r := EmitProgram(program, i, s, ver); r.1.None? ==> StackDelta(r.0.asm) == StackDelta(s.asm)
    decreases |program| - i
  {
    if i < |program| {
      ExprBalanced(program[i], s, ver, false);
      var (s1, err) := EmitExpr(program[i], s, ver);
      if err.None? {
        ProgramBalanced(program, i + 1, s1, ver);
      }
    }
  }
}
