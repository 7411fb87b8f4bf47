/** The tree-walking interpreter (src/interpreter.ts).

    The source's environments are objects linked by `enclosing`, and a
    closure keeps the environment it was created in, so frames outlive the
    call that made them and `defn` can write into a frame long after it was
    opened. The model keeps every frame in an arena (`Frames`), in order of
    creation; a frame names its enclosing frame by index, a closure names
    the frame it was created in, and opening a frame appends one.

    The interpreter follows calls to user functions as deep as the `fuel`
    allows; each node evaluated spends one unit. The natives whose results
    depend on the host (`=`, `mod`, and `+`/`-` on non-numbers) come in as
    the `foreign` parameter, and the printing of the final value as
    `render`. */
module Interpreter {
  import opened Syntax
  import opened Wrappers
  import opened Types
  import opened Runtime
  import opened Natives
  import Environments

  /** One `Environment<RuntimeVal>`: its own bindings and its enclosing frame. */
  datatype Frame = Frame(vars: map<string, RVal>, parent: Option<nat>)

  type Frames = seq<Frame>

  datatype Out = Out(v: RVal, fs: Frames)

  datatype Outs = Outs(vs: seq<RVal>, fs: Frames)

  // ---- frames ----

  /** The enclosing frame of `f`, when it is a frame created before `f`
      (the only kind the interpreter creates). */
  function Up(fs: Frames, f: nat): Option<nat>
    requires f < |fs|
  {
    if fs[f].parent.Some? && fs[f].parent.value < f then fs[f].parent else None
  }

  /** `retrieve`: frame `f` first, then its enclosing frames. */
  function Resolve(fs: Frames, f: nat, key: string): Option<RVal>
    decreases f
  {
    if f >= |fs| then None
    else if key in fs[f].vars then Some(fs[f].vars[key])
    else if Up(fs, f).Some? then Resolve(fs, Up(fs, f).value, key)
    else None
  }

  /** The scope chain frame `f` sees, innermost first. */
  function ChainOf(fs: Frames, f: nat): Environments.Chain<RVal>
    decreases f
  {
    if f >= |fs| then []
    else [fs[f].vars] + (if Up(fs, f).Some? then ChainOf(fs, Up(fs, f).value) else [])
  }

  /** `define` on frame `f`. */
  function Define(fs: Frames, f: nat, key: string, v: RVal): Frames
  {
    if f < |fs| then fs[f := Frame(fs[f].vars[key := v], fs[f].parent)] else fs
  }

  /** `new Environment(enclosing)`: a new, empty frame at index `|fs|`. */
  function Open(fs: Frames, enclosing: nat): Frames
  {
    fs + [Frame(map[], Some(enclosing))]
  }

  /** `after` comes from `before` by writes to frame `f` and by new frames:
      every other frame is unchanged, and `f` keeps its enclosing frame and
      every name it had. */
  predicate WritesOnly(before: Frames, after: Frames, f: nat)
  {
    |before| <= |after| &&
    (forall i :: 0 <= i < |before| && i != f ==> after[i] == before[i]) &&
    (f < |before| ==> after[f].parent == before[f].parent && before[f].vars.Keys <= after[f].vars.Keys)
  }

  /** `after` keeps every frame of `before` as it was. */
  predicate Keeps(before: Frames, after: Frames)
  {
    |before| <= |after| && forall i :: 0 <= i < |before| ==> after[i] == before[i]
  }

  /** The scope chain of a frame depends only on that frame and the frames
      created before it. */
  lemma {:induction false} ChainOfPrefix(fs: Frames, gs: Frames, f: nat)
    requires f < |fs| && f < |gs| && fs[..f + 1] == gs[..f + 1]
    ensures ChainOf(fs, f) == ChainOf(gs, f)
  {
    assert fs[f] == fs[..f + 1][f] == gs[..f + 1][f] == gs[f];
    if Up(fs, f).Some? {
      var p := Up(fs, f).value;
      assert fs[..p + 1] == fs[..f + 1][..p + 1];
      assert gs[..p + 1] == gs[..f + 1][..p + 1];
      ChainOfPrefix(fs, gs, p);
    }
  }

  /** Resolving a name in the arena is the chain lookup of src/environment.ts. */
  lemma {:induction false} ResolveIsLookup(fs: Frames, f: nat, key: string)
    ensures Resolve(fs, f, key) == Environments.Lookup(ChainOf(fs, f), key)
  {
    if f < |fs| && key !in fs[f].vars && Up(fs, f).Some? {
      ResolveIsLookup(fs, Up(fs, f).value, key);
      assert ChainOf(fs, f)[1..] == ChainOf(fs, Up(fs, f).value);
    }
  }

  /** Defining into a frame is `Bind` on the chain that frame sees. */
  lemma DefineIsBind(fs: Frames, f: nat, key: string, v: RVal)
    requires f < |fs|
    ensures ChainOf(Define(fs, f, key, v), f) == Environments.Bind(ChainOf(fs, f), key, v)
  {
    var gs := Define(fs, f, key, v);
    if Up(fs, f).Some? {
      var p := Up(fs, f).value;
      assert gs[..p + 1] == fs[..p + 1];
      ChainOfPrefix(gs, fs, p);
    }
  }

  /** An opened frame sees the chain of its enclosing frame behind an empty map. */
  lemma OpenIsNest(fs: Frames, enclosing: nat)
    requires enclosing < |fs|
    ensures ChainOf(Open(fs, enclosing), |fs|) == Environments.Nest(ChainOf(fs, enclosing))
  {
    var gs := Open(fs, enclosing);
    assert gs[..enclosing + 1] == fs[..enclosing + 1];
    ChainOfPrefix(gs, fs, enclosing);
  }

  // ---- argument checks ----

  /** The type check of `interpret_s` from argument `i` on: the first
      argument whose expected type is missing or does not match. */
  function ArgsFrom(params: seq<BaseType>, rest: Option<BaseType>, args: seq<RVal>, i: nat): Option<Fault>
    decreases |args| - i
  {
    if i >= |args| then None
    else match ExpectedAt(params, rest, i)
      case None => Some(TypeError(ReadOfUndefined("type")))
      case Some(t) =>
        if Matches(t, args[i]) then ArgsFrom(params, rest, args, i + 1)
        else Some(RuntimeError(ArgTypeMismatch(i + 1, BaseName(t))))
  }

  /** Arguments are checked only against a callable that declares
      positional types. */
  function CheckArgs(params: seq<BaseType>, rest: Option<BaseType>, args: seq<RVal>): Option<Fault>
  {
    if |params| > 0 then ArgsFrom(params, rest, args, 0) else None
  }

  /** The check from `i` on passes exactly when every later argument has an
      expected type and matches it. */
  lemma {:induction false} ArgsFromSpec(params: seq<BaseType>, rest: Option<BaseType>, args: seq<RVal>, i: nat)
    ensures ArgsFrom(params, rest, args, i).None? <==>
      forall j :: i <= j < |args| ==>
        ExpectedAt(params, rest, j).Some? && Matches(ExpectedAt(params, rest, j).value, args[j])
    decreases |args| - i
  {
    if i < |args| && ExpectedAt(params, rest, i).Some? && Matches(ExpectedAt(params, rest, i).value, args[i]) {
      ArgsFromSpec(params, rest, args, i + 1);
    }
  }

  /** A native that passes the arity and type checks of `interpret_s` gets
      the arguments it relies on. */
  lemma ChecksEstablishFits(op: NativeOp, args: seq<RVal>)
    requires Arity(op) == -1 || |args| == Arity(op)
    requires CheckArgs(Params(op), Rest(op), args).None?
    ensures Fits(op, args)
  {
    ArgsFromSpec(Params(op), Rest(op), args, 0);
  }

  /** The loop of `interpret_s` that checks the arguments. */
  method CheckArgsLoop(params: seq<BaseType>, rest: Option<BaseType>, args: seq<RVal>) returns (r: Option<Fault>)
    ensures r == CheckArgs(params, rest, args)
  {
    r := None;
    if |params| > 0 {
      var i := 0;
      while i < |args|
        invariant 0 <= i <= |args|
        invariant ArgsFrom(params, rest, args, 0) == ArgsFrom(params, rest, args, i)
      {
        var expected := ExpectedAt(params, rest, i);
        if expected.None? {
          return Some(TypeError(ReadOfUndefined("type")));
        }
        if !Matches(expected.value, args[i]) {
          return Some(RuntimeError(ArgTypeMismatch(i + 1, BaseName(expected.value))));
        }
        i := i + 1;
      }
    }
  }

  // ---- calls ----

  /** The bindings a call makes, left to right: `define(keys[i], vals[i])`. */
  function BindSeq(m: map<string, RVal>, keys: seq<Token>, vals: seq<RVal>): map<string, RVal>
    requires |vals| <= |keys|
    decreases |vals|
  {
    if vals == [] then m else BindSeq(m[keys[0].lexeme := vals[0]], keys[1..], vals[1..])
  }

  /** Index `i` holds the last occurrence of the key `k` among the first `n` keys. */
  predicate LastAt(keys: seq<Token>, n: nat, i: nat, k: string)
    requires i < n <= |keys|
  {
    keys[i].lexeme == k && forall j :: i < j < n ==> keys[j].lexeme != k
  }

  /** After the bindings a name is bound exactly when it was bound before or
      is one of the bound keys. */
  lemma {:induction false} BindSeqKeys(m: map<string, RVal>, keys: seq<Token>, vals: seq<RVal>, k: string)
    requires |vals| <= |keys|
    ensures k in BindSeq(m, keys, vals) <==> k in m || exists i :: 0 <= i < |vals| && keys[i].lexeme == k
    decreases |vals|
  {
    if vals != [] {
      BindSeqKeys(m[keys[0].lexeme := vals[0]], keys[1..], vals[1..], k);
      if exists i :: 0 <= i < |vals| && keys[i].lexeme == k {
        var i :| 0 <= i < |vals| && keys[i].lexeme == k;
        if i > 0 { assert keys[1..][i - 1].lexeme == k; }
      }
      if exists i :: 0 <= i < |vals[1..]| && keys[1..][i].lexeme == k {
        var i :| 0 <= i < |vals[1..]| && keys[1..][i].lexeme == k;
        assert keys[i + 1].lexeme == k;
      }
    }
  }

  /** A bound key holds the value of its last occurrence. */
  lemma {:induction false} BindSeqLast(m: map<string, RVal>, keys: seq<Token>, vals: seq<RVal>, k: string, i: nat)
    requires i < |vals| <= |keys| && LastAt(keys, |vals|, i, k)
    ensures k in BindSeq(m, keys, vals) && BindSeq(m, keys, vals)[k] == vals[i]
    decreases |vals|
  {
    var m' := m[keys[0].lexeme := vals[0]];
    if i > 0 {
      assert vals[1..][i - 1] == vals[i];
      assert LastAt(keys[1..], |vals[1..]|, i - 1, k) by {
        forall j | i - 1 < j < |vals[1..]| ensures keys[1..][j].lexeme != k {
          assert keys[1..][j] == keys[j + 1];
        }
      }
      BindSeqLast(m', keys[1..], vals[1..], k, i - 1);
    } else {
      forall j | 0 <= j < |vals[1..]| ensures keys[1..][j].lexeme != k {
        assert keys[1..][j] == keys[j + 1];
      }
      BindSeqKeep(m', keys[1..], vals[1..], k);
    }
  }

  /** A name none of the keys has keeps its value. */
  lemma {:induction false} BindSeqKeep(m: map<string, RVal>, keys: seq<Token>, vals: seq<RVal>, k: string)
    requires |vals| <= |keys| && k in m && forall i :: 0 <= i < |vals| ==> keys[i].lexeme != k
    ensures k in BindSeq(m, keys, vals) && BindSeq(m, keys, vals)[k] == m[k]
    decreases |vals|
  {
    if vals != [] {
      forall j | 0 <= j < |vals[1..]| ensures keys[1..][j].lexeme != k {
        assert keys[1..][j] == keys[j + 1];
      }
      BindSeqKeep(m[keys[0].lexeme := vals[0]], keys[1..], vals[1..], k);
    }
  }

  /** The loop of a closure's `call` that binds the arguments. */
  method BindParams(params: seq<Token>, args: seq<RVal>) returns (m: map<string, RVal>)
    requires |args| <= |params|
    ensures m == BindSeq(map[], params, args)
  {
    m := map[];
    var i := 0;
    while i < |args|
      invariant 0 <= i <= |args|
      invariant BindSeq(map[], params, args) == BindSeq(m, params[i..], args[i..])
    {
      assert params[i..][1..] == params[i + 1..] && args[i..][1..] == args[i + 1..];
      m := m[params[i].lexeme := args[i]];
      i := i + 1;
    }
  }

  /** The frame a call to closure `fn` opens: the arguments bound to the
      parameters, then the closure's own name bound to the closure, under
      the frame the closure was created in. */
  function CallFrame(fn: Callable, args: seq<RVal>): Frame
    requires fn.Closure? && |args| <= |fn.params|
  {
    var vars := BindSeq(map[], fn.params, args);
    Frame(if fn.selfName.Some? then vars[fn.selfName.value := RFunc(fn, fn.selfName)] else vars, Some(fn.frame))
  }

  /** Inside its body a named closure sees itself under its name, and a
      parameter not shadowed by a later one or by that name holds its
      argument. */
  lemma CallFrameBinds(fn: Callable, args: seq<RVal>, i: nat)
    requires fn.Closure? && |args| <= |fn.params|
    ensures fn.selfName.Some? ==>
      CallFrame(fn, args).vars[fn.selfName.value] == RFunc(fn, fn.selfName)
    ensures i < |args| ==> LastAt(fn.params, |args|, i, fn.params[i].lexeme) ==>
      (fn.selfName.Some? ==> fn.params[i].lexeme != fn.selfName.value) ==>
        fn.params[i].lexeme in CallFrame(fn, args).vars && CallFrame(fn, args).vars[fn.params[i].lexeme] == args[i]
    ensures CallFrame(fn, args).parent == Some(fn.frame)
  {
    if i < |args| && LastAt(fn.params, |args|, i, fn.params[i].lexeme) {
      BindSeqLast(map[], fn.params, args, fn.params[i].lexeme, i);
    }
  }

  // ---- evaluation ----

  /** The `define` key of `defn`: its name (a nameless `defn` never passes
      the checker; the host would store it under "undefined"). */
  function DefKey(name: Option<string>): string
  {
    if name.Some? then name.value else "undefined"
  }

  /** `interpret_fn`: the closure over frame `f`; `defn` also defines it there. */
  function MakeClosure(fs: Frames, f: nat, def: bool, params: seq<Token>, body: Expr, name: Option<string>): (r: Out)
    ensures r.v == RFunc(Closure(params, body, f, name), name)
    ensures def && f < |fs| ==> Resolve(r.fs, f, DefKey(name)) == Some(r.v)
    ensures !def ==> r.fs == fs
    ensures WritesOnly(fs, r.fs, f)
  {
    var v := RFunc(Closure(params, body, f, name), name);
    Out(v, if def then Define(fs, f, DefKey(name), v) else fs)
  }

  /** `interpret_expr` in frame `f`. */
  function Eval(fs: Frames, f: nat, e: Expr, fuel: nat, foreign: Foreign): (r: Result<Out>)
    ensures r.Ok? ==> WritesOnly(fs, r.value.fs, f)
    decreases fuel, 0, 0
  {
    if fuel == 0 then Err(OutOfFuel)
    else match e
      case Lit(v, _, _) => Ok(Out(AsValue(v), fs))
      case SymbolE(tok, _, _) =>
        (match Resolve(fs, f, tok.lexeme)
         case None => Err(RuntimeError(Unresolved(tok.lexeme)))
         case Some(v) => Ok(Out(v, fs)))
      case ListE(children, _, _, _) =>
        var rs :- EvalAll(fs, f, children, fuel - 1, foreign);
        Ok(Out(RList(rs.vs), rs.fs))
      case VectorE(children, _, _, _) =>
        var rs :- EvalAll(fs, f, children, fuel - 1, foreign);
        Ok(Out(RVector(rs.vs), rs.fs))
      case IfE(c, t, el, _, _) => EvalIf(fs, f, c, t, el, fuel - 1, foreign)
      case FnE(def, params, body, _, _, _, name, _) => Ok(MakeClosure(fs, f, def, params, body, name))
      case LetE(bindings, body, _, _) => EvalLet(fs, f, bindings, body, fuel - 1, foreign)
      case DoE(bodies, _, _, _) => EvalDo(fs, f, bodies, fuel - 1, foreign)
      case SE(op, children, _, _, _) => EvalCall(fs, f, op, children, fuel - 1, foreign)
  }

  /** The expressions evaluated left to right, each in the frames the
      previous one left. */
  function EvalAll(fs: Frames, f: nat, es: seq<Expr>, fuel: nat, foreign: Foreign): (r: Result<Outs>)
    ensures r.Ok? ==> |r.value.vs| == |es| && WritesOnly(fs, r.value.fs, f)
    decreases fuel, 1, |es|
  {
    if es == [] then Ok(Outs([], fs))
    else
      var o :- Eval(fs, f, es[0], fuel, foreign);
      var rs :- EvalAll(o.fs, f, es[1..], fuel, foreign);
      Ok(Outs([o.v] + rs.vs, rs.fs))
  }

  /** `interpret_if`: only the branch the condition selects is evaluated. */
  function EvalIf(fs: Frames, f: nat, c: Expr, t: Expr, el: Expr, fuel: nat, foreign: Foreign): (r: Result<Out>)
    ensures r.Ok? ==> WritesOnly(fs, r.value.fs, f)
    decreases fuel, 1, 0
  {
    var co :- Eval(fs, f, c, fuel, foreign);
    if Truthy(co.v) then Eval(co.fs, f, t, fuel, foreign) else Eval(co.fs, f, el, fuel, foreign)
  }

  /** The bindings of a `let`, each evaluated in the `let`'s own frame `nf`
      and defined there before the next is evaluated. */
  function EvalBindings(fs: Frames, nf: nat, bs: seq<Binding>, fuel: nat, foreign: Foreign): (r: Result<Frames>)
    ensures r.Ok? ==> WritesOnly(fs, r.value, nf)
    ensures r.Ok? && nf < |fs| ==> forall i :: 0 <= i < |bs| ==> bs[i].key.lexeme in r.value[nf].vars
    decreases fuel, 1, |bs|
  {
    if bs == [] then Ok(fs)
    else
      var o :- Eval(fs, nf, bs[0].value, fuel, foreign);
      var fs' := Define(o.fs, nf, bs[0].key.lexeme, o.v);
      var r :- EvalBindings(fs', nf, bs[1..], fuel, foreign);
      assert forall i :: 1 <= i < |bs| ==> bs[i] == bs[1..][i - 1];
      Ok(r)
  }

  /** `interpret_let`: one new frame holds all the bindings; no frame that
      existed before is written. */
  function EvalLet(fs: Frames, f: nat, bs: seq<Binding>, body: Expr, fuel: nat, foreign: Foreign): (r: Result<Out>)
    ensures r.Ok? ==> Keeps(fs, r.value.fs)
    decreases fuel, 2, 0
  {
    var nf := |fs|;
    var fs' :- EvalBindings(Open(fs, f), nf, bs, fuel, foreign);
    Eval(fs', nf, body, fuel, foreign)
  }

  /** `interpret_do`: nil for no bodies, else every body in order and the
      value of the last. */
  function EvalDo(fs: Frames, f: nat, bodies: seq<Expr>, fuel: nat, foreign: Foreign): (r: Result<Out>)
    ensures bodies == [] ==> r == Ok(Out(RNil, fs))
    ensures r.Ok? ==> WritesOnly(fs, r.value.fs, f)
    decreases fuel, 2, 0
  {
    if bodies == [] then Ok(Out(RNil, fs))
    else
      var rs :- EvalAll(fs, f, bodies, fuel, foreign);
      Ok(Out(rs.vs[|rs.vs| - 1], rs.fs))
  }

  /** `interpret_s`: the operator must be a function and the number of
      arguments its arity (-1 takes any number); both are checked before
      any argument is evaluated. The arguments are then evaluated, checked
      against the declared types, and the callable invoked. */
  function EvalCall(fs: Frames, f: nat, op: Expr, children: seq<Expr>, fuel: nat, foreign: Foreign): (r: Result<Out>)
    ensures r.Ok? ==> WritesOnly(fs, r.value.fs, f)
    decreases fuel, 3, 0
  {
    var fo :- Eval(fs, f, op, fuel, foreign);
    if !fo.v.RFunc? then Err(RuntimeError(NotCallable))
    else
      var fn := fo.v.fn;
      var expected := if CallableArity(fn) == -1 then |children| else CallableArity(fn);
      if expected != |children| then Err(RuntimeError(ArityMismatch(CallableName(fn), expected, |children|)))
      else
        var args :- EvalAll(fo.fs, f, children, fuel, foreign);
        var check := CheckArgs(CallableParams(fn), CallableRest(fn), args.vs);
        if check.Some? then Err(check.value)
        else
          assert fn.Native? ==> Fits(fn.op, args.vs) by {
            if fn.Native? { ChecksEstablishFits(fn.op, args.vs); }
          }
          Invoke(args.fs, fn, args.vs, fuel, foreign)
  }

  /** A callable's `call`. A native computes its value; a closure evaluates
      its body in a new frame under the frame it was created in. Either way
      no frame that existed before the call is written. */
  function Invoke(fs: Frames, fn: Callable, args: seq<RVal>, fuel: nat, foreign: Foreign): (r: Result<Out>)
    requires fn.Native? ==> Fits(fn.op, args)
    ensures r.Ok? ==> Keeps(fs, r.value.fs)
    decreases fuel, 1, 0
  {
    match fn
    case Native(op) =>
      var v :- Apply(op, args, foreign);
      Ok(Out(v, fs))
    case Closure(params, body, _, _) =>
      if |args| > |params| then Err(TypeError(ReadOfUndefined("lexeme")))
      else Eval(fs + [CallFrame(fn, args)], |fs|, body, fuel, foreign)
  }

  // ---- properties of evaluation ----

  /** The branch `if` does not take never matters. */
  lemma IfIgnoresOtherBranch(fs: Frames, f: nat, c: Expr, t: Expr, el: Expr, el': Expr, fuel: nat, foreign: Foreign)
    requires Eval(fs, f, c, fuel, foreign).Ok?
    ensures Truthy(Eval(fs, f, c, fuel, foreign).value.v) ==>
      EvalIf(fs, f, c, t, el, fuel, foreign) == EvalIf(fs, f, c, t, el', fuel, foreign)
    ensures !Truthy(Eval(fs, f, c, fuel, foreign).value.v) ==>
      EvalIf(fs, f, c, el, t, fuel, foreign) == EvalIf(fs, f, c, el', t, fuel, foreign)
  {
  }

  /** A call whose operator is not a function fails, whatever its arguments. */
  lemma CallNonFunction(fs: Frames, f: nat, op: Expr, children: seq<Expr>, fuel: nat, foreign: Foreign)
    requires Eval(fs, f, op, fuel, foreign).Ok? && !Eval(fs, f, op, fuel, foreign).value.v.RFunc?
    ensures EvalCall(fs, f, op, children, fuel, foreign) == Err(RuntimeError(NotCallable))
  {
  }

  /** A fixed arity that the number of arguments misses fails the call
      before any argument is evaluated: the result depends only on how many
      arguments there are. */
  lemma ArityCheckedFirst(fs: Frames, f: nat, op: Expr, children: seq<Expr>, others: seq<Expr>, fuel: nat, foreign: Foreign)
    requires Eval(fs, f, op, fuel, foreign).Ok? && Eval(fs, f, op, fuel, foreign).value.v.RFunc?
    requires var fn := Eval(fs, f, op, fuel, foreign).value.v.fn;
      CallableArity(fn) != -1 && CallableArity(fn) != |children|
    requires |others| == |children|
    ensures EvalCall(fs, f, op, children, fuel, foreign).Err?
    ensures EvalCall(fs, f, op, children, fuel, foreign) == EvalCall(fs, f, op, others, fuel, foreign)
  {
  }

  /** A `do` of one body is that body. */
  lemma DoSingle(fs: Frames, f: nat, e: Expr, fuel: nat, foreign: Foreign)
    ensures EvalDo(fs, f, [e], fuel, foreign) == Eval(fs, f, e, fuel, foreign)
  {
    var o := Eval(fs, f, e, fuel, foreign);
    assert [e][0] == e && [e][1..] == [];
    if o.Ok? {
      assert EvalAll(o.value.fs, f, [], fuel, foreign) == Ok(Outs([], o.value.fs));
    }
  }

  /** The pieces of `EvalAll` once its first element is split off. */
  function Prepend(vs: seq<RVal>, r: Result<Outs>): Result<Outs>
  {
    if r.Ok? then Ok(Outs(vs + r.value.vs, r.value.fs)) else r
  }

  lemma EvalAllStep(fs: Frames, f: nat, es: seq<Expr>, i: nat, fuel: nat, foreign: Foreign)
    requires i < |es| && Eval(fs, f, es[i], fuel, foreign).Ok?
    ensures var o := Eval(fs, f, es[i], fuel, foreign).value;
      EvalAll(fs, f, es[i..], fuel, foreign) == Prepend([o.v], EvalAll(o.fs, f, es[i + 1..], fuel, foreign))
  {
    assert es[i..][0] == es[i] && es[i..][1..] == es[i + 1..];
  }

  lemma PrependNothing(r: Result<Outs>)
    ensures Prepend([], r) == r
  {
    if r.Ok? { assert [] + r.value.vs == r.value.vs; }
  }

  lemma PrependTwice(a: seq<RVal>, b: seq<RVal>, r: Result<Outs>)
    ensures Prepend(a, Prepend(b, r)) == Prepend(a + b, r)
  {
    if r.Ok? { assert a + (b + r.value.vs) == (a + b) + r.value.vs; }
  }

  /** The loop of `interpret_do`: every body but the last for its effect,
      then the last for the value. */
  method EvalDoLoop(fs: Frames, f: nat, bodies: seq<Expr>, fuel: nat, foreign: Foreign) returns (r: Result<Out>)
    ensures r == EvalDo(fs, f, bodies, fuel, foreign)
  {
    if |bodies| == 0 {
      return Ok(Out(RNil, fs));
    }
    var cur := fs;
    ghost var vals: seq<RVal> := [];
    var i := 0;
    assert bodies[0..] == bodies;
    PrependNothing(EvalAll(fs, f, bodies, fuel, foreign));
    while i < |bodies| - 1
      invariant 0 <= i <= |bodies| - 1
      invariant EvalAll(fs, f, bodies, fuel, foreign) == Prepend(vals, EvalAll(cur, f, bodies[i..], fuel, foreign))
    {
      var o := Eval(cur, f, bodies[i], fuel, foreign);
      if o.Err? {
        assert bodies[i..][0] == bodies[i];
        return Err(o.fault);
      }
      EvalAllStep(cur, f, bodies, i, fuel, foreign);
      PrependTwice(vals, [o.value.v], EvalAll(o.value.fs, f, bodies[i + 1..], fuel, foreign));
      vals := vals + [o.value.v];
      cur := o.value.fs;
      i := i + 1;
    }
    r := Eval(cur, f, bodies[i], fuel, foreign);
    if r.Ok? {
      EvalAllStep(cur, f, bodies, i, fuel, foreign);
      assert bodies[i + 1..] == [];
    } else {
      assert bodies[i..][0] == bodies[i];
    }
  }

  /** The loop of `interpret_let` over the bindings. */
  method EvalBindingsLoop(fs: Frames, nf: nat, bs: seq<Binding>, fuel: nat, foreign: Foreign) returns (r: Result<Frames>)
    ensures r == EvalBindings(fs, nf, bs, fuel, foreign)
  {
    var cur := fs;
    var i := 0;
    while i < |bs|
      invariant 0 <= i <= |bs|
      invariant EvalBindings(fs, nf, bs, fuel, foreign) == EvalBindings(cur, nf, bs[i..], fuel, foreign)
    {
      assert bs[i..][0] == bs[i] && bs[i..][1..] == bs[i + 1..];
      var o := Eval(cur, nf, bs[i].value, fuel, foreign);
      if o.Err? {
        return Err(o.fault);
      }
      cur := Define(o.value.fs, nf, bs[i].key.lexeme, o.value.v);
      i := i + 1;
    }
    return Ok(cur);
  }

  // ---- the program ----

  /** The bindings of the natives, defined in the order of `native_funcs`. */
  function NativeBindings(ops: seq<NativeOp>): map<string, RVal>
  {
    if ops == [] then map[]
    else NativeBindings(ops[..|ops| - 1])[NativeName(ops[|ops| - 1]) := RFunc(Native(ops[|ops| - 1]), Some(NativeName(ops[|ops| - 1])))]
  }

  /** Every native is found under its own name. */
  lemma {:induction false} NativeBindingsFind(ops: seq<NativeOp>, op: NativeOp)
    requires op in ops
    requires forall i, j :: 0 <= i < j < |ops| ==> NativeName(ops[i]) != NativeName(ops[j])
    ensures NativeName(op) in NativeBindings(ops)
    ensures NativeBindings(ops)[NativeName(op)] == RFunc(Native(op), Some(NativeName(op)))
  {
    var last := ops[|ops| - 1];
    if op != last {
      var k :| 0 <= k < |ops| && ops[k] == op;
      assert k < |ops| - 1 && ops[..|ops| - 1][k] == op;
      NativeBindingsFind(ops[..|ops| - 1], op);
    }
  }

  /** The arena `interpret` starts from: one frame with the natives. */
  function Globals(): Frames
  {
    [Frame(NativeBindings(NativeOps()), None)]
  }

  lemma GlobalsHoldNatives(op: NativeOp)
    ensures Resolve(Globals(), 0, NativeName(op)) == Some(RFunc(Native(op), Some(NativeName(op))))
  {
    forall i, j | 0 <= i < j < |NativeOps()| ensures NativeName(NativeOps()[i]) != NativeName(NativeOps()[j]) {
      NativeNamesDistinct(i, j);
    }
    NativeOpsComplete(op);
    NativeBindingsFind(NativeOps(), op);
  }

  /** What `interpret` returns: the rendered value of the last form, or ""
      for an empty program and after any error; a runtime error is also
      reported. */
  datatype Outcome = Outcome(text: string, reported: Option<RuntimeFailure>)

  /** `interpret`: every form in the global frame, in order. Any error
      stops the run and gives ""; only a runtime error is reported. The
      model's own `OutOfFuel` is the one failure that comes back as
      such. */
  function Run(program: seq<Expr>, fuel: nat, foreign: Foreign, render: RVal -> string): (r: Result<Outcome>)
    ensures program == [] ==> r == Ok(Outcome("", None))
    ensures r.Ok? && r.value.reported.Some? ==> r.value.text == ""
    ensures r.Err? <==> EvalAll(Globals(), 0, program, fuel, foreign) == Err(OutOfFuel)
    ensures r.Err? ==> r.fault == OutOfFuel
    ensures (EvalAll(Globals(), 0, program, fuel, foreign).Err? && !EvalAll(Globals(), 0, program, fuel, foreign).fault.OutOfFuel?)
      ==> r.Ok? && r.value.text == ""
    ensures program != [] && EvalAll(Globals(), 0, program, fuel, foreign).Ok?
      ==> r == Ok(Outcome(render(EvalAll(Globals(), 0, program, fuel, foreign).value.vs[|program| - 1]), None))
  {
    match EvalAll(Globals(), 0, program, fuel, foreign)
    case Err(RuntimeError(e)) => Ok(Outcome("", Some(e)))
    case Err(OutOfFuel) => Err(OutOfFuel)
    case Err(_) => Ok(Outcome("", None))
    case Ok(rs) => Ok(Outcome(if program == [] then "" else render(rs.vs[|rs.vs| - 1]), None))
  }

  /** How `interpret` ends on the outcome of a form: a runtime error is
      reported, any other error is caught silently, a value is rendered;
      running out of fuel comes back as such. */
  function Finish(o: Result<Out>, render: RVal -> string): (r: Result<Outcome>)
    ensures o.Err? && o.fault.RuntimeError? ==> r == Ok(Outcome("", Some(o.fault.run)))
    ensures o.Err? && o.fault.OutOfFuel? ==> r == Err(OutOfFuel)
    ensures o.Err? && !o.fault.RuntimeError? && !o.fault.OutOfFuel? ==> r == Ok(Outcome("", None))
    ensures o.Ok? ==> r == Ok(Outcome(render(o.value.v), None))
  {
    match o
    case Err(RuntimeError(e)) => Ok(Outcome("", Some(e)))
    case Err(OutOfFuel) => Err(OutOfFuel)
    case Err(_) => Ok(Outcome("", None))
    case Ok(out) => Ok(Outcome(render(out.v), None))
  }

  /** `(-)`: the checker admits it, since `-` takes any number of
      numbers, but `-` reads the value of its missing first argument. The
      TypeError is caught, and the program prints nothing and reports
      nothing. */
  lemma MinusAloneSilent(tok: Token, caps: CapRef, ty: Slot, lp: Token, fuel: nat, foreign: Foreign, render: RVal -> string)
    requires tok.lexeme == "-" && fuel >= 2
    ensures Run([SE(SymbolE(tok, caps, ty), [], caps, ty, lp)], fuel, foreign, render) == Ok(Outcome("", None))
  {
    var op := SymbolE(tok, caps, ty);
    var minus := RFunc(Native(Subtract), Some("-"));
    GlobalsHoldNatives(Subtract);
    assert Eval(Globals(), 0, op, fuel - 1, foreign) == Ok(Out(minus, Globals()));
    assert EvalAll(Globals(), 0, [], fuel - 1, foreign) == Ok(Outs([], Globals()));
    assert Invoke(Globals(), Native(Subtract), [], fuel - 1, foreign) == Err(TypeError(ReadOfUndefined("value")));
    assert EvalCall(Globals(), 0, op, [], fuel - 1, foreign) == Err(TypeError(ReadOfUndefined("value")));
    var e := SE(op, [], caps, ty, lp);
    assert Eval(Globals(), 0, e, fuel, foreign) == Err(TypeError(ReadOfUndefined("value")));
    assert EvalAll(Globals(), 0, [e], fuel, foreign) == Err(TypeError(ReadOfUndefined("value")));
  }

  /** Once the forms before `i` have given `vals` and left `cur`, a failure
      of form `i`, or the value of the last form, decides the run. */
  lemma {:induction false} RunAt(program: seq<Expr>, fuel: nat, foreign: Foreign, render: RVal -> string,
                                 vals: seq<RVal>, cur: Frames, i: nat)
    requires i < |program|
    requires EvalAll(Globals(), 0, program, fuel, foreign) == Prepend(vals, EvalAll(cur, 0, program[i..], fuel, foreign))
    ensures var o := Eval(cur, 0, program[i], fuel, foreign);
      o.Err? || i == |program| - 1 ==> Run(program, fuel, foreign, render) == Finish(o, render)
  {
    var o := Eval(cur, 0, program[i], fuel, foreign);
    assert program[i..][0] == program[i];
    if o.Ok? && i == |program| - 1 {
      EvalAllStep(cur, 0, program, i, fuel, foreign);
      assert program[i + 1..] == [];
      assert EvalAll(o.value.fs, 0, program[i + 1..], fuel, foreign) == Ok(Outs([], o.value.fs));
    }
  }

  /** The loop of `interpret`. */
  method Interpret(program: seq<Expr>, fuel: nat, foreign: Foreign, render: RVal -> string) returns (r: Result<Outcome>)
    ensures r == Run(program, fuel, foreign, render)
  {
    if |program| == 0 {
      return Ok(Outcome("", None));
    }
    var cur := Globals();
    ghost var vals: seq<RVal> := [];
    var i := 0;
    assert program[0..] == program;
    PrependNothing(EvalAll(cur, 0, program, fuel, foreign));
    while i < |program| - 1
      invariant 0 <= i <= |program| - 1
      invariant EvalAll(Globals(), 0, program, fuel, foreign) == Prepend(vals, EvalAll(cur, 0, program[i..], fuel, foreign))
    {
      var o := Eval(cur, 0, program[i], fuel, foreign);
      if o.Err? {
        RunAt(program, fuel, foreign, render, vals, cur, i);
        return Finish(o, render);
      }
      EvalAllStep(cur, 0, program, i, fuel, foreign);
      PrependTwice(vals, [o.value.v], EvalAll(o.value.fs, 0, program[i + 1..], fuel, foreign));
      vals := vals + [o.value.v];
      cur := o.value.fs;
      i := i + 1;
    }
    var last := Eval(cur, 0, program[i], fuel, foreign);
    RunAt(program, fuel, foreign, render, vals, cur, i);
    return Finish(last, render);
  }
}
