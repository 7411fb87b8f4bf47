/** The code generator's scope: `TranslatorEnv` and `VarType`, which
    src/asm.ts imports from src/environment.ts. Neither is part of this
    model's sources, so both are rebuilt from how src/asm.ts uses them:
    - `bind(key, type, label?)` records `{type, index, label}` under
      `key`, where `index` is the number of names of that type the frame
      has bound so far (`tracker[type]`), and counts one more;
    - `retrieve(token)` returns the entry, or raises "Unable to resolve
      symbol";
    - `symbolMap` is a plain object, so its keys enumerate in the order
      they were first bound, and binding a key again keeps its place;
    - `new TranslatorEnv(enclosing, true)` (a `let`) starts as a copy of
      the enclosing frame, entries and counts alike, and
      `new TranslatorEnv(enclosing)` (a function) starts empty.
    A lookup consults only its own frame: a function's frame binds again
    every name of the frame it is defined in and a `let` frame copies
    it, so the enclosing frames hold nothing more. */
module TranslatorEnvs {
  import opened Wrappers
  import opened Syntax

  /** Where a name lives at run time: a slot of the current frame, a
      parameter, a slot of the running closure, or a function label. */
  datatype VarType = Local | Param | Closure | Func

  /** `TEnvVar`; `label` is only meaningful for `Func`. */
  datatype TEnvVar = TEnvVar(kind: VarType, index: nat, name: string)

  datatype Entry = Entry(key: string, v: TEnvVar)

  /** `tracker`: how many names of each kind the frame has bound. */
  datatype Tracker = Tracker(locals: nat, params: nat, closures: nat, funcs: nat)
  {
    function Of(k: VarType): nat
    {
      match k
      case Local => locals
      case Param => params
      case Closure => closures
      case Func => funcs
    }

    function Bump(k: VarType): (r: Tracker)
      ensures r.Of(k) == Of(k) + 1
      ensures forall j: VarType :: j != k ==> r.Of(j) == Of(j)
    {
      match k
      case Local => this.(locals := locals + 1)
      case Param => this.(params := params + 1)
      case Closure => this.(closures := closures + 1)
      case Func => this.(funcs := funcs + 1)
    }
  }

  /** A frame: `symbolMap` as its entries in key order, and `tracker`. */
  datatype TEnv = TEnv(symbols: seq<Entry>, tracker: Tracker)

  /** `new TranslatorEnv()`. */
  const Empty := TEnv([], Tracker(0, 0, 0, 0))

  /** `new TranslatorEnv(enclosing, inherit)`. */
  function Nested(enclosing: TEnv, inherit: bool): TEnv
  {
    if inherit then enclosing else Empty
  }

  /** `Object.keys(symbolMap)`. */
  function Keys(es: seq<Entry>): (r: seq<string>)
    ensures |r| == |es|
    ensures forall i :: 0 <= i < |es| ==> r[i] == es[i].key
  {
    seq(|es|, i requires 0 <= i < |es| => es[i].key)
  }

  predicate DistinctKeys(es: seq<Entry>)
  {
    forall i, j :: 0 <= i < j < |es| ==> es[i].key != es[j].key
  }

  /** The position of `key` among the entries: the first one with it. */
  function Find(es: seq<Entry>, key: string): (r: Option<nat>)
    ensures r.Some? ==> r.value < |es| && es[r.value].key == key
    ensures r.Some? ==> forall j :: 0 <= j < r.value ==> es[j].key != key
    ensures r.None? <==> forall j :: 0 <= j < |es| ==> es[j].key != key
  {
    FindFrom(es, key, 0)
  }

  /** The first position from `i` on that holds `key`. */
  function FindFrom(es: seq<Entry>, key: string, i: nat): (r: Option<nat>)
    requires i <= |es|
    ensures r.Some? ==> i <= r.value < |es| && es[r.value].key == key
    ensures r.Some? ==> forall j :: i <= j < r.value ==> es[j].key != key
    ensures r.None? <==> forall j :: i <= j < |es| ==> es[j].key != key
    decreases |es| - i
  {
    if i == |es| then None
    else if es[i].key == key then Some(i)
    else FindFrom(es, key, i + 1)
  }

  /** Entries with the same keys in the same order find every key at the
      same place. */
  lemma FindByKeys(es: seq<Entry>, fs: seq<Entry>, key: string)
    requires Keys(es) == Keys(fs)
    ensures Find(es, key) == Find(fs, key)
  {
    assert |es| == |fs|;
    assert forall j :: 0 <= j < |es| ==> es[j].key == Keys(es)[j] == Keys(fs)[j] == fs[j].key;
  }

  function Lookup(env: TEnv, key: string): Option<TEnvVar>
  {
    match Find(env.symbols, key)
    case None => None
    case Some(i) => Some(env.symbols[i].v)
  }

  /** `retrieve`: the entry bound to the token's name. */
  function Retrieve(env: TEnv, tok: Token): (r: Result<TEnvVar>)
    ensures r.Ok? <==> Lookup(env, tok.lexeme).Some?
    ensures r.Ok? ==> Some(r.value) == Lookup(env, tok.lexeme)
    ensures r.Err? ==> r.fault == RuntimeError(Unresolved(tok.lexeme))
  {
    match Lookup(env, tok.lexeme)
    case None => Err(RuntimeError(Unresolved(tok.lexeme)))
    case Some(v) => Ok(v)
  }

  /** `bind(key, kind, name)`: a new entry for a new key, the old
      entry's place for a key already bound. */
  function Bind(env: TEnv, key: string, kind: VarType, name: string): (r: TEnv)
    ensures r.tracker == env.tracker.Bump(kind)
  {
    var v := TEnvVar(kind, env.tracker.Of(kind), name);
    match Find(env.symbols, key)
    case Some(i) => TEnv(env.symbols[i := Entry(key, v)], env.tracker.Bump(kind))
    case None => TEnv(env.symbols + [Entry(key, v)], env.tracker.Bump(kind))
  }

  /** After binding, the key finds the new variable, numbered by the
      count of its kind before; the keys keep their order and a new key
      comes last. */
  lemma BindFinds(env: TEnv, key: string, kind: VarType, name: string)
    ensures Lookup(Bind(env, key, kind, name), key) == Some(TEnvVar(kind, env.tracker.Of(kind), name))
    ensures Keys(Bind(env, key, kind, name).symbols) ==
      if Find(env.symbols, key).Some? then Keys(env.symbols) else Keys(env.symbols) + [key]
  {
    var v := TEnvVar(kind, env.tracker.Of(kind), name);
    match Find(env.symbols, key)
    case Some(i) =>
      assert Keys(env.symbols[i := Entry(key, v)]) == Keys(env.symbols);
      FindByKeys(env.symbols, env.symbols[i := Entry(key, v)], key);
    case None =>
      var fs := env.symbols + [Entry(key, v)];
      assert fs[|env.symbols|].key == key;
      assert Keys(fs) == Keys(env.symbols) + [key];
  }

  /** Binding a name leaves every other name as it was. */
  lemma BindOther(env: TEnv, key: string, kind: VarType, name: string, other: string)
    requires other != key
    ensures Lookup(Bind(env, key, kind, name), other) == Lookup(env, other)
  {
    var v := TEnvVar(kind, env.tracker.Of(kind), name);
    var es := env.symbols;
    match Find(es, key)
    case Some(i) =>
      var fs := es[i := Entry(key, v)];
      assert Keys(fs) == Keys(es);
      FindByKeys(es, fs, other);
    case None =>
      var fs := es + [Entry(key, v)];
      match Find(es, other)
      case Some(j) =>
        assert fs[j] == es[j];
        assert forall k :: 0 <= k < j ==> fs[k] == es[k];
      case None =>
        assert forall k :: 0 <= k < |fs| ==> fs[k].key != other by {
          forall k | 0 <= k < |fs| ensures fs[k].key != other {
            if k < |es| { assert fs[k] == es[k]; }
          }
        }
  }

  /** Binding keeps the keys of a frame distinct. */
  lemma BindDistinct(env: TEnv, key: string, kind: VarType, name: string)
    requires DistinctKeys(env.symbols)
    ensures DistinctKeys(Bind(env, key, kind, name).symbols)
  {
    var r := Bind(env, key, kind, name);
    BindFinds(env, key, kind, name);
    assert forall i :: 0 <= i < |r.symbols| ==> r.symbols[i].key == Keys(r.symbols)[i];
    assert forall i :: 0 <= i < |env.symbols| ==> env.symbols[i].key == Keys(env.symbols)[i];
  }

  /** Binding each of `keys` in turn with one kind, as the loops of
      `compile_fn` do. */
  function BindAll(env: TEnv, keys: seq<string>, kind: VarType): (r: TEnv)
    ensures r.tracker.Of(kind) == env.tracker.Of(kind) + |keys|
    ensures forall j: VarType :: j != kind ==> r.tracker.Of(j) == env.tracker.Of(j)
  {
    if keys == [] then env
    else Bind(BindAll(env, keys[..|keys| - 1], kind), keys[|keys| - 1], kind, "")
  }

  /** A name none of `keys` mentions keeps its binding. */
  lemma {:induction false} BindAllOther(env: TEnv, keys: seq<string>, kind: VarType, other: string)
    requires forall i :: 0 <= i < |keys| ==> keys[i] != other
    ensures Lookup(BindAll(env, keys, kind), other) == Lookup(env, other)
  {
    if keys != [] {
      BindAllOther(env, keys[..|keys| - 1], kind, other);
      BindOther(BindAll(env, keys[..|keys| - 1], kind), keys[|keys| - 1], kind, "", other);
    }
  }

  /** The name at position `i` of `keys`, if no later key repeats it, is
      bound with index `i` past the kind's earlier count. */
  lemma {:induction false} BindAllAt(env: TEnv, keys: seq<string>, kind: VarType, i: nat)
    requires i < |keys|
    requires forall j :: i < j < |keys| ==> keys[j] != keys[i]
    ensures Lookup(BindAll(env, keys, kind), keys[i]) == Some(TEnvVar(kind, env.tracker.Of(kind) + i, ""))
  {
    var last := |keys| - 1;
    var prefix := keys[..last];
    var before := BindAll(env, prefix, kind);
    var after := Bind(before, keys[last], kind, "");
    assert BindAll(env, keys, kind) == after;
    if i == last {
      assert before.tracker.Of(kind) == env.tracker.Of(kind) + i;
      BindFinds(before, keys[last], kind, "");
      assert Lookup(after, keys[i]) == Some(TEnvVar(kind, before.tracker.Of(kind), ""));
    } else {
      assert prefix[i] == keys[i];
      assert forall j :: i < j < |prefix| ==> prefix[j] == keys[j];
      BindAllAt(env, prefix, kind, i);
      BindOther(before, keys[last], kind, "", keys[i]);
      assert Lookup(after, keys[i]) == Lookup(before, keys[i]);
    }
  }

  /** A function's frame before its own name: the captured names as
      closure slots, then the parameters. */
  function FrameOf(captured: seq<string>, params: seq<string>): TEnv
  {
    BindAll(BindAll(Empty, captured, Closure), params, Param)
  }

  /** Parameter `j`, unless a later parameter repeats it, is parameter
      number `j`. */
  lemma FrameParam(captured: seq<string>, params: seq<string>, j: nat)
    requires j < |params|
    requires forall k :: j < k < |params| ==> params[k] != params[j]
    ensures Lookup(FrameOf(captured, params), params[j]) == Some(TEnvVar(Param, j, ""))
  {
    var withClosure := BindAll(Empty, captured, Closure);
    assert withClosure.tracker.Of(Param) == 0;
    BindAllAt(withClosure, params, Param, j);
  }

  /** Captured name `i`, unless a later captured name or a parameter
      repeats it, is closure slot `i`. */
  lemma FrameCaptured(captured: seq<string>, params: seq<string>, i: nat)
    requires i < |captured|
    requires forall k :: i < k < |captured| ==> captured[k] != captured[i]
    requires captured[i] !in params
    ensures Lookup(FrameOf(captured, params), captured[i]) == Some(TEnvVar(Closure, i, ""))
  {
    BindAllAt(Empty, captured, Closure, i);
    BindAllOther(BindAll(Empty, captured, Closure), params, Param, captured[i]);
  }
}
