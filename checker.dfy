/** The static checker (src/checker.ts): turns value trees into typed
    trees, enforcing the shape of the special forms and inferring function
    types.

    Type objects and capture arrays live in a `Heap` (module Types) and are
    updated in place, as the source's objects are: narrowing an argument
    (src/checker.ts:239-240) and inferring a placeholder's function type
    (253-259) overwrite a heap slot that every node and scope entry holding
    that slot sees; `fn` clears the `narrowable` flag of its body's
    placeholder type (132-133); `if` grows its condition's capture array
    and `fn` splices its body's.

    Scopes are the value chains of module Environments, holding the type
    slot of each name: the checker reads nothing of a retrieved entry but
    its `return_type`. `satisfies` and `narrow` come from src/expr.ts, which
    is not part of this model; an `Oracle` supplies them, given the type
    heap and the two slots. */
module Checker {
  import opened Syntax
  import opened Wrappers
  import opened Types
  import opened Captures
  import opened Environments
  import Runtime

  datatype Oracle = Oracle(
    sat: (seq<TypeObj>, Slot, Slot) -> bool,
    nar: (seq<TypeObj>, Slot, Slot) -> Type)

  datatype St = St(h: Heap, env: Chain<Slot>)
  datatype Checked = Checked(e: Expr, st: St)
  datatype CheckedAll = CheckedAll(es: seq<Expr>, st: St)
  datatype CheckedBindings = CheckedBindings(bs: seq<Binding>, st: St)

  // ---- the heap ----

  function NewType(h: Heap, t: TypeObj): Heap
  {
    Heap(h.types + [t], h.caps)
  }

  function NewCaps(h: Heap, c: seq<Token>): Heap
  {
    Heap(h.types, h.caps + [c])
  }

  function WriteType(h: Heap, s: Slot, t: TypeObj): Heap
  {
    if s < |h.types| then Heap(h.types[s := t], h.caps) else h
  }

  function WriteCaps(h: Heap, c: CapRef, v: seq<Token>): Heap
  {
    if c < |h.caps| then Heap(h.types, h.caps[c := v]) else h
  }

  /** A type object that no step of the checker writes again: neither a
      placeholder nor flagged narrowable. */
  predicate Settled(t: TypeObj)
  {
    !t.t.PolyT? && !t.narrowable
  }

  /** How the heap evolves while checking: it only grows, settled types
      keep their value, and capture arrays of finished nodes keep theirs. */
  predicate HeapGrows(a: Heap, b: Heap)
  {
    |a.types| <= |b.types| && |a.caps| <= |b.caps|
    && (forall s :: 0 <= s < |a.types| && Settled(a.types[s]) ==> b.types[s] == a.types[s])
    && (forall c :: 0 <= c < |a.caps| ==> b.caps[c] == a.caps[c])
  }

  /** Every capture array is free of repeated lexemes. */
  predicate CapsOk(h: Heap)
  {
    forall c :: 0 <= c < |h.caps| ==> Distinct(h.caps[c])
  }

  predicate Inv(st: St)
  {
    st.env != [] && CapsOk(st.h)
  }

  /** Checking a form in `a` led to `b`: the innermost frame may gain names
      (`defn`), the enclosing frames are untouched. */
  predicate Grows(a: St, b: St)
  {
    HeapGrows(a.h, b.h) && |b.env| == |a.env|
    && (a.env != [] ==> b.env[1..] == a.env[1..] && a.env[0].Keys <= b.env[0].Keys)
  }

  lemma GrowsTrans(a: St, b: St, c: St)
    requires Grows(a, b) && Grows(b, c)
    ensures Grows(a, c)
  {
  }

  /** `e` was made in the step from `a` to `b`: its capture array is new. */
  predicate Made(a: St, e: Expr, b: St)
  {
    Grows(a, b) && Inv(b) && |a.h.caps| <= e.caps < |b.h.caps|
  }

  predicate AllBelow(es: seq<Expr>, h: Heap)
  {
    forall i :: 0 <= i < |es| ==> es[i].caps < |h.caps|
  }

  lemma CapsAtDistinct(h: Heap, c: CapRef)
    requires CapsOk(h)
    ensures Distinct(CapsAt(h, c))
  {
  }

  // ---- capture arrays of compound nodes ----

  /** The lexemes captured by the nodes `es`. */
  function UnionOf(h: Heap, es: seq<Expr>): set<string>
  {
    if es == [] then {} else LexemesOf(CapsAt(h, es[0].caps)) + UnionOf(h, es[1..])
  }

  /** The call's `reduce` over its arguments, and the list's and vector's
      union of their children. */
  function MergeAll(acc: seq<Token>, h: Heap, es: seq<Expr>): (r: seq<Token>)
    ensures LexemesOf(r) == LexemesOf(acc) + UnionOf(h, es)
    ensures Distinct(acc) && CapsOk(h) ==> Distinct(r)
    decreases |es|
  {
    if es == [] then acc
    else
      MergeSpec(acc, CapsAt(h, es[0].caps));
      MergeAll(Merge(acc, CapsAt(h, es[0].caps)), h, es[1..])
  }

  /** The loop of `do` (src/checker.ts:196-203). */
  function Gather(acc: seq<Token>, h: Heap, es: seq<Expr>): (r: seq<Token>)
    ensures LexemesOf(r) == LexemesOf(acc) + UnionOf(h, es)
    ensures Distinct(acc) ==> Distinct(r)
    decreases |es|
  {
    if es == [] then acc
    else
      AddNewSpec(acc, CapsAt(h, es[0].caps));
      Gather(AddNew(acc, CapsAt(h, es[0].caps)), h, es[1..])
  }

  lemma {:induction false} UnionOfStable(h: Heap, h': Heap, es: seq<Expr>)
    requires |h.caps| <= |h'.caps| && h'.caps[..|h.caps|] == h.caps
    requires forall i :: 0 <= i < |es| ==> es[i].caps < |h.caps|
    ensures UnionOf(h', es) == UnionOf(h, es)
  {
    if es != [] {
      assert h'.caps[es[0].caps] == h.caps[es[0].caps];
      UnionOfStable(h, h', es[1..]);
    }
  }

  function TypesOf(es: seq<Expr>): (r: seq<Slot>)
    ensures |r| == |es| && forall i :: 0 <= i < |es| ==> r[i] == es[i].ty
  {
    seq(|es|, i requires 0 <= i < |es| => es[i].ty)
  }

  // ---- literals, symbols, quoted data ----

  function LitBase(v: LVal): BaseType
    requires v.IsLiteral()
  {
    match v
    case LNum(_) => TNumber
    case LStr(_) => TString
    case LBool(_) => TBoolean
    case _ => TNil
  }

  /** A literal is its own typed node, with an empty capture array and its
      base type. */
  function NewLit(st: St, v: LVal): (r: Checked)
    requires Inv(st) && v.IsLiteral()
    ensures Made(st, r.e, r.st) && r.st.env == st.env
    ensures r.e == Lit(v, r.e.caps, r.e.ty)
    ensures CapsAt(r.st.h, r.e.caps) == [] && TypeAt(r.st.h, r.e.ty) == TypeObj(BaseT(LitBase(v)), false)
  {
    var h := NewCaps(NewType(st.h, TypeObj(BaseT(LitBase(v)), false)), []);
    Checked(Lit(v, |st.h.caps|, |st.h.types|), St(h, st.env))
  }

  /** `check_symbol` (src/checker.ts:21-25). */
  function CheckSymbol(st: St, tok: Token): (r: Result<Checked>)
    requires Inv(st)
    ensures r.Ok? <==> BoundIn(st.env, tok.lexeme)
    ensures r.Err? ==> r.fault == RuntimeError(Unresolved(tok.lexeme))
    ensures r.Ok? ==> Made(st, r.value.e, r.value.st) && r.value.st.env == st.env
    ensures r.Ok? ==> r.value.e.SymbolE? && r.value.e.sym == tok
    ensures r.Ok? ==> CapsAt(r.value.st.h, r.value.e.caps) == [tok]
    ensures r.Ok? ==> Lookup(st.env, tok.lexeme) == Some(r.value.e.ty)
  {
    LookupSpec(st.env, tok.lexeme);
    match Lookup(st.env, tok.lexeme)
    case None => Err(RuntimeError(Unresolved(tok.lexeme)))
    case Some(s) =>
      Ok(Checked(SymbolE(tok, |st.h.caps|, s), St(NewCaps(st.h, [tok]), st.env)))
  }

  /** A list or vector node over checked children: its capture array is
      the union of theirs and its type is LIST or VECTOR. */
  function Collection(st0: St, cs: CheckedAll, lparen: Token, vector: bool): (r: Checked)
    requires Inv(cs.st) && Grows(st0, cs.st) && AllBelow(cs.es, cs.st.h)
    ensures Made(st0, r.e, r.st) && r.st.env == cs.st.env
    ensures vector ==> r.e == VectorE(cs.es, lparen, r.e.caps, r.e.ty)
    ensures !vector ==> r.e == ListE(cs.es, lparen, r.e.caps, r.e.ty)
    ensures TypeAt(r.st.h, r.e.ty).t == BaseT(if vector then TVector else TList)
    ensures LexemesOf(CapsAt(r.st.h, r.e.caps)) == UnionOf(r.st.h, cs.es)
  {
    var h := cs.st.h;
    var caps := MergeAll([], h, cs.es);
    var h' := NewCaps(NewType(h, TypeObj(BaseT(if vector then TVector else TList), false)), caps);
    UnionOfStable(h, h', cs.es);
    var e := if vector then VectorE(cs.es, lparen, |h.caps|, |h.types|) else ListE(cs.es, lparen, |h.caps|, |h.types|);
    Checked(e, St(h', cs.st.env))
  }

  /** `check_primary` (src/checker.ts:37-48): quoted data, where lists are
      data and not calls. */
  function CheckPrimary(st: St, v: LVal): (r: Result<Checked>)
    requires Inv(st)
    ensures r.Ok? ==> Made(st, r.value.e, r.value.st) && r.value.st.env == st.env
    ensures r.Ok? && v.LList? ==> r.value.e.ListE? && |r.value.e.children| == |v.items|
    ensures r.Ok? && v.LVector? ==> r.value.e.VectorE? && |r.value.e.children| == |v.items|
    decreases Size(v), 1
  {
    match v
    case LSym(t) => CheckSymbol(st, t)
    case LList(items, lp) =>
      var cs :- CheckPrimaries(st, items);
      Ok(Collection(st, cs, lp, false))
    case LVector(items, lp) =>
      var cs :- CheckPrimaries(st, items);
      Ok(Collection(st, cs, lp, true))
    case _ => Ok(NewLit(st, v))
  }

  function CheckPrimaries(st: St, items: seq<LVal>): (r: Result<CheckedAll>)
    requires Inv(st)
    ensures r.Ok? ==> |r.value.es| == |items| && Grows(st, r.value.st) && Inv(r.value.st)
    ensures r.Ok? ==> r.value.st.env == st.env && AllBelow(r.value.es, r.value.st.h)
    decreases SizeAll(items), 2
  {
    if items == [] then Ok(CheckedAll([], st))
    else
      assert SizeAll(items) == Size(items[0]) + SizeAll(items[1..]);
      var first :- CheckPrimary(st, items[0]);
      var rest :- CheckPrimaries(first.st, items[1..]);
      Ok(CheckedAll([first.e] + rest.es, rest.st))
  }

  // ---- dispatch ----

  datatype Form = QuoteForm | IfForm | FnForm(def: bool) | LetForm | DoForm | CallForm

  /** The special form a head symbol names (src/checker.ts:283-302). */
  function FormOf(lexeme: string): Form
  {
    if lexeme == "quote" then QuoteForm
    else if lexeme == "if" then IfForm
    else if lexeme == "fn" then FnForm(false)
    else if lexeme == "defn" then FnForm(true)
    else if lexeme == "let" then LetForm
    else if lexeme == "do" then DoForm
    else CallForm
  }

  /** `check_val` (src/checker.ts:267-311). */
  function CheckVal(st: St, v: LVal, o: Oracle): (r: Result<Checked>)
    requires Inv(st)
    ensures r.Ok? ==> Made(st, r.value.e, r.value.st)
    ensures v.LList? && v.items == [] ==> r == Err(CompileError(BadHead(v.lparen)))
    ensures v.LList? && v.items != [] && !v.items[0].LSym? && !v.items[0].LList? ==>
      r == Err(CompileError(BadHead(v.lparen)))
    decreases Size(v), 3
  {
    match v
    case LSym(t) => CheckSymbol(st, t)
    case LVector(_, _) => CheckPrimary(st, v)
    case LList(items, lp) =>
      if items == [] then Err(CompileError(BadHead(lp)))
      else
        var head, args := items[0], items[1..];
        assert SizeAll(items) == Size(head) + SizeAll(args);
        SizeAllEach(args);
        if head.LSym? then
          match FormOf(head.tok.lexeme)
          case QuoteForm =>
            if |args| != 1 then Err(CompileError(WrongArgCount(head.tok, |args|)))
            else CheckPrimary(st, args[0])
          case IfForm => CheckIf(st, head.tok, args, o)
          case FnForm(def) => CheckFn(st, head.tok, args, def, o)
          case LetForm => CheckLet(st, head.tok, args, o)
          case DoForm => CheckDo(st, head.tok, args, o)
          case CallForm => CheckS(st, head, args, o)
        else if head.LList? then CheckS(st, head, args, o)
        else Err(CompileError(BadHead(lp)))
    case _ => Ok(NewLit(st, v))
  }

  /** `args.map(arg => check_val(env, arg))`: each form sees the scope the
      forms before it left (a `defn` among them defines into it). */
  function CheckVals(st: St, args: seq<LVal>, o: Oracle): (r: Result<CheckedAll>)
    requires Inv(st)
    ensures r.Ok? ==> |r.value.es| == |args| && Grows(st, r.value.st) && Inv(r.value.st)
    ensures r.Ok? ==> AllBelow(r.value.es, r.value.st.h)
    ensures r.Ok? ==> forall i :: 0 <= i < |args| ==> |st.h.caps| <= r.value.es[i].caps
    decreases SizeAll(args), 4
  {
    if args == [] then Ok(CheckedAll([], st))
    else
      assert SizeAll(args) == Size(args[0]) + SizeAll(args[1..]);
      var first :- CheckVal(st, args[0], o);
      var rest :- CheckVals(first.st, args[1..], o);
      Ok(ConsChecked(st, first, rest))
  }

  /** A checked form in front of the forms checked after it. */
  function ConsChecked(st: St, first: Checked, rest: CheckedAll): (r: CheckedAll)
    requires Made(st, first.e, first.st) && Grows(first.st, rest.st) && Inv(rest.st)
    requires AllBelow(rest.es, rest.st.h)
    requires forall i :: 0 <= i < |rest.es| ==> |first.st.h.caps| <= rest.es[i].caps
    ensures |r.es| == |rest.es| + 1 && r.es[0] == first.e && r.es[1..] == rest.es
    ensures Grows(st, r.st) && Inv(r.st) && AllBelow(r.es, r.st.h)
    ensures forall i :: 0 <= i < |r.es| ==> |st.h.caps| <= r.es[i].caps
  {
    var es := [first.e] + rest.es;
    assert es[1..] == rest.es;
    CheckedAll(es, rest.st)
  }

  // ---- if ----

  /** `check_if` (src/checker.ts:50-71). */
  function CheckIf(st: St, op: Token, args: seq<LVal>, o: Oracle): (r: Result<Checked>)
    requires Inv(st)
    ensures |args| < 2 || |args| > 3 ==> r == Err(CompileError(WrongArgCount(op, |args|)))
    ensures r.Ok? ==> Made(st, r.value.e, r.value.st) && r.value.e.IfE?
    ensures r.Ok? ==> r.value.e.ty == r.value.e.trueChild.ty && r.value.e.caps == r.value.e.cond.caps
    ensures r.Ok? && |args| == 2 ==> r.value.e.falseChild.Lit? && r.value.e.falseChild.value == LNil
    ensures r.Ok? ==> var h, e := r.value.st.h, r.value.e;
      LexemesOf(CapsAt(h, e.trueChild.caps)) + LexemesOf(CapsAt(h, e.falseChild.caps))
        <= LexemesOf(CapsAt(h, e.caps))
    decreases SizeAll(args), 4
  {
    if |args| < 2 || |args| > 3 then Err(CompileError(WrongArgCount(op, |args|)))
    else
      SizeAllEach(args);
      var c :- CheckVal(st, args[0], o);
      var t :- CheckVal(c.st, args[1], o);
      var f :- if |args| == 3 then CheckVal(t.st, args[2], o) else Ok(NewLit(t.st, LNil));
      if !o.sat(f.st.h.types, f.e.ty, t.e.ty) then Err(CompileError(BranchTypesDiffer(op)))
      else Ok(IfNode(st, c, t, f))
  }

  /** The `if` node over its checked parts: the condition's capture array
      gains, in order, the branches' captures it lacks (src/checker.ts:65-70). */
  function IfNode(st: St, c: Checked, t: Checked, f: Checked): (r: Checked)
    requires Made(st, c.e, c.st) && Made(c.st, t.e, t.st) && Made(t.st, f.e, f.st)
    ensures Made(st, r.e, r.st) && r.e == IfE(c.e, t.e, f.e, c.e.caps, t.e.ty)
    ensures LexemesOf(CapsAt(r.st.h, c.e.caps)) == LexemesOf(CapsAt(f.st.h, c.e.caps))
      + LexemesOf(CapsAt(r.st.h, t.e.caps)) + LexemesOf(CapsAt(r.st.h, f.e.caps))
  {
    GrowsTrans(st, c.st, t.st);
    GrowsTrans(st, t.st, f.st);
    var h := f.st.h;
    var more := CapsAt(h, t.e.caps) + CapsAt(h, f.e.caps);
    var caps := AddNew(CapsAt(h, c.e.caps), more);
    assert Distinct(caps) && LexemesOf(caps) == LexemesOf(CapsAt(h, c.e.caps)) + LexemesOf(more) by {
      CapsAtDistinct(h, c.e.caps);
      AddNewSpec(CapsAt(h, c.e.caps), more);
    }
    LexemesAppend(CapsAt(h, t.e.caps), CapsAt(h, f.e.caps));
    Checked(IfE(c.e, t.e, f.e, c.e.caps, t.e.ty), St(WriteCaps(h, c.e.caps, caps), f.st.env))
  }

  // ---- fn and defn ----

  /** The parameter vector of `fn`/`defn`: after the name when there is one. */
  function ParamVector(args: seq<LVal>, def: bool): LVal
    requires |args| >= 2
  {
    if def || args[0].LSym? then args[1] else args[0]
  }

  datatype Params = Params(h: Heap, frame: map<string, Slot>, positional: seq<Token>, rest: Option<Token>)

  /** The parameter loop (src/checker.ts:101-118): each parameter is bound
      to a fresh narrowable placeholder named after it, until `&`, which
      must be second to last; the name after it is bound to LIST and both
      are cut off the positional list. */
  function ParamLoop(h: Heap, m: map<string, Slot>, toks: seq<Token>, i: nat, op: Token): (r: Result<Params>)
    requires i <= |toks|
    requires forall k :: k in m ==> m[k] < |h.types|
    requires forall j :: 0 <= j < i ==> toks[j].lexeme in m
    ensures r.Ok? ==> r.value.h.caps == h.caps && HeapGrows(h, r.value.h)
    ensures r.Ok? ==> m.Keys <= r.value.frame.Keys
    ensures r.Ok? ==> forall k :: k in r.value.frame ==> r.value.frame[k] < |r.value.h.types|
    ensures r.Ok? ==> forall t :: t in r.value.positional ==> t.lexeme in r.value.frame
    ensures r.Ok? && r.value.rest.Some? ==> r.value.rest.value.lexeme in r.value.frame
    ensures r.Ok? && r.value.rest.Some? ==> TypeAt(r.value.h, r.value.frame[r.value.rest.value.lexeme]).t == BaseT(TList)
    decreases |toks| - i
  {
    if i == |toks| then Ok(Params(h, m, toks, None))
    else if toks[i].lexeme == "&" then
      if i != |toks| - 2 then Err(CompileError(BadVariadic(op)))
      else
        var rest := toks[|toks| - 1];
        Ok(Params(NewType(h, TypeObj(BaseT(TList), false)), m[rest.lexeme := |h.types|], toks[..|toks| - 2], Some(rest)))
    else
      ParamLoop(NewType(h, TypeObj(PolyT(toks[i].lexeme), true)), m[toks[i].lexeme := |h.types|], toks, i + 1, op)
  }

  /** How the parameters were split: no `&` leaves them all positional;
      otherwise `&` is second to last and the last is the rest name. */
  predicate RestSplit(toks: seq<Token>, positional: seq<Token>, rest: Option<Token>)
  {
    match FindLexeme(toks, "&")
    case None => positional == toks && rest == None
    case Some(k) => k == |toks| - 2 && positional == toks[..k] && rest == Some(toks[k + 1])
  }

  /** The loop accepts exactly the parameter lists where `&`, if present,
      is second to last, and splits them as `RestSplit` says. */
  lemma {:induction false} ParamLoopSpec(h: Heap, m: map<string, Slot>, toks: seq<Token>, i: nat, op: Token)
    requires i <= |toks|
    requires forall k :: k in m ==> m[k] < |h.types|
    requires forall j :: 0 <= j < i ==> toks[j].lexeme in m && toks[j].lexeme != "&"
    ensures var r := ParamLoop(h, m, toks, i, op);
      (r.Ok? <==> FindLexeme(toks, "&").None? || FindLexeme(toks, "&").value == |toks| - 2)
      && (r.Err? ==> r.fault == CompileError(BadVariadic(op)))
      && (r.Ok? ==> RestSplit(toks, r.value.positional, r.value.rest))
    decreases |toks| - i
  {
    var k := FindLexeme(toks, "&");
    if i == |toks| {
      NotInLexemes(toks, "&");
    } else if toks[i].lexeme == "&" {
      assert k.Some? by { InLexemes(toks, i); }
      assert k.value == i;
    } else {
      ParamLoopSpec(NewType(h, TypeObj(PolyT(toks[i].lexeme), true)), m[toks[i].lexeme := |h.types|], toks, i + 1, op);
    }
  }

  /** The slots that `nested.retrieve(p).return_type` gives for the
      positional parameters, all bound in the innermost frame. */
  function Retrieved(chain: Chain<Slot>, toks: seq<Token>): (r: seq<Slot>)
    requires chain != [] && forall t :: t in toks ==> t.lexeme in chain[0]
    ensures |r| == |toks| && forall i :: 0 <= i < |toks| ==> Lookup(chain, toks[i].lexeme) == Some(r[i])
  {
    seq(|toks|, i requires 0 <= i < |toks| => chain[0][toks[i].lexeme])
  }

  /** The entry a named function defines for itself before its body is
      checked (src/checker.ts:120-128): a function type over the
      parameters' placeholders, with a rest type when there is one and a
      fresh narrowable placeholder for its result. */
  function NameEntry(ps: Params, name: string): (r: (Heap, map<string, Slot>))
    requires forall k :: k in ps.frame ==> ps.frame[k] < |ps.h.types|
    requires forall t :: t in ps.positional ==> t.lexeme in ps.frame
    ensures r.0.caps == ps.h.caps && HeapGrows(ps.h, r.0)
    ensures ps.frame.Keys <= r.1.Keys && name in r.1
    ensures forall k :: k in r.1 ==> r.1[k] < |r.0.types|
    ensures TypeAt(r.0, r.1[name]).t.FuncT?
    ensures forall k :: k in ps.frame && k != name ==> r.1[k] == ps.frame[k]
  {
    var slots := Retrieved([ps.frame], ps.positional);
    var h1 := if ps.rest.Some? then NewType(ps.h, TypeObj(BaseT(TList), false)) else ps.h;
    var restSlot := if ps.rest.Some? then Some(|ps.h.types|) else None;
    var h2 := NewType(h1, TypeObj(PolyT(name), true));
    (NewType(h2, TypeObj(FuncT(slots, restSlot, |h1.types|), false)), ps.frame[name := |h2.types|])
  }

  /** The scope a `fn` body is checked in: a frame holding the parameters
      and, for a named function, its own name, in front of the enclosing
      environment (src/checker.ts:118-129). */
  function FnScope(st: St, ps: Params, name: Option<string>): (r: St)
    requires Inv(st) && ps.h.caps == st.h.caps && HeapGrows(st.h, ps.h)
    requires forall k :: k in ps.frame ==> ps.frame[k] < |ps.h.types|
    requires forall t :: t in ps.positional ==> t.lexeme in ps.frame
    ensures Inv(r) && r.env != [] && r.env[1..] == st.env
    ensures HeapGrows(st.h, r.h) && r.h.caps == st.h.caps
    ensures forall t :: t in ps.positional ==> t.lexeme in r.env[0]
    ensures name.Some? ==> name.value in r.env[0] && TypeAt(r.h, r.env[0][name.value]).t.FuncT?
  {
    var inner := if name.Some? then NameEntry(ps, name.value) else (ps.h, ps.frame);
    St(inner.0, [inner.1] + st.env)
  }

  /** What a checked `fn`/`defn` node satisfies. */
  predicate FnMade(st: St, toks: seq<Token>, def: bool, r: Checked)
  {
    Made(st, r.e, r.st) && r.e.FnE? && r.e.def == def && r.e.caps == r.e.body.caps
    && LexemesOf(toks) !! LexemesOf(CapsAt(r.st.h, r.e.caps))
    && RestSplit(toks, r.e.params, r.e.rest)
    && TypeAt(r.st.h, r.e.ty).t.FuncT?
    && TypeAt(r.st.h, r.e.ty).t.ret == r.e.body.ty
    && (TypeAt(r.st.h, r.e.ty).t.rest.Some? <==> r.e.rest.Some?)
    && (TypeAt(r.st.h, r.e.ty).t.rest.Some? ==>
          TypeAt(r.st.h, TypeAt(r.st.h, r.e.ty).t.rest.value).t == BaseT(TList))
    && |TypeAt(r.st.h, r.e.ty).t.params| == |r.e.params|
    && (TypeAt(r.st.h, r.e.body.ty).t.PolyT? ==> !TypeAt(r.st.h, r.e.body.ty).narrowable)
    && (def ==> r.e.name.Some? && Lookup(r.st.env, r.e.name.value) == Some(r.e.ty))
    && (!def ==> r.st.env == st.env)
  }

  /** `check_fn` (src/checker.ts:73-157). */
  function CheckFn(st: St, op: Token, args: seq<LVal>, def: bool, o: Oracle): (r: Result<Checked>)
    requires Inv(st)
    ensures |args| < 2 || |args| > 3 ==> r == Err(CompileError(WrongArgCount(op, |args|)))
    ensures 2 <= |args| <= 3 && def && |args| == 2 ==> r == Err(CompileError(DefnNeedsName(op)))
    ensures r.Ok? ==> 2 <= |args| <= 3 && ParamVector(args, def).LVector? && AllSymbols(ParamVector(args, def).items)
    ensures r.Ok? ==> FnMade(st, Tokens(ParamVector(args, def).items), def, r.value)
    decreases SizeAll(args), 4
  {
    if |args| < 2 || |args| > 3 then Err(CompileError(WrongArgCount(op, |args|)))
    else if def && |args| == 2 then Err(CompileError(DefnNeedsName(op)))
    else
      var named := def || args[0].LSym?;
      var pv := ParamVector(args, def);
      if named && !args[0].LSym? then Err(CompileError(DefnNeedsName(op)))
      else if !pv.LVector? || !AllSymbols(pv.items) then Err(CompileError(ParamsNotSymbols(op)))
      else
        var toks := Tokens(pv.items);
        ParamLoopSpec(st.h, map[], toks, 0, op);
        var ps :- ParamLoop(st.h, map[], toks, 0, op);
        var name := if named then Some(args[0].tok.lexeme) else None;
        if named && |args| == 2 then Err(TypeError(ReadOfUndefined("return_type")))
        else
          SizeAllEach(args);
          var body := if named then args[2] else args[1];
          var nested := FnScope(st, ps, name);
          var b :- CheckVal(nested, body, o);
          Ok(FinishFn(st, nested, b, ps, toks, def, name, op))
  }

  /** `body.return_type.narrowable = false` when the body's type is a
      placeholder (src/checker.ts:132-133). */
  function ClearFlag(h: Heap, s: Slot): (r: Heap)
    ensures r.caps == h.caps && |r.types| == |h.types| && HeapGrows(h, r)
    ensures TypeAt(r, s).t.PolyT? ==> !TypeAt(r, s).narrowable
    ensures forall x :: x != s ==> TypeAt(r, x) == TypeAt(h, x)
  {
    var bt := TypeAt(h, s);
    if bt.t.PolyT? then WriteType(h, s, TypeObj(bt.t, false)) else h
  }

  /** The function type of `fn` (src/checker.ts:135-140), appended to the
      heap after a fresh LIST object for the rest parameter, if any. */
  function FnType(h: Heap, slots: seq<Slot>, hasRest: bool, ret: Slot): (r: (Heap, Slot))
    ensures r.0.caps == h.caps && |h.types| <= r.1 && HeapGrows(h, r.0)
    ensures forall x: Slot :: x < |h.types| ==> TypeAt(r.0, x) == TypeAt(h, x)
    ensures TypeAt(r.0, r.1).t.FuncT? && TypeAt(r.0, r.1).t.ret == ret && TypeAt(r.0, r.1).t.params == slots
    ensures TypeAt(r.0, r.1).t.rest.Some? <==> hasRest
    ensures hasRest ==> TypeAt(r.0, TypeAt(r.0, r.1).t.rest.value).t == BaseT(TList)
  {
    var h2 := if hasRest then NewType(h, TypeObj(BaseT(TList), false)) else h;
    var restSlot := if hasRest then Some(|h.types|) else None;
    (NewType(h2, TypeObj(FuncT(slots, restSlot, ret), false)), |h2.types|)
  }

  /** The type objects `check_fn` leaves after its body: the body's
      placeholder, if any, no longer narrowable, and a new function type
      over the parameters' current slots and the body's type. */
  function BodyTypes(b: Checked, ps: Params): (r: (Heap, Slot))
    requires b.st.env != [] && forall t :: t in ps.positional ==> t.lexeme in b.st.env[0]
    ensures r.0.caps == b.st.h.caps && HeapGrows(b.st.h, r.0) && |b.st.h.types| <= r.1
    ensures TypeAt(r.0, r.1).t.FuncT? && TypeAt(r.0, r.1).t.ret == b.e.ty
    ensures |TypeAt(r.0, r.1).t.params| == |ps.positional|
    ensures TypeAt(r.0, r.1).t.rest.Some? <==> ps.rest.Some?
    ensures ps.rest.Some? ==> TypeAt(r.0, TypeAt(r.0, r.1).t.rest.value).t == BaseT(TList)
    ensures TypeAt(r.0, b.e.ty).t.PolyT? ==> !TypeAt(r.0, b.e.ty).narrowable
  {
    var h1 := ClearFlag(b.st.h, b.e.ty);
    FnType(h1, Retrieved(b.st.env, ps.positional), ps.rest.Some?, b.e.ty)
  }

  /** The heap `check_fn` leaves: the types of `BodyTypes`, and the body's
      capture array without the parameters' names (src/checker.ts:141-150).
      `h0` is the heap before the `fn`, whose capture arrays stay as they are. */
  function FnHeap(h0: Heap, b: Checked, ps: Params, toks: seq<Token>): (r: (Heap, Slot))
    requires HeapGrows(h0, b.st.h) && CapsOk(b.st.h) && |h0.caps| <= b.e.caps < |b.st.h.caps|
    requires b.st.env != [] && forall t :: t in ps.positional ==> t.lexeme in b.st.env[0]
    ensures HeapGrows(h0, r.0) && CapsOk(r.0) && |r.0.caps| == |b.st.h.caps|
    ensures LexemesOf(CapsAt(r.0, b.e.caps)) == LexemesOf(CapsAt(b.st.h, b.e.caps)) - LexemesOf(toks)
    ensures TypeAt(r.0, r.1).t.FuncT? && TypeAt(r.0, r.1).t.ret == b.e.ty
    ensures |TypeAt(r.0, r.1).t.params| == |ps.positional|
    ensures TypeAt(r.0, r.1).t.rest.Some? <==> ps.rest.Some?
    ensures ps.rest.Some? ==> TypeAt(r.0, TypeAt(r.0, r.1).t.rest.value).t == BaseT(TList)
    ensures TypeAt(r.0, b.e.ty).t.PolyT? ==> !TypeAt(r.0, b.e.ty).narrowable
  {
    var (h3, fnSlot) := BodyTypes(b, ps);
    var caps := RemoveAll(CapsAt(h3, b.e.caps), toks);
    assert Distinct(caps) && LexemesOf(caps) == LexemesOf(CapsAt(h3, b.e.caps)) - LexemesOf(toks) by {
      CapsAtDistinct(h3, b.e.caps);
      RemoveAllSpec(CapsAt(h3, b.e.caps), toks);
    }
    (WriteCaps(h3, b.e.caps, caps), fnSlot)
  }

  /** The rest of `check_fn` once the body is checked (src/checker.ts:132-156). */
  function FinishFn(st: St, nested: St, b: Checked, ps: Params, toks: seq<Token>, def: bool,
                    name: Option<string>, op: Token): (r: Checked)
    requires Inv(st) && nested.env != [] && nested.env[1..] == st.env && HeapGrows(st.h, nested.h)
    requires nested.h.caps == st.h.caps
    requires Made(nested, b.e, b.st)
    requires forall t :: t in ps.positional ==> t.lexeme in nested.env[0]
    requires RestSplit(toks, ps.positional, ps.rest)
    requires def ==> name.Some?
    ensures FnMade(st, toks, def, r)
  {
    assert HeapGrows(st.h, b.st.h) && b.st.env[1..] == st.env;
    var (h4, fnSlot) := FnHeap(st.h, b, ps, toks);
    var env := FnEnv(b.st.env[1..], def, name, fnSlot);
    Checked(FnE(def, ps.positional, b.e, b.e.caps, fnSlot, op, name, ps.rest), St(h4, env))
  }

  /** The environment after a `fn`: a `defn` defines its name in the
      enclosing scope (src/checker.ts:152-154). */
  function FnEnv(outer: Chain<Slot>, def: bool, name: Option<string>, fnSlot: Slot): (r: Chain<Slot>)
    requires outer != [] && (def ==> name.Some?)
    ensures |r| == |outer| && r[1..] == outer[1..] && outer[0].Keys <= r[0].Keys
    ensures def ==> Lookup(r, name.value) == Some(fnSlot)
    ensures !def ==> r == outer
  {
    if def then Bind(outer, name.value, fnSlot) else outer
  }

  // ---- let ----

  function BoundNames(bs: seq<Binding>): set<string>
  {
    set b | b in bs :: b.key.lexeme
  }

  /** `check_let` (src/checker.ts:159-187). */
  function CheckLet(st: St, op: Token, args: seq<LVal>, o: Oracle): (r: Result<Checked>)
    requires Inv(st)
    ensures |args| != 2 ==> r == Err(CompileError(WrongArgCount(op, |args|)))
    ensures |args| == 2 && !(args[0].LVector? && |args[0].items| % 2 == 0) ==>
      r == Err(CompileError(OddBindings(op)))
    ensures r.Ok? ==> Made(st, r.value.e, r.value.st) && r.value.st.env == st.env
    ensures r.Ok? ==> r.value.e.LetE? && r.value.e.ty == r.value.e.body.ty
    ensures r.Ok? ==> KeysMatch(args[0].items, r.value.e.bindings)
    ensures r.Ok? ==> var h, e := r.value.st.h, r.value.e;
      LexemesOf(CapsAt(h, e.caps)) == LexemesOf(CapsAt(h, e.body.caps)) - BoundNames(e.bindings)
    decreases SizeAll(args), 5
  {
    if |args| != 2 then Err(CompileError(WrongArgCount(op, |args|)))
    else if !args[0].LVector? || |args[0].items| % 2 != 0 then Err(CompileError(OddBindings(op)))
    else
      SizeAllEach(args);
      var nested := St(st.h, Nest(st.env));
      var bs :- CheckBindings(nested, op, args[0].items, o);
      var b :- CheckVal(bs.st, args[1], o);
      var h := b.st.h;
      var caps := Fresh(CapsAt(h, b.e.caps), BoundNames(bs.bs));
      FreshSpec(CapsAt(h, b.e.caps), BoundNames(bs.bs));
      Ok(Checked(LetE(bs.bs, b.e, |h.caps|, b.e.ty), St(NewCaps(h, caps), b.st.env[1..])))
  }

  /** The bindings loop of `let` (src/checker.ts:172-182): the value is
      checked before the key is found not to be a symbol, and each value
      sees the names bound before it. */
  function CheckBindings(st: St, op: Token, items: seq<LVal>, o: Oracle): (r: Result<CheckedBindings>)
    requires Inv(st) && |items| % 2 == 0
    ensures r.Ok? ==> Grows(st, r.value.st) && Inv(r.value.st) && KeysMatch(items, r.value.bs)
    decreases SizeAll(items), 4
  {
    if items == [] then Ok(CheckedBindings([], st))
    else
      SizePair(items);
      var v :- CheckVal(st, items[1], o);
      if !items[0].LSym? then Err(CompileError(BindingNotSymbol(op)))
      else
        var st' := BindStep(st, v, items[0].tok);
        var rest :- CheckBindings(st', op, items[2..], o);
        Ok(Keyed(st, st', items, v.e, rest))
  }

  /** The first pair of a bindings vector is smaller than the vector, and
      what follows it has the same parity. */
  lemma SizePair(items: seq<LVal>)
    requires |items| >= 2
    ensures SizeAll(items) == Size(items[0]) + Size(items[1]) + SizeAll(items[2..])
    ensures |items[2..]| % 2 == |items| % 2
  {
    assert items[1..][1..] == items[2..];
    var n := |items[2..]|;
    assert |items| % 2 == n % 2 by {
      assert |items| == n + 2;
    }
  }

  /** The state after binding a checked value's type to its key in the
      innermost frame. */
  function BindStep(st: St, v: Checked, key: Token): (r: St)
    requires Made(st, v.e, v.st)
    ensures Grows(st, r) && Inv(r) && r.h == v.st.h
    ensures Lookup(r.env, key.lexeme) == Some(v.e.ty)
  {
    St(v.st.h, Bind(v.st.env, key.lexeme, v.e.ty))
  }

  /** The bindings of `items` once its first pair has been checked and
      the rest of the vector after it. */
  function Keyed(st: St, st': St, items: seq<LVal>, value: Expr, rest: CheckedBindings): (r: CheckedBindings)
    requires |items| >= 2 && items[0].LSym? && KeysMatch(items[2..], rest.bs)
    requires Grows(st, st') && Grows(st', rest.st) && Inv(rest.st)
    ensures Grows(st, r.st) && Inv(r.st) && KeysMatch(items, r.bs)
    ensures r.bs != [] && r.bs[0] == Binding(items[0].tok, value) && r.bs[1..] == rest.bs
  {
    var bs := [Binding(items[0].tok, value)] + rest.bs;
    assert bs[1..] == rest.bs;
    CheckedBindings(bs, rest.st)
  }

  /** The bindings vector, read in pairs: each key position holds the
      symbol of the binding made from it. */
  predicate KeysMatch(items: seq<LVal>, bs: seq<Binding>)
    decreases |bs|
  {
    |items| == 2 * |bs| && (bs != [] ==> items[0] == LSym(bs[0].key) && KeysMatch(items[2..], bs[1..]))
  }

  lemma {:induction false} KeysMatchAt(items: seq<LVal>, bs: seq<Binding>, i: nat)
    requires KeysMatch(items, bs) && i < |bs|
    ensures items[2 * i] == LSym(bs[i].key)
    decreases i
  {
    if i > 0 {
      KeysMatchAt(items[2..], bs[1..], i - 1);
      assert items[2..][2 * (i - 1)] == items[2 * i];
    }
  }

  // ---- do ----

  /** `check_do` (src/checker.ts:189-207). */
  function CheckDo(st: St, op: Token, args: seq<LVal>, o: Oracle): (r: Result<Checked>)
    requires Inv(st)
    ensures args == [] ==> r.Ok? && r.value.e.Lit? && r.value.e.value == LNil
    ensures r.Ok? ==> Made(st, r.value.e, r.value.st)
    ensures r.Ok? && args != [] ==> var e := r.value.e;
      e.DoE? && |e.bodies| == |args| && e.ty == e.bodies[|args| - 1].ty && e.token == op
    ensures r.Ok? && args != [] ==> var h, e := r.value.st.h, r.value.e;
      LexemesOf(CapsAt(h, e.caps)) == UnionOf(h, e.bodies)
    decreases SizeAll(args), 5
  {
    if args == [] then Ok(NewLit(st, LNil))
    else
      var cs :- CheckVals(st, args, o);
      Ok(DoNode(st, cs, op))
  }

  /** The `do` node over its checked bodies: a new capture array gathering,
      in order, the bodies' captures (src/checker.ts:194-206). */
  function DoNode(st: St, cs: CheckedAll, op: Token): (r: Checked)
    requires Grows(st, cs.st) && Inv(cs.st) && cs.es != [] && AllBelow(cs.es, cs.st.h)
    ensures Made(st, r.e, r.st) && r.e.DoE? && r.e.bodies == cs.es && r.e.token == op
    ensures r.e.ty == cs.es[|cs.es| - 1].ty
    ensures LexemesOf(CapsAt(r.st.h, r.e.caps)) == UnionOf(r.st.h, cs.es)
  {
    var h := cs.st.h;
    var caps := Gather([], h, cs.es);
    var h' := NewCaps(h, caps);
    UnionOfStable(h, h', cs.es);
    Checked(DoE(cs.es, |h.caps|, cs.es[|cs.es| - 1].ty, op), St(h', cs.st.env))
  }

  // ---- calls ----

  /** `check_s` (src/checker.ts:209-265): the operator is checked first,
      then must be a call, a symbol or a function node whose type is a
      function type or a placeholder. */
  function CheckS(st: St, opv: LVal, args: seq<LVal>, o: Oracle): (r: Result<Checked>)
    requires Inv(st) && (opv.LSym? || opv.LList?)
    ensures r.Ok? ==> Made(st, r.value.e, r.value.st) && r.value.e.SE? && |r.value.e.children| == |args|
    decreases Size(opv) + SizeAll(args), 5
  {
    var f :- CheckVal(st, opv, o);
    var token := if opv.LList? then opv.lparen else opv.tok;
    if !(f.e.SE? || f.e.SymbolE? || f.e.FnE?) then Err(CompileError(NotAFunction(token, opv.LList?)))
    else
      var ft := TypeAt(f.st.h, f.e.ty);
      if ft.t.FuncT? then CallFunction(st, f, opv, token, args, o)
      else if ft.t.PolyT? then CallPlaceholder(st, f, opv, token, args, o)
      else Err(CompileError(NotAFunction(token, opv.LList?)))
  }

  /** Narrowing one argument against its parameter type (src/checker.ts:239-240):
      a placeholder flagged narrowable takes the type `narrow` gives and
      keeps its flag. */
  function NarrowStep(h: Heap, a: Slot, p: Slot, o: Oracle): (r: Heap)
    ensures r.caps == h.caps && |r.types| == |h.types| && HeapGrows(h, r)
  {
    var at := TypeAt(h, a);
    if at.t.PolyT? && at.narrowable then WriteType(h, a, TypeObj(o.nar(h.types, a, p), true)) else h
  }

  /** The heap after narrowing arguments `i` to `j - 1`, without checks. */
  function NarrowedUpTo(h: Heap, params: seq<Slot>, es: seq<Expr>, o: Oracle, i: nat, j: nat): Heap
    requires i <= j <= |params| && j <= |es|
    decreases j - i
  {
    if i == j then h else NarrowedUpTo(NarrowStep(h, es[i].ty, params[i], o), params, es, o, i + 1, j)
  }

  /** The parameter loop of a call to a function-typed operator
      (src/checker.ts:231-242). */
  function NarrowArgs(h: Heap, params: seq<Slot>, es: seq<Expr>, token: Token, o: Oracle, i: nat): (r: Result<Heap>)
    requires i <= |params| && i <= |es|
    ensures r.Ok? ==> r.value.caps == h.caps && |r.value.types| == |h.types| && HeapGrows(h, r.value)
    ensures r.Err? ==> r.fault.TypeError? || r.fault.CompileError?
    decreases |params| - i
  {
    if i == |params| then Ok(h)
    else if i == |es| then Err(TypeError(ReadOfUndefined("return_type")))
    else if !o.sat(h.types, es[i].ty, params[i]) then Err(CompileError(ParamTypeMismatch(token, i)))
    else NarrowArgs(NarrowStep(h, es[i].ty, params[i], o), params, es, token, o, i + 1)
  }

  predicate AllSatisfied(h: Heap, params: seq<Slot>, es: seq<Expr>, o: Oracle, i: nat)
    requires i <= |params|
  {
    |params| <= |es| &&
    forall j :: i <= j < |params| ==> o.sat(NarrowedUpTo(h, params, es, o, i, j).types, es[j].ty, params[j])
  }

  /** The checks pass exactly when there is an argument for every declared
      parameter and each satisfies its parameter's type, judged on the
      heap as the arguments before it have narrowed it; the heap is then
      the one with every argument narrowed. */
  lemma {:induction false} NarrowArgsSpec(h: Heap, params: seq<Slot>, es: seq<Expr>, token: Token, o: Oracle, i: nat)
    requires i <= |params| && i <= |es|
    ensures var r := NarrowArgs(h, params, es, token, o, i);
      (r.Ok? <==> AllSatisfied(h, params, es, o, i))
      && (r.Ok? ==> r.value == NarrowedUpTo(h, params, es, o, i, |params|))
    decreases |params| - i
  {
    if i < |params| && i < |es| && o.sat(h.types, es[i].ty, params[i]) {
      var h' := NarrowStep(h, es[i].ty, params[i], o);
      NarrowArgsSpec(h', params, es, token, o, i + 1);
      if |params| <= |es| {
        assert forall j :: i + 1 <= j <= |params| ==>
          NarrowedUpTo(h, params, es, o, i, j) == NarrowedUpTo(h', params, es, o, i + 1, j);
      }
    }
  }

  /** The same loop, as the source writes it. */
  method NarrowArgsLoop(h: Heap, params: seq<Slot>, es: seq<Expr>, token: Token, o: Oracle) returns (r: Result<Heap>)
    ensures r == NarrowArgs(h, params, es, token, o, 0)
  {
    var cur := h;
    var i := 0;
    while i < |params|
      invariant 0 <= i <= |params| && i <= |es|
      invariant NarrowArgs(h, params, es, token, o, 0) == NarrowArgs(cur, params, es, token, o, i)
    {
      if i == |es| {
        return Err(TypeError(ReadOfUndefined("return_type")));
      }
      if !o.sat(cur.types, es[i].ty, params[i]) {
        return Err(CompileError(ParamTypeMismatch(token, i)));
      }
      var at := TypeAt(cur, es[i].ty);
      if at.t.PolyT? && at.narrowable {
        cur := WriteType(cur, es[i].ty, TypeObj(o.nar(cur.types, es[i].ty, params[i]), true));
      }
      i := i + 1;
    }
    return Ok(cur);
  }

  /** The operator node of a call: a symbol operator is replaced by a new
      symbol node with an empty capture array and the call's result type. */
  function CallOperator(f: Checked, opv: LVal, h: Heap, ret: Slot): (r: (Expr, Heap))
    ensures HeapGrows(h, r.1) && r.1.types == h.types && (CapsOk(h) ==> CapsOk(r.1))
  {
    if opv.LSym? then (SymbolE(opv.tok, |h.caps|, ret), NewCaps(h, [])) else (f.e, h)
  }

  /** A call whose operator has a function type (src/checker.ts:221-248). */
  function CallFunction(st: St, f: Checked, opv: LVal, token: Token, args: seq<LVal>, o: Oracle): (r: Result<Checked>)
    requires Inv(st) && Made(st, f.e, f.st) && TypeAt(f.st.h, f.e.ty).t.FuncT?
    ensures var ft := TypeAt(f.st.h, f.e.ty).t;
      ft.rest.None? && |ft.params| != |args| ==> r == Err(CompileError(ParamCount(token, |ft.params|, |args|)))
    ensures r.Ok? ==> var ft := TypeAt(f.st.h, f.e.ty).t;
      |ft.params| <= |args| && r.value.e.ty == ft.ret
    ensures r.Ok? ==> Made(st, r.value.e, r.value.st) && r.value.e.SE? && |r.value.e.children| == |args|
    ensures r.Ok? ==> var h, e := r.value.st.h, r.value.e;
      LexemesOf(CapsAt(h, e.caps)) == UnionOf(h, e.children)
    decreases Size(opv) + SizeAll(args), 4
  {
    var ft := TypeAt(f.st.h, f.e.ty).t;
    if ft.rest.None? && |ft.params| != |args| then Err(CompileError(ParamCount(token, |ft.params|, |args|)))
    else
      var cs :- CheckVals(f.st, args, o);
      var h :- NarrowArgs(cs.st.h, ft.params, cs.es, token, o, 0);
      NarrowArgsSpec(cs.st.h, ft.params, cs.es, token, o, 0);
      Ok(FinishCall(st, cs, h, f, opv, token, ft.ret))
  }

  /** The node of a call once its arguments are checked: the capture array
      is the `reduce` over the arguments' arrays (the operator's are not
      included). */
  function FinishCall(st: St, cs: CheckedAll, h: Heap, f: Checked, opv: LVal, token: Token, ret: Slot): (r: Checked)
    requires Inv(cs.st) && Grows(st, cs.st) && AllBelow(cs.es, cs.st.h)
    requires HeapGrows(cs.st.h, h) && h.caps == cs.st.h.caps
    requires |st.h.caps| <= |cs.st.h.caps|
    ensures r.e.SE? && r.e.ty == ret && r.e.children == cs.es
    ensures Made(st, r.e, r.st) && r.st.env == cs.st.env && r.st.h.types == h.types
    ensures LexemesOf(CapsAt(r.st.h, r.e.caps)) == UnionOf(r.st.h, r.e.children)
  {
    var (sop, h1) := CallOperator(f, opv, h, ret);
    var caps := MergeAll([], h1, cs.es);
    var h2 := NewCaps(h1, caps);
    UnionOfStable(h1, h2, cs.es);
    Checked(SE(sop, cs.es, |h1.caps|, ret, token), St(h2, cs.st.env))
  }

  /** A call whose operator has a placeholder type (src/checker.ts:249-264):
      the result is a fresh narrowable placeholder named after the call's
      token, and if the operator's type object is still flagged narrowable
      once the arguments are checked, it becomes the function type from the
      arguments' types to that result. */
  function CallPlaceholder(st: St, f: Checked, opv: LVal, token: Token, args: seq<LVal>, o: Oracle): (r: Result<Checked>)
    requires Inv(st) && Made(st, f.e, f.st)
    ensures r.Ok? ==> Made(st, r.value.e, r.value.st) && r.value.e.SE? && |r.value.e.children| == |args|
    ensures r.Ok? ==> var h, e := r.value.st.h, r.value.e;
      |f.st.h.types| <= e.ty && TypeAt(h, e.ty) == TypeObj(PolyT(token.lexeme), true)
    ensures r.Ok? && f.e.ty < |f.st.h.types| ==> var h, e := r.value.st.h, r.value.e;
      TypeAt(h, f.e.ty).narrowable ==> TypeAt(h, f.e.ty).t == FuncT(TypesOf(e.children), None, e.ty)
    ensures r.Ok? ==> var h, e := r.value.st.h, r.value.e;
      LexemesOf(CapsAt(h, e.caps)) == UnionOf(h, e.children)
    decreases Size(opv) + SizeAll(args), 4
  {
    var cs :- CheckVals(f.st, args, o);
    Ok(PlaceholderNode(st, f, cs, opv, token))
  }

  /** The node `CallPlaceholder` builds once its arguments are checked. */
  function PlaceholderNode(st: St, f: Checked, cs: CheckedAll, opv: LVal, token: Token): (r: Checked)
    requires Inv(st) && Made(st, f.e, f.st)
    requires Grows(f.st, cs.st) && Inv(cs.st) && AllBelow(cs.es, cs.st.h)
    ensures Made(st, r.e, r.st) && r.e.SE? && r.e.children == cs.es
    ensures |f.st.h.types| <= r.e.ty && TypeAt(r.st.h, r.e.ty) == TypeObj(PolyT(token.lexeme), true)
    ensures f.e.ty < |f.st.h.types| ==>
      TypeAt(r.st.h, f.e.ty).narrowable ==> TypeAt(r.st.h, f.e.ty).t == FuncT(TypesOf(r.e.children), None, r.e.ty)
    ensures LexemesOf(CapsAt(r.st.h, r.e.caps)) == UnionOf(r.st.h, r.e.children)
  {
    var h0 := cs.st.h;
    var ret := |h0.types|;
    var h1 := NewType(h0, TypeObj(PolyT(token.lexeme), true));
    var fo := TypeAt(h0, f.e.ty);
    var h2 := if fo.narrowable then WriteType(h1, f.e.ty, TypeObj(FuncT(TypesOf(cs.es), None, ret), true)) else h1;
    FinishCall(st, CheckedAll(cs.es, St(h1, cs.st.env)), h2, f, opv, token, ret)
  }

  // ---- the program ----

  /** One fresh base-type object per entry of `bs`, appended to the heap. */
  function NewBases(h: Heap, bs: seq<BaseType>): (r: (Heap, seq<Slot>))
    ensures r.0.caps == h.caps && |r.0.types| == |h.types| + |bs| && r.0.types[..|h.types|] == h.types
    ensures |r.1| == |bs| && forall i :: 0 <= i < |bs| ==> r.1[i] < |r.0.types| && TypeAt(r.0, r.1[i]).t == BaseT(bs[i])
  {
    var n := |h.types|;
    var ts := h.types + seq(|bs|, i requires 0 <= i < |bs| => TypeObj(BaseT(bs[i]), false));
    assert forall i :: 0 <= i < |bs| ==> ts[n + i] == TypeObj(BaseT(bs[i]), false);
    (Heap(ts, h.caps), seq(|bs|, i requires 0 <= i < |bs| => n + i))
  }

  /** A native's signature as the checker records it: parameter types, the
      type of the rest of the arguments if any, and the result type. */
  datatype Sig = Sig(params: seq<BaseType>, rest: Option<BaseType>, ret: BaseType)

  function SigOf(op: Runtime.NativeOp): Sig
  {
    Sig(Runtime.Params(op), Runtime.Rest(op), Runtime.ReturnType(op))
  }

  /** Slot `s` holds a function type whose parameter, rest and result types
      are those of `g`. */
  predicate SigTyped(h: Heap, s: Slot, g: Sig)
  {
    var ft := TypeAt(h, s).t;
    ft.FuncT? && |ft.params| == |g.params| && (ft.rest.Some? <==> g.rest.Some?)
    && (forall i :: 0 <= i < |ft.params| ==> TypeAt(h, ft.params[i]).t == BaseT(g.params[i]))
    && TypeAt(h, ft.ret).t == BaseT(g.ret)
    && (ft.rest.Some? ==> TypeAt(h, ft.rest.value).t == BaseT(g.rest.value))
  }

  /** Every slot the function type in `s` mentions lies below `n`. */
  predicate SigBelow(h: Heap, s: Slot, n: nat)
  {
    var ft := TypeAt(h, s).t;
    s < n && ft.FuncT? && ft.ret < n && (ft.rest.Some? ==> ft.rest.value < n)
    && forall i :: 0 <= i < |ft.params| ==> ft.params[i] < n
  }

  /** Appending type objects leaves a recorded signature as it is. */
  lemma SigTypedStable(h: Heap, h': Heap, s: Slot, g: Sig)
    requires SigTyped(h, s, g) && SigBelow(h, s, |h.types|)
    requires |h.types| <= |h'.types| && h'.types[..|h.types|] == h.types
    ensures SigTyped(h', s, g) && SigBelow(h', s, |h'.types|)
  {
    assert forall x: Slot :: x < |h.types| ==> h'.types[x] == h.types[x] by {
      forall x: Slot | x < |h.types| ensures h'.types[x] == h.types[x] {
        assert h'.types[..|h.types|][x] == h'.types[x];
      }
    }
  }

  /** The type objects `static_check` makes for one native
      (src/checker.ts:317-322). */
  function SeedSig(h: Heap, g: Sig): (r: (Heap, Slot))
    ensures r.0.caps == h.caps && |h.types| <= r.1 < |r.0.types| && r.0.types[..|h.types|] == h.types
    ensures SigTyped(r.0, r.1, g) && SigBelow(r.0, r.1, |r.0.types|)
  {
    var (h1, slots) := NewBases(h, g.params);
    var (h2, rest) := if g.rest.Some? then (NewType(h1, TypeObj(BaseT(g.rest.value), false)), Some(|h1.types|)) else (h1, None);
    var h3 := NewType(h2, TypeObj(BaseT(g.ret), false));
    var r := (NewType(h3, TypeObj(FuncT(slots, rest, |h2.types|), false)), |h3.types|);
    assert r.0.types[..|h.types|] == h.types by {
      assert r.0.types[..|h1.types|] == h1.types;
    }
    assert forall x: Slot :: x < |h1.types| ==> TypeAt(r.0, x) == TypeAt(h1, x) by {
      assert r.0.types[..|h1.types|] == h1.types;
    }
    r
  }

  /** The seeding loop of `static_check` (src/checker.ts:316-326), from
      the heap `h` and the frame `m` onwards. */
  function SeedNatives(h: Heap, m: map<string, Slot>, ops: seq<Runtime.NativeOp>): (r: (Heap, map<string, Slot>))
    ensures r.0.caps == h.caps && |h.types| <= |r.0.types| && r.0.types[..|h.types|] == h.types
    ensures m.Keys <= r.1.Keys
    decreases |ops|
  {
    if ops == [] then (h, m)
    else
      var (h1, s) := SeedSig(h, SigOf(ops[0]));
      var r := SeedNatives(h1, m[Runtime.NativeName(ops[0]) := s], ops[1..]);
      assert r.0.types[..|h.types|] == r.0.types[..|h1.types|][..|h.types|];
      r
  }

  /** Each native is bound, under its name, to a slot of the type its
      table entry declares. */
  lemma {:induction false} SeedNativesFind(h: Heap, m: map<string, Slot>, ops: seq<Runtime.NativeOp>, op: Runtime.NativeOp)
    requires op in ops
    requires forall i, j :: 0 <= i < j < |ops| ==> Runtime.NativeName(ops[i]) != Runtime.NativeName(ops[j])
    ensures var r := SeedNatives(h, m, ops);
      Runtime.NativeName(op) in r.1 && SigTyped(r.0, r.1[Runtime.NativeName(op)], SigOf(op))
      && SigBelow(r.0, r.1[Runtime.NativeName(op)], |r.0.types|)
    decreases |ops|
  {
    var (h1, s) := SeedSig(h, SigOf(ops[0]));
    var m1 := m[Runtime.NativeName(ops[0]) := s];
    var r := SeedNatives(h1, m1, ops[1..]);
    if op == ops[0] {
      SeedUntouched(h1, m1, ops[1..], Runtime.NativeName(op));
      SigTypedStable(h1, r.0, s, SigOf(op));
    } else {
      assert op in ops[1..];
      SeedNativesFind(h1, m1, ops[1..], op);
    }
  }

  /** A name no later native has keeps its slot. */
  lemma {:induction false} SeedUntouched(h: Heap, m: map<string, Slot>, ops: seq<Runtime.NativeOp>, name: string)
    requires name in m && forall i :: 0 <= i < |ops| ==> Runtime.NativeName(ops[i]) != name
    ensures var r := SeedNatives(h, m, ops); name in r.1 && r.1[name] == m[name]
    decreases |ops|
  {
    if ops != [] {
      var (h1, s) := SeedSig(h, SigOf(ops[0]));
      SeedUntouched(h1, m[Runtime.NativeName(ops[0]) := s], ops[1..], name);
    }
  }

  /** The global scope of `static_check`: one entry per native function. */
  function Globals(): (st: St)
    ensures Inv(st)
  {
    var r := SeedNatives(Heap([], []), map[], Runtime.NativeOps());
    St(r.0, [r.1])
  }

  /** The checker sees every native under its name, with the table's types. */
  lemma GlobalsHoldNatives(op: Runtime.NativeOp)
    ensures Lookup(Globals().env, Runtime.NativeName(op)).Some?
    ensures SigTyped(Globals().h, Lookup(Globals().env, Runtime.NativeName(op)).value, SigOf(op))
  {
    forall i, j | 0 <= i < j < |Runtime.NativeOps()|
      ensures Runtime.NativeName(Runtime.NativeOps()[i]) != Runtime.NativeName(Runtime.NativeOps()[j])
    {
      Runtime.NativeNamesDistinct(i, j);
    }
    Runtime.NativeOpsComplete(op);
    SeedNativesFind(Heap([], []), map[], Runtime.NativeOps(), op);
  }

  datatype CheckOutcome = CheckOutcome(exprs: seq<Expr>, heap: Heap, failure: Option<Fault>)

  /** What `static_check` returns (src/checker.ts:313-340): every form is
      checked in the one global scope, in order; any failure leaves no
      typed forms. */
  function CheckProgram(program: seq<LVal>, o: Oracle): (r: CheckOutcome)
    ensures r.failure.Some? ==> r.exprs == []
    ensures r.failure.None? ==> |r.exprs| == |program|
  {
    var st := Globals();
    match CheckVals(st, program, o)
    case Ok(cs) => CheckOutcome(cs.es, cs.st.h, None)
    case Err(f) => CheckOutcome([], st.h, Some(f))
  }

  /** The seeding loop of `static_check` (src/checker.ts:314-326): each
      native in turn gets its type objects and its entry in the global frame. */
  method SeedLoop(ops: seq<Runtime.NativeOp>) returns (h: Heap, m: map<string, Slot>)
    ensures (h, m) == SeedNatives(Heap([], []), map[], ops)
  {
    h, m := Heap([], []), map[];
    var i := 0;
    while i < |ops|
      invariant 0 <= i <= |ops|
      invariant SeedNatives(h, m, ops[i..]) == SeedNatives(Heap([], []), map[], ops)
    {
      assert ops[i..][1..] == ops[i + 1..];
      var seeded := SeedSig(h, SigOf(ops[i]));
      h, m := seeded.0, m[Runtime.NativeName(ops[i]) := seeded.1];
      i := i + 1;
    }
    assert ops[i..] == [];
  }

  /** `static_check`: the natives, then the program in their scope. */
  method StaticCheck(program: seq<LVal>, o: Oracle) returns (r: CheckOutcome)
    ensures r == CheckProgram(program, o)
  {
    var h, m := SeedLoop(Runtime.NativeOps());
    var st := St(h, [m]);
    assert st == Globals();
    var checked := CheckVals(st, program, o);
    if checked.Ok? {
      r := CheckOutcome(checked.value.es, checked.value.st.h, None);
    } else {
      r := CheckOutcome([], st.h, Some(checked.fault));
    }
  }
}
