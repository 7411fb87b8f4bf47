/** The macro reader (src/reader.ts).

    `macroexpand` walks the top-level forms with one environment that holds
    the natives, the native macro `when` and every macro `defmacro` defines.
    A list whose head names a macro is a macro call: its arguments are
    expanded first, the macro is called on them as values, and the value
    it returns is turned back into syntax by `restore`. Everything that
    can fail in a macro call (an unbound head, an argument that does not
    expand, the call itself) is caught, and the form is then left as it
    was. The expansion is not expanded again, and forms below a list that
    is not a macro call are not visited.

    A user macro's call checks and interprets its body; it comes in as the
    `invoke` parameter. */
module Reader {
  import opened Syntax
  import opened Wrappers
  import opened Runtime
  import opened Natives

  /** What the reader's environment holds under a name: a native function
      (not a macro), the native macro `when`, or a macro from `defmacro`
      with its parameters, rest parameter and body. */
  datatype Entry =
    | Plain
    | NativeMacro
    | UserMacro(params: seq<Token>, rest: Option<Token>, body: LVal)

  type ReaderEnv = map<string, Entry>

  /** The call of a user macro on its argument values. */
  type Invoker = (Entry, seq<RVal>) -> Result<RVal>

  // ---- restore ----

  /** `restore`: a runtime value as syntax; every list and vector gets the
      token `tok` as its bracket, and a function becomes nil. */
  function Restore(v: RVal, tok: Token): (r: LVal)
    ensures v.RList? <==> r.LList?
    ensures v.RVector? <==> r.LVector?
    ensures v.RList? || v.RVector? ==> |r.items| == |v.items| && r.lparen == tok
    decreases v
  {
    match v
    case RNum(n) => LNum(n)
    case RSym(t) => LSym(t)
    case RStr(s) => LStr(s)
    case RBool(b) => LBool(b)
    case RNil => LNil
    case RList(items) => LList(seq(|items|, i requires 0 <= i < |items| => Restore(items[i], tok)), tok)
    case RVector(items) => LVector(seq(|items|, i requires 0 <= i < |items| => Restore(items[i], tok)), tok)
    case RFunc(_, _) => LNil
  }

  /** The same syntax with every bracket token replaced by `tok`. */
  function Relabel(v: LVal, tok: Token): LVal
    decreases v
  {
    match v
    case LList(items, _) => LList(seq(|items|, i requires 0 <= i < |items| => Relabel(items[i], tok)), tok)
    case LVector(items, _) => LVector(seq(|items|, i requires 0 <= i < |items| => Relabel(items[i], tok)), tok)
    case _ => v
  }

  /** A value holds no function, at any depth. */
  predicate FunctionFree(v: RVal)
    decreases v
  {
    match v
    case RFunc(_, _) => false
    case RList(items) => forall i :: 0 <= i < |items| ==> FunctionFree(items[i])
    case RVector(items) => forall i :: 0 <= i < |items| ==> FunctionFree(items[i])
    case _ => true
  }

  /** Syntax handed to a macro and restored unchanged comes back as it was,
      except that its brackets carry the call's token. */
  lemma {:induction false} RestoreAsValue(v: LVal, tok: Token)
    ensures Restore(AsValue(v), tok) == Relabel(v, tok)
    decreases v
  {
    match v
    case LList(items, _) =>
      forall i | 0 <= i < |items| ensures Restore(AsValue(items[i]), tok) == Relabel(items[i], tok) {
        RestoreAsValue(items[i], tok);
      }
    case LVector(items, _) =>
      forall i | 0 <= i < |items| ensures Restore(AsValue(items[i]), tok) == Relabel(items[i], tok) {
        RestoreAsValue(items[i], tok);
      }
    case _ =>
  }

  /** A value without functions survives the trip through syntax. */
  lemma {:induction false} AsValueRestore(v: RVal, tok: Token)
    requires FunctionFree(v)
    ensures AsValue(Restore(v, tok)) == v
    decreases v
  {
    match v
    case RList(items) =>
      forall i | 0 <= i < |items| ensures AsValue(Restore(items[i], tok)) == items[i] {
        AsValueRestore(items[i], tok);
      }
    case RVector(items) =>
      forall i | 0 <= i < |items| ensures AsValue(Restore(items[i], tok)) == items[i] {
        AsValueRestore(items[i], tok);
      }
    case _ =>
  }

  /** Relabelling twice with the same token is relabelling once. */
  lemma {:induction false} RelabelIdempotent(v: LVal, tok: Token)
    ensures Relabel(Relabel(v, tok), tok) == Relabel(v, tok)
    decreases v
  {
    match v
    case LList(items, _) =>
      forall i | 0 <= i < |items| ensures Relabel(Relabel(items[i], tok), tok) == Relabel(items[i], tok) {
        RelabelIdempotent(items[i], tok);
      }
    case LVector(items, _) =>
      forall i | 0 <= i < |items| ensures Relabel(Relabel(items[i], tok), tok) == Relabel(items[i], tok) {
        RelabelIdempotent(items[i], tok);
      }
    case _ =>
  }

  // ---- defmacro ----

  /** The index of the first parameter spelled `&`, if any. */
  function AmpIndex(ps: seq<LVal>): (r: Option<nat>)
    requires forall i :: 0 <= i < |ps| ==> ps[i].LSym?
    ensures r.Some? ==> r.value < |ps| && ps[r.value].tok.lexeme == "&"
    ensures r.Some? ==> forall j :: 0 <= j < r.value ==> ps[j].tok.lexeme != "&"
    ensures r.None? ==> forall j :: 0 <= j < |ps| ==> ps[j].tok.lexeme != "&"
  {
    if ps == [] then None
    else if ps[0].tok.lexeme == "&" then Some(0)
    else
      var r := AmpIndex(ps[1..]);
      assert forall j :: 1 <= j < |ps| ==> ps[j] == ps[1..][j - 1];
      if r.Some? then Some(r.value + 1) else None
  }

  predicate AllSymbols(ps: seq<LVal>)
  {
    forall i :: 0 <= i < |ps| ==> ps[i].LSym?
  }

  /** The checks of `defmacro` (src/reader.ts:43-64) on its arguments, and
      the macro they define: its name and entry. */
  function DefMacro(op: Token, args: seq<LVal>): Result<(string, Entry)>
  {
    if |args| != 3 then Err(CompileError(WrongArgCount(op, |args|)))
    else if !args[0].LSym? then Err(CompileError(MacroNeedsName(op)))
    else if !args[1].LVector? || !AllSymbols(args[1].items) then Err(CompileError(MacroNeedsParams(op)))
    else
      var ps := args[1].items;
      match AmpIndex(ps)
      case Some(k) =>
        if k != |ps| - 2 then Err(CompileError(BadVariadic(op)))
        else Ok((args[0].tok.lexeme, UserMacro(Tokens(ps[..k]), Some(ps[k + 1].tok), args[2])))
      case None => Ok((args[0].tok.lexeme, UserMacro(Tokens(ps), None, args[2])))
  }

  /** `defmacro` is accepted exactly when it has a name, a vector of symbols
      and a body, and `&`, if present, is followed by exactly one symbol
      (a later `&` counts as that symbol); the macro takes the parameters
      before `&` and the one after it as its rest parameter. */
  lemma DefMacroSpec(op: Token, args: seq<LVal>)
    ensures DefMacro(op, args).Ok? <==>
      |args| == 3 && args[0].LSym? && args[1].LVector? && AllSymbols(args[1].items) &&
      (AmpIndex(args[1].items).None? || AmpIndex(args[1].items).value == |args[1].items| - 2)
    ensures DefMacro(op, args).Ok? ==>
      var ps := args[1].items;
      var e := DefMacro(op, args).value;
      e.0 == args[0].tok.lexeme && e.1.body == args[2] &&
      (e.1.rest.Some? <==> exists j :: 0 <= j < |ps| && ps[j].tok.lexeme == "&") &&
      (e.1.rest.Some? ==> e.1.rest.value == ps[|ps| - 1].tok && |e.1.params| == |ps| - 2) &&
      (e.1.rest.None? ==> |e.1.params| == |ps|)
  {
  }

  // ---- expansion ----

  /** The result of expanding: the form, or the error a top-level
      `defmacro` throws, and the environment as the expansion left it. */
  datatype Expanded = Expanded(r: Result<LVal>, env: ReaderEnv)

  datatype ExpandedAll = ExpandedAll(r: Result<seq<LVal>>, env: ReaderEnv)

  /** `expandMacro`. */
  function Expand(env: ReaderEnv, expr: LVal, invoke: Invoker): (x: Expanded)
    ensures env.Keys <= x.env.Keys
    ensures x.r.Err? ==> expr.LList? && |expr.items| > 0 && expr.items[0].IsSymbolNamed("defmacro")
    decreases Size(expr), 1
  {
    if !expr.LList? || |expr.items| == 0 || !expr.items[0].LSym? then Expanded(Ok(expr), env)
    else
      var op := expr.items[0].tok;
      if op.lexeme == "quote" then Expanded(Ok(expr), env)
      else if op.lexeme == "defmacro" then
        match DefMacro(op, expr.items[1..])
        case Err(e) => Expanded(Err(e), env)
        case Ok(d) => Expanded(Ok(LNil), env[d.0 := d.1])
      else if op.lexeme !in env || env[op.lexeme].Plain? then Expanded(Ok(expr), env)
      else
        assert SizeAll(expr.items) == Size(expr.items[0]) + SizeAll(expr.items[1..]);
        var args := ExpandAll(env, expr.items[1..], invoke);
        if args.r.Err? then Expanded(Ok(expr), args.env)
        else Expanded(Ok(CallMacro(env[op.lexeme], args.r.value, op, invoke, expr)), args.env)
  }

  /** The arguments of a macro call, expanded left to right; the first
      failure stops the walk. */
  function ExpandAll(env: ReaderEnv, items: seq<LVal>, invoke: Invoker): (x: ExpandedAll)
    ensures env.Keys <= x.env.Keys
    ensures x.r.Ok? ==> |x.r.value| == |items|
    decreases SizeAll(items), 2
  {
    if items == [] then ExpandedAll(Ok([]), env)
    else
      var h := Expand(env, items[0], invoke);
      if h.r.Err? then ExpandedAll(Err(h.r.fault), h.env)
      else
        var t := ExpandAll(h.env, items[1..], invoke);
        if t.r.Err? then t else ExpandedAll(Ok([h.r.value] + t.r.value), t.env)
  }

  /** The call of a macro on the expanded arguments, restored to syntax
      with the head's token; a failing call leaves the form as it was. */
  function CallMacro(m: Entry, args: seq<LVal>, op: Token, invoke: Invoker, expr: LVal): LVal
    requires !m.Plain?
  {
    var vals := AsValues(args);
    var out := if m.NativeMacro? then When(vals, op) else invoke(m, vals);
    if out.Ok? then Restore(out.value, op) else expr
  }

  // ---- properties of expansion ----

  /** A form that is not a macro call comes back unchanged, and the
      environment with it: an atom, an empty list, a list headed by anything
      but a symbol, a quotation, or a call of something that is not a macro. */
  lemma NotAMacroCall(env: ReaderEnv, expr: LVal, invoke: Invoker)
    requires !expr.LList? || |expr.items| == 0 || !expr.items[0].LSym? ||
      expr.items[0].tok.lexeme == "quote" ||
      (expr.items[0].tok.lexeme != "defmacro" &&
       (expr.items[0].tok.lexeme !in env || env[expr.items[0].tok.lexeme].Plain?))
    ensures Expand(env, expr, invoke) == Expanded(Ok(expr), env)
  {
  }

  /** The syntax `when` produces: `(if test (do body...))`, every bracket
      relabelled with the token of `when`. */
  function WhenForm(args: seq<LVal>, tok: Token): LVal
    requires args != []
  {
    LList([LSym(Relexeme(tok, "if")), Relabel(args[0], tok), LList([LSym(Relexeme(tok, "do"))] + RelabelAll(args[1..], tok), tok)], tok)
  }

  function RelabelAll(s: seq<LVal>, tok: Token): (r: seq<LVal>)
    ensures |r| == |s| && forall i :: 0 <= i < |s| ==> r[i] == Relabel(s[i], tok)
  {
    seq(|s|, i requires 0 <= i < |s| => Relabel(s[i], tok))
  }

  function AsValues(s: seq<LVal>): (r: seq<RVal>)
    ensures |r| == |s| && forall i :: 0 <= i < |s| ==> r[i] == AsValue(s[i])
  {
    seq(|s|, i requires 0 <= i < |s| => AsValue(s[i]))
  }

  /** Calling `when` on syntax and restoring the result gives `WhenForm`. */
  lemma WhenCall(args: seq<LVal>, tok: Token)
    requires args != []
    ensures When(AsValues(args), tok).Ok?
    ensures Restore(When(AsValues(args), tok).value, tok) == WhenForm(args, tok)
  {
    var vals := AsValues(args);
    var doList := RList([RSym(Relexeme(tok, "do"))] + vals[1..]);
    var doForm := LList([LSym(Relexeme(tok, "do"))] + RelabelAll(args[1..], tok), tok);
    assert Restore(doList, tok) == doForm by {
      forall i | 0 <= i < |args| - 1 ensures Restore(vals[1..][i], tok) == Relabel(args[1..][i], tok) {
        RestoreAsValue(args[i + 1], tok);
      }
    }
    RestoreAsValue(args[0], tok);
    var out := RList([RSym(Relexeme(tok, "if")), vals[0], doList]);
    assert When(vals, tok) == Ok(out);
    assert Restore(out, tok).items == WhenForm(args, tok).items;
  }

  /** `(when test body...)` whose arguments hold no macro call expands to
      `WhenForm`, and the environment is unchanged. */
  lemma WhenExpansion(env: ReaderEnv, whenTok: Token, args: seq<LVal>, lparen: Token, invoke: Invoker)
    requires whenTok.lexeme == "when" && "when" in env && env["when"] == NativeMacro
    requires args != []
    requires forall i :: 0 <= i < |args| ==> Expand(env, args[i], invoke) == Expanded(Ok(args[i]), env)
    ensures Expand(env, LList([LSym(whenTok)] + args, lparen), invoke) == Expanded(Ok(WhenForm(args, whenTok)), env)
  {
    var expr := LList([LSym(whenTok)] + args, lparen);
    assert expr.items[1..] == args;
    UnchangedAll(env, args, invoke);
    WhenCall(args, whenTok);
  }

  /** Arguments that each expand to themselves expand together to themselves. */
  lemma {:induction false} UnchangedAll(env: ReaderEnv, items: seq<LVal>, invoke: Invoker)
    requires forall i :: 0 <= i < |items| ==> Expand(env, items[i], invoke) == Expanded(Ok(items[i]), env)
    ensures ExpandAll(env, items, invoke) == ExpandedAll(Ok(items), env)
    decreases |items|
  {
    if items != [] {
      assert forall i :: 0 <= i < |items[1..]| ==> items[1..][i] == items[i + 1];
      UnchangedAll(env, items[1..], invoke);
      assert [items[0]] + items[1..] == items;
    }
  }

  /** When an argument of a macro call fails to expand, the call is left as
      it was (the failure is caught), keeping what earlier arguments added
      to the environment. */
  lemma FailedArgumentSwallowed(env: ReaderEnv, expr: LVal, invoke: Invoker)
    requires expr.LList? && |expr.items| > 0 && expr.items[0].LSym?
    requires expr.items[0].tok.lexeme != "quote" && expr.items[0].tok.lexeme != "defmacro"
    requires expr.items[0].tok.lexeme in env && !env[expr.items[0].tok.lexeme].Plain?
    requires ExpandAll(env, expr.items[1..], invoke).r.Err?
    ensures Expand(env, expr, invoke) == Expanded(Ok(expr), ExpandAll(env, expr.items[1..], invoke).env)
  {
  }

  // ---- the program ----

  predicate IsDefMacro(v: LVal)
  {
    v.LList? && |v.items| > 0 && v.items[0].IsSymbolNamed("defmacro")
  }

  /** The environment `macroexpand` starts from: the natives, then `when`. */
  function ReaderGlobals(): ReaderEnv
  {
    SeedPlain(NativeOps())["when" := NativeMacro]
  }

  function SeedPlain(ops: seq<NativeOp>): (m: ReaderEnv)
    ensures forall k :: k in m ==> m[k] == Plain
  {
    if ops == [] then map[] else SeedPlain(ops[..|ops| - 1])[NativeName(ops[|ops| - 1]) := Plain]
  }

  /** `macroexpand`: every top-level form in order, one environment
      threaded through; the first failing `defmacro` stops the walk. */
  function ExpandProgram(env: ReaderEnv, program: seq<LVal>, invoke: Invoker): (r: Result<seq<LVal>>)
    ensures r.Ok? ==> |r.value| == |program|
    ensures r.Err? ==> exists i :: 0 <= i < |program| && IsDefMacro(program[i])
    decreases |program|
  {
    if program == [] then Ok([])
    else
      var h := Expand(env, program[0], invoke);
      if h.r.Err? then Err(h.r.fault)
      else
        var t :- ExpandProgram(h.env, program[1..], invoke);
        assert forall i :: 1 <= i < |program| ==> program[i] == program[1..][i - 1];
        Ok([h.r.value] + t)
  }

  function MacroExpand(program: seq<LVal>, invoke: Invoker): Result<seq<LVal>>
  {
    ExpandProgram(ReaderGlobals(), program, invoke)
  }

  /** A macro defined by one form is used by the next: after a valid
      `defmacro`, a call of the new macro goes to it. */
  lemma DefinedMacroIsCalled(env: ReaderEnv, def: LVal, name: string, invoke: Invoker)
    requires IsDefMacro(def)
    requires DefMacro(def.items[0].tok, def.items[1..]).Ok? && DefMacro(def.items[0].tok, def.items[1..]).value.0 == name
    ensures Expand(env, def, invoke).r == Ok(LNil)
    ensures name in Expand(env, def, invoke).env && Expand(env, def, invoke).env[name].UserMacro?
  {
  }
}
