/** Lowering of the typed tree to tree IR (src/lower.ts:7-187).

    The source numbers its labels and temporaries with a module-level
    counter that `getID` increments and returns. Here the counter is
    explicit: every operation takes its value before the operation and
    returns its value after, and a `getID` at value `c` yields `c + 1`.
    The names a lowered tree defines (its labels, the destinations of its
    moves and phis, its function labels) are then all built from counter
    values the lowering drew, which `LowerFresh` states. */
module Lower {
  import opened Syntax
  import opened Wrappers
  import opened Types
  import opened Environments
  import opened Strings
  import opened IR

  /** What a name is bound to while lowering: the temporary of a `let`
      binding, or the label of a named function inside its own body. */
  datatype Bound = BTemp(name: string) | BLabel(name: string)

  function BoundExpr(b: Bound): IExpr
  {
    match b
    case BTemp(n) => ITemp(n)
    case BLabel(n) => ILabel(n)
  }

  // ---- literals and symbols ----

  /** `lower_literal`: numbers, booleans (as 1 and 0) and strings are
      tagged constants, nil is the untagged constant 0. */
  function LowerLiteral(v: LVal): (r: IExpr)
    requires v.IsLiteral()
  {
    match v
    case LNum(n) => ITag(TagBase(TNumber), IConst(Num(n)))
    case LBool(b) => ITag(TagBase(TBoolean), IConst(Num(if b then 1 else 0)))
    case LStr(s) => ITag(TagBase(TString), IConst(Str(s)))
    case LNil => IConst(Num(0))
  }

  /** Reads a lowered literal back. */
  function LiteralOf(r: IExpr): Option<LVal>
  {
    match r
    case ITag(TagBase(TNumber), IConst(Num(n))) => Some(LNum(n))
    case ITag(TagBase(TBoolean), IConst(Num(n))) =>
      if n == 1 then Some(LBool(true)) else if n == 0 then Some(LBool(false)) else None
    case ITag(TagBase(TString), IConst(Str(s))) => Some(LStr(s))
    case IConst(Num(0)) => Some(LNil)
    case _ => None
  }

  /** No two literals lower to the same tree: each can be read back. */
  lemma LiteralRoundTrip(v: LVal)
    requires v.IsLiteral()
    ensures LiteralOf(LowerLiteral(v)) == Some(v)
  {
  }

  /** `lower_symbol`: what the name is bound to, or else a temporary
      named after the symbol itself. */
  function LowerSymbol(env: Chain<Bound>, tok: Token): (r: IExpr)
    ensures r.ITemp? || r.ILabel?
    ensures Lookup(env, tok.lexeme).None? ==> r == ITemp(tok.lexeme)
    ensures Lookup(env, tok.lexeme) == Some(BTemp(r.name)) || (r == ITemp(tok.lexeme) && Lookup(env, tok.lexeme).None?)
            || Lookup(env, tok.lexeme) == Some(BLabel(r.name))
  {
    match Lookup(env, tok.lexeme)
    case Some(b) => BoundExpr(b)
    case None => ITemp(tok.lexeme)
  }

  // ---- the trees the lowering builds ----

  /** The tree of `lower_if` around its lowered condition `ci` and
      children `fi` and `ti`, all named from the counter value `id`. The
      conditional jump names no false label: the false branch is reached
      by falling through to the label after it. */
  function IfTree(id: nat, ci: IExpr, fi: IExpr, ti: IExpr): (r: IExpr)
    ensures r.IESeq? && r.stmt.SSeq? && |r.stmt.stmts| == 8
    ensures r.stmt.stmts[0] == SCJump(IUntag(ci), Gen("true", id), None)
    ensures r.stmt.stmts[1] == SLabel(Gen("false", id))
  {
    var ns := IfNames(id);
    var tl, fl, al, tt, ft, rt := ns[0], ns[1], ns[2], ns[3], ns[4], ns[5];
    IESeq(ITemp(rt), SSeq([
      SCJump(IUntag(ci), tl, None),
      SLabel(fl), SMove(ft, fi), SJump(al),
      SLabel(tl), SMove(tt, ti),
      SLabel(al), SPhi(rt, [Pred(tl, RTemp(tt)), Pred(fl, RTemp(ft))])]))
  }

  /** The tree of `lower_let`: the moves of its bindings, then the move
      of its body into the result temporary `t<id>`. */
  function LetTree(id: nat, moves: seq<IStmt>, bi: IExpr): IExpr
  {
    IESeq(ITemp(TempName(id)), SSeq(moves + [SMove(TempName(id), bi)]))
  }

  /** The tree of `lower_fn`: a function value tagged FUNCTION. */
  function FnTree(id: nat, name: Option<string>, params: seq<string>, bi: IExpr, caps: seq<Token>): IExpr
  {
    ITag(TagFunction, IFunc(FnLabel(name, id), params, bi, caps))
  }

  /** The tree of `lower_do`: the last body is the value, the others are
      evaluated before it for their effects. */
  function DoTree(li: IExpr, irs: seq<IExpr>): IExpr
  {
    IESeq(li, SSeq(Exps(irs)))
  }

  /** The label of a function: its name, or `anon` when it has none or an
      empty one. */
  function FnLabel(name: Option<string>, id: nat): string
  {
    Gen(if name.Some? && name.value != [] then name.value else "anon", id)
  }

  function ParamNames(ts: seq<Token>): (r: seq<string>)
    ensures |r| == |ts| && forall i :: 0 <= i < |ts| ==> r[i] == ts[i].lexeme
  {
    seq(|ts|, i requires 0 <= i < |ts| => ts[i].lexeme)
  }

  function Exps(es: seq<IExpr>): (r: seq<IStmt>)
    ensures |r| == |es| && forall i :: 0 <= i < |es| ==> r[i] == SExp(es[i])
  {
    seq(|es|, i requires 0 <= i < |es| => SExp(es[i]))
  }

  // ---- lowering ----

  /** `lower_expr` with the counter at `c`: the lowered tree and the
      counter after it. `h` is the checker's heap, which holds the
      capture lists of functions. `if`, `let` and `fn` draw a counter
      value before lowering their parts; everything else draws only
      through its parts. */
  function LowerExpr(h: Heap, env: Chain<Bound>, e: Expr, c: nat): (r: (IExpr, nat))
    ensures c <= r.1
    ensures e.IfE? || e.LetE? || e.FnE? ==> c < r.1
    ensures !ProducesFunc(r.0)
    decreases e
  {
    match e
    case Lit(v, _, _) => (if v.IsLiteral() then LowerLiteral(v) else IConst(Num(0)), c)
    case SymbolE(tok, _, _) => (LowerSymbol(env, tok), c)
    case ListE(cs, _, _, _) =>
      if cs == [] then (IConst(Num(0)), c)
      else
        var (irs, c1) := LowerAll(h, env, cs, c);
        (ICall(ILabel("__make_list"), irs), c1)
    case VectorE(cs, _, _, _) =>
      if cs == [] then (IConst(Num(0)), c)
      else
        var (irs, c1) := LowerAll(h, env, cs, c);
        (ICall(ILabel("__make_vector"), irs), c1)
    case IfE(cond, t, f, _, _) =>
      var (ci, c1) := LowerExpr(h, env, cond, c + 1);
      var (fi, c2) := LowerExpr(h, env, f, c1);
      var (ti, c3) := LowerExpr(h, env, t, c2);
      (IfTree(c + 1, ci, fi, ti), c3)
    case LetE(bs, body, _, _) =>
      var (moves, scope, c1) := LowerBindings(h, Nest(env), bs, c + 1);
      var (bi, c2) := LowerExpr(h, scope, body, c1);
      (LetTree(c + 1, moves, bi), c2)
    case SE(op, cs, _, _, _) =>
      var (oi, c1) := LowerExpr(h, env, op, c);
      var (irs, c2) := LowerAll(h, env, cs, c1);
      (ICall(IUntag(oi), irs), c2)
    case FnE(_, params, body, caps, _, _, name, _) =>
      var scope := if name.Some? then Bind(Nest(env), name.value, BLabel(FnLabel(name, c + 1))) else Nest(env);
      var (bi, c1) := LowerExpr(h, scope, body, c + 1);
      (FnTree(c + 1, name, ParamNames(params), bi, CapsAt(h, caps)), c1)
    case DoE(bodies, _, _, _) =>
      if bodies == [] then (IConst(Num(0)), c)
      else
        var (li, c1) := LowerExpr(h, env, bodies[|bodies| - 1], c);
        var (irs, c2) := LowerAll(h, env, bodies[..|bodies| - 1], c1);
        (DoTree(li, irs), c2)
  }

  /** The children of a list, a vector, a call or a `do`, left to right. */
  function LowerAll(h: Heap, env: Chain<Bound>, es: seq<Expr>, c: nat): (r: (seq<IExpr>, nat))
    ensures c <= r.1 && |r.0| == |es|
    decreases es
  {
    if es == [] then ([], c)
    else
      var (first, c1) := LowerExpr(h, env, es[0], c);
      var (rest, c2) := LowerAll(h, env, es[1..], c1);
      ([first] + rest, c2)
  }

  /** The bindings loop of `lower_let`: each key draws its temporary
      before its value is lowered, in the scope of the bindings before
      it, and is then defined in the innermost frame of that scope. */
  function LowerBindings(h: Heap, scope: Chain<Bound>, bs: seq<Binding>, c: nat)
    : (r: (seq<IStmt>, Chain<Bound>, nat))
    requires scope != []
    ensures c + |bs| <= r.2 && |r.0| == |bs|
    ensures |r.1| == |scope| && r.1[1..] == scope[1..]
    decreases bs
  {
    if bs == [] then ([], scope, c)
    else
      assert bs[0] in bs && bs[0].value < bs[0];
      var key := TempName(c + 1);
      var (vi, c1) := LowerExpr(h, scope, bs[0].value, c + 1);
      var (rest, scope', c2) := LowerBindings(h, Bind(scope, bs[0].key.lexeme, BTemp(key)), bs[1..], c1);
      ([SMove(key, vi)] + rest, scope', c2)
  }

  // ---- the names a lowered tree defines are fresh ----

  /** The six names of an `if` are pairwise distinct and all carry its
      counter value. */
  lemma IfNamesDistinct(id: nat)
    ensures forall i, j :: 0 <= i < j < |IfNames(id)| ==> IfNames(id)[i] != IfNames(id)[j]
    ensures forall i :: 0 <= i < |IfNames(id)| ==> GenId(IfNames(id)[i]) == id
  {
    var ps := IfPrefixes();
    forall i, j | 0 <= i < j < |ps|
      ensures Gen(ps[i], id) != Gen(ps[j], id)
    {
      GenPrefixDistinct(ps[i], ps[j], id);
    }
    forall i | 0 <= i < |ps|
      ensures GenId(Gen(ps[i], id)) == id
    {
      GenIdOf(ps[i], id);
    }
  }

  function IfPrefixes(): seq<string>
  {
    ["true", "false", "after", "true_result", "false_result", "if_result"]
  }

  /** The labels `true_id`, `false_id`, `after_id` and the temporaries
      `true_result_id`, `false_result_id`, `if_result_id`. */
  function IfNames(id: nat): (ns: seq<string>)
    ensures |ns| == 6 && forall i :: 0 <= i < 6 ==> ns[i] == Gen(IfPrefixes()[i], id)
  {
    seq(6, i requires 0 <= i < 6 => Gen(IfPrefixes()[i], id))
  }

  /** How many of the six names of an `if` are `n`. */
  function IfOwn(id: nat, n: string): nat
  {
    var ns := IfNames(id);
    (if ns[0] == n then 1 else 0) + (if ns[1] == n then 1 else 0) + (if ns[2] == n then 1 else 0)
    + (if ns[3] == n then 1 else 0) + (if ns[4] == n then 1 else 0) + (if ns[5] == n then 1 else 0)
  }

  lemma IfOwnFresh(id: nat, n: string)
    requires 0 < id
    ensures FreshCount(IfOwn(id, n), n, id - 1, id)
  {
    IfNamesDistinct(id);
  }

  /** How often an `if` defines `n`: once per own name equal to it, and
      as often as its parts do. */
  lemma IfTreeCount(id: nat, ci: IExpr, fi: IExpr, ti: IExpr, n: string)
    ensures Count(IfTree(id, ci, fi, ti), n) == IfOwn(id, n) + Count(ci, n) + Count(fi, n) + Count(ti, n)
  {
    var t := IfTree(id, ci, fi, ti);
    var ss := t.stmt.stmts;
    assert Count(t, n) == StmtsCount(ss, n);
    StmtsCountFour(ss, 0, n);
    StmtsCountFour(ss, 4, n);
    assert ss[0..] == ss && ss[8..] == [];
    IfArmsCount(id, ci, fi, ti, n);
  }

  /** The false arm (statements 0 to 3) and the true arm with the join
      (statements 4 to 7) of an `if`, counted. */
  lemma IfArmsCount(id: nat, ci: IExpr, fi: IExpr, ti: IExpr, n: string)
    ensures var ns, ss := IfNames(id), IfTree(id, ci, fi, ti).stmt.stmts;
      && StmtCount(ss[0], n) + StmtCount(ss[1], n) + StmtCount(ss[2], n) + StmtCount(ss[3], n)
         == (if ns[1] == n then 1 else 0) + (if ns[4] == n then 1 else 0) + Count(ci, n) + Count(fi, n)
      && StmtCount(ss[4], n) + StmtCount(ss[5], n) + StmtCount(ss[6], n) + StmtCount(ss[7], n)
         == (if ns[0] == n then 1 else 0) + (if ns[3] == n then 1 else 0) + (if ns[2] == n then 1 else 0)
            + (if ns[5] == n then 1 else 0) + Count(ti, n)
  {
  }

  lemma IfTreeFreshAt(id: nat, ci: IExpr, fi: IExpr, ti: IExpr, c1: nat, c2: nat, c3: nat, n: string)
    requires 0 < id <= c1 <= c2 <= c3
    requires FreshCount(Count(ci, n), n, id, c1) && FreshCount(Count(fi, n), n, c1, c2)
    requires FreshCount(Count(ti, n), n, c2, c3)
    ensures FreshCount(Count(IfTree(id, ci, fi, ti), n), n, id - 1, c3)
  {
    IfTreeCount(id, ci, fi, ti, n);
    IfOwnFresh(id, n);
    FreshSum(IfOwn(id, n), Count(ci, n), n, id - 1, id, c1);
    FreshSum(IfOwn(id, n) + Count(ci, n), Count(fi, n), n, id - 1, c1, c2);
    FreshSum(IfOwn(id, n) + Count(ci, n) + Count(fi, n), Count(ti, n), n, id - 1, c2, c3);
  }

  lemma IfTreeFresh(id: nat, ci: IExpr, fi: IExpr, ti: IExpr, c1: nat, c2: nat, c3: nat)
    requires 0 < id <= c1 <= c2 <= c3
    requires Fresh(ci, id, c1) && Fresh(fi, c1, c2) && Fresh(ti, c2, c3)
    ensures Fresh(IfTree(id, ci, fi, ti), id - 1, c3)
  {
    forall n
      ensures FreshCount(Count(IfTree(id, ci, fi, ti), n), n, id - 1, c3)
    {
      IfTreeFreshAt(id, ci, fi, ti, c1, c2, c3, n);
    }
  }

  lemma LetTreeFreshAt(id: nat, moves: seq<IStmt>, bi: IExpr, c1: nat, c2: nat, n: string)
    requires 0 < id <= c1 <= c2
    requires FreshCount(StmtsCount(moves, n), n, id, c1) && FreshCount(Count(bi, n), n, c1, c2)
    ensures FreshCount(Count(LetTree(id, moves, bi), n), n, id - 1, c2)
  {
    var t := TempName(id);
    TempIdOf(id);
    StmtsCountAppend(moves, [SMove(t, bi)], n);
    assert StmtsCount([SMove(t, bi)], n) == (if t == n then 1 else 0) + Count(bi, n);
    FreshSum(if t == n then 1 else 0, StmtsCount(moves, n), n, id - 1, id, c1);
    FreshSum((if t == n then 1 else 0) + StmtsCount(moves, n), Count(bi, n), n, id - 1, c1, c2);
  }

  lemma LetTreeFresh(id: nat, moves: seq<IStmt>, bi: IExpr, c1: nat, c2: nat)
    requires 0 < id <= c1 <= c2
    requires FreshStmts(moves, id, c1) && Fresh(bi, c1, c2)
    ensures Fresh(LetTree(id, moves, bi), id - 1, c2)
  {
    forall n
      ensures FreshCount(Count(LetTree(id, moves, bi), n), n, id - 1, c2)
    {
      LetTreeFreshAt(id, moves, bi, c1, c2, n);
    }
  }

  lemma FnTreeFresh(id: nat, name: Option<string>, params: seq<string>, bi: IExpr, caps: seq<Token>, c1: nat)
    requires 0 < id <= c1
    requires Fresh(bi, id, c1)
    ensures Fresh(FnTree(id, name, params, bi, caps), id - 1, c1)
  {
    var l := FnLabel(name, id);
    GenIdOf(if name.Some? && name.value != [] then name.value else "anon", id);
    forall n
      ensures FreshCount(Count(FnTree(id, name, params, bi, caps), n), n, id - 1, c1)
    {
      assert Count(FnTree(id, name, params, bi, caps), n) == (if l == n then 1 else 0) + Count(bi, n);
      FreshSum(if l == n then 1 else 0, Count(bi, n), n, id - 1, id, c1);
    }
  }

  /** `do`'s statements define what their expressions define. */
  lemma {:induction false} ExpsCount(es: seq<IExpr>, n: string)
    ensures StmtsCount(Exps(es), n) == CountAll(es, n)
    decreases |es|
  {
    if es != [] {
      assert Exps(es)[1..] == Exps(es[1..]);
      ExpsCount(es[1..], n);
    }
  }

  lemma DoTreeFresh(li: IExpr, irs: seq<IExpr>, c: nat, c1: nat, c2: nat)
    requires c <= c1 <= c2
    requires Fresh(li, c, c1) && FreshAll(irs, c1, c2)
    ensures Fresh(DoTree(li, irs), c, c2)
  {
    forall n
      ensures FreshCount(Count(DoTree(li, irs), n), n, c, c2)
    {
      ExpsCount(irs, n);
      FreshSum(Count(li, n), CountAll(irs, n), n, c, c1, c2);
    }
  }

  lemma CallFresh(oi: IExpr, irs: seq<IExpr>, c: nat, c1: nat, c2: nat)
    requires c <= c1 <= c2
    requires Fresh(oi, c, c1) && FreshAll(irs, c1, c2)
    ensures Fresh(ICall(IUntag(oi), irs), c, c2)
  {
    forall n
      ensures FreshCount(Count(ICall(IUntag(oi), irs), n), n, c, c2)
    {
      FreshSum(Count(oi, n), CountAll(irs, n), n, c, c1, c2);
    }
  }

  lemma ConsFresh(first: IExpr, rest: seq<IExpr>, c: nat, c1: nat, c2: nat)
    requires c <= c1 <= c2
    requires Fresh(first, c, c1) && FreshAll(rest, c1, c2)
    ensures FreshAll([first] + rest, c, c2)
  {
    assert ([first] + rest)[0] == first && ([first] + rest)[1..] == rest;
    forall n
      ensures FreshCount(CountAll([first] + rest, n), n, c, c2)
    {
      FreshSum(Count(first, n), CountAll(rest, n), n, c, c1, c2);
    }
  }

  lemma MoveConsFresh(key: string, vi: IExpr, rest: seq<IStmt>, c: nat, c1: nat, c2: nat)
    requires c < c1 <= c2 && GenId(key) == c + 1
    requires Fresh(vi, c + 1, c1) && FreshStmts(rest, c1, c2)
    ensures FreshStmts([SMove(key, vi)] + rest, c, c2)
  {
    var ss := [SMove(key, vi)] + rest;
    assert ss[0] == SMove(key, vi) && ss[1..] == rest;
    forall n
      ensures FreshCount(StmtsCount(ss, n), n, c, c2)
    {
      FreshSum(if key == n then 1 else 0, Count(vi, n), n, c, c + 1, c1);
      FreshSum((if key == n then 1 else 0) + Count(vi, n), StmtsCount(rest, n), n, c, c1, c2);
    }
  }

  /** Every name a lowered tree defines is defined once and built from a
      counter value the lowering drew. */
  lemma {:induction false} LowerFresh(h: Heap, env: Chain<Bound>, e: Expr, c: nat)
    ensures Fresh(LowerExpr(h, env, e, c).0, c, LowerExpr(h, env, e, c).1)
    decreases e, 1
  {
    match e
    case Lit(v, _, _) =>
    case SymbolE(tok, _, _) =>
    case ListE(cs, _, _, _) =>
      if cs != [] {
        LowerAllFresh(h, env, cs, c);
      }
    case VectorE(cs, _, _, _) =>
      if cs != [] {
        LowerAllFresh(h, env, cs, c);
      }
    case IfE(_, _, _, _, _) => IfFresh(h, env, e, c);
    case LetE(_, _, _, _) => LetFresh(h, env, e, c);
    case SE(_, _, _, _, _) => CallExprFresh(h, env, e, c);
    case FnE(_, _, _, _, _, _, _, _) => FnFresh(h, env, e, c);
    case DoE(_, _, _, _) => DoFresh(h, env, e, c);
  }

  lemma {:induction false} IfFresh(h: Heap, env: Chain<Bound>, e: Expr, c: nat)
    requires e.IfE?
    ensures Fresh(LowerExpr(h, env, e, c).0, c, LowerExpr(h, env, e, c).1)
    decreases e, 0
  {
    var (ci, c1) := LowerExpr(h, env, e.cond, c + 1);
    var (fi, c2) := LowerExpr(h, env, e.falseChild, c1);
    var (ti, c3) := LowerExpr(h, env, e.trueChild, c2);
    LowerFresh(h, env, e.cond, c + 1);
    LowerFresh(h, env, e.falseChild, c1);
    LowerFresh(h, env, e.trueChild, c2);
    IfTreeFresh(c + 1, ci, fi, ti, c1, c2, c3);
    assert LowerExpr(h, env, e, c) == (IfTree(c + 1, ci, fi, ti), c3);
  }

  lemma {:induction false} LetFresh(h: Heap, env: Chain<Bound>, e: Expr, c: nat)
    requires e.LetE?
    ensures Fresh(LowerExpr(h, env, e, c).0, c, LowerExpr(h, env, e, c).1)
    decreases e, 0
  {
    var (moves, scope, c1) := LowerBindings(h, Nest(env), e.bindings, c + 1);
    var (bi, c2) := LowerExpr(h, scope, e.body, c1);
    LowerBindingsFresh(h, Nest(env), e.bindings, c + 1);
    LowerFresh(h, scope, e.body, c1);
    LetTreeFresh(c + 1, moves, bi, c1, c2);
    assert LowerExpr(h, env, e, c) == (LetTree(c + 1, moves, bi), c2);
  }

  lemma {:induction false} CallExprFresh(h: Heap, env: Chain<Bound>, e: Expr, c: nat)
    requires e.SE?
    ensures Fresh(LowerExpr(h, env, e, c).0, c, LowerExpr(h, env, e, c).1)
    decreases e, 0
  {
    var (oi, c1) := LowerExpr(h, env, e.op, c);
    var (irs, c2) := LowerAll(h, env, e.children, c1);
    LowerFresh(h, env, e.op, c);
    LowerAllFresh(h, env, e.children, c1);
    CallFresh(oi, irs, c, c1, c2);
    assert LowerExpr(h, env, e, c) == (ICall(IUntag(oi), irs), c2);
  }

  lemma {:induction false} FnFresh(h: Heap, env: Chain<Bound>, e: Expr, c: nat)
    requires e.FnE?
    ensures Fresh(LowerExpr(h, env, e, c).0, c, LowerExpr(h, env, e, c).1)
    decreases e, 0
  {
    var name := e.name;
    var scope := if name.Some? then Bind(Nest(env), name.value, BLabel(FnLabel(name, c + 1))) else Nest(env);
    var (bi, c1) := LowerExpr(h, scope, e.body, c + 1);
    LowerFresh(h, scope, e.body, c + 1);
    FnTreeFresh(c + 1, name, ParamNames(e.params), bi, CapsAt(h, e.caps), c1);
    assert LowerExpr(h, env, e, c) == (FnTree(c + 1, name, ParamNames(e.params), bi, CapsAt(h, e.caps)), c1);
  }

  lemma {:induction false} DoFresh(h: Heap, env: Chain<Bound>, e: Expr, c: nat)
    requires e.DoE?
    ensures Fresh(LowerExpr(h, env, e, c).0, c, LowerExpr(h, env, e, c).1)
    decreases e, 0
  {
    var bodies := e.bodies;
    if bodies != [] {
      assert bodies[|bodies| - 1] in bodies;
      var (li, c1) := LowerExpr(h, env, bodies[|bodies| - 1], c);
      var (irs, c2) := LowerAll(h, env, bodies[..|bodies| - 1], c1);
      LowerFresh(h, env, bodies[|bodies| - 1], c);
      LowerAllFresh(h, env, bodies[..|bodies| - 1], c1);
      DoTreeFresh(li, irs, c, c1, c2);
      assert LowerExpr(h, env, e, c) == (DoTree(li, irs), c2);
    }
  }

  lemma {:induction false} LowerAllFresh(h: Heap, env: Chain<Bound>, es: seq<Expr>, c: nat)
    ensures FreshAll(LowerAll(h, env, es, c).0, c, LowerAll(h, env, es, c).1)
    decreases es
  {
    if es != [] {
      var (first, c1) := LowerExpr(h, env, es[0], c);
      var (rest, c2) := LowerAll(h, env, es[1..], c1);
      LowerFresh(h, env, es[0], c);
      LowerAllFresh(h, env, es[1..], c1);
      ConsFresh(first, rest, c, c1, c2);
    }
  }

  lemma {:induction false} LowerBindingsFresh(h: Heap, scope: Chain<Bound>, bs: seq<Binding>, c: nat)
    requires scope != []
    ensures FreshStmts(LowerBindings(h, scope, bs, c).0, c, LowerBindings(h, scope, bs, c).2)
    decreases bs
  {
    if bs != [] {
      assert bs[0] in bs && bs[0].value < bs[0];
      var key := TempName(c + 1);
      var (vi, c1) := LowerExpr(h, scope, bs[0].value, c + 1);
      var scope1 := Bind(scope, bs[0].key.lexeme, BTemp(key));
      var (rest, scope', c2) := LowerBindings(h, scope1, bs[1..], c1);
      LowerFresh(h, scope, bs[0].value, c + 1);
      LowerBindingsFresh(h, scope1, bs[1..], c1);
      TempIdOf(c + 1);
      MoveConsFresh(key, vi, rest, c, c1, c2);
    }
  }
}
