/** Canonicalisation of tree IR and the driver `lower` (src/lower.ts:189-339).

    `canonicalize_expr` takes a tree and returns the statements to run
    first and an expression whose operands are constants or temporaries;
    `canonicalize_stmt` flattens a statement into a list. Both draw fresh
    temporaries `t<id>` from the counter the lowering uses, which is
    explicit here as in `Lower`. A label in expression position (the
    `__make_list` and `__make_vector` callees, or a named function read
    inside its own body) matches none of the cases and reaches the
    function case, which reads `body` of it and then of `undefined`: the
    JavaScript TypeError the model reports as `ReadOfUndefined("body")`.

    The call case of the source loses the statements that compute the
    callee whenever the callee canonicalises to a constant or a
    temporary, which it does for every callee that is not a symbol. The
    `Version` selects that behaviour (`AsWritten`) or the one that keeps
    them (`Intended`); everything else is the same in both.

    The main results: the output is flat and its operands are constants
    or temporaries (`CanonExpr`'s contract), canonicalisation fails exactly
    when the tree reads a label, it defines no name more often than the
    tree does besides the temporaries it draws, and in the intended
    version exactly as often (`CanonCount`), and so a whole program
    compiled by `LowerProgram` defines every name at most once
    (`ProgramFresh`). As written, a call whose operator is a `fn` literal
    or another call reads a temporary that nothing sets
    (`CalleeNeverSet`); intended, it is set once (`CalleeSetOnce`). */
module Canon {
  import opened Syntax
  import opened Wrappers
  import opened Types
  import opened Environments
  import opened IR
  import opened Lower

  /** The result of `canonicalize_expr`: statements, the expression, and
      the counter after them. */
  datatype Canonical = Canonical(stmts: seq<CStmt>, expr: CExpr, next: nat)

  /** The arguments of a call, each moved into a temporary. */
  datatype Staged = Staged(stmts: seq<CStmt>, args: seq<RV>, next: nat)

  /** The result of `canonicalize_stmt`. */
  datatype Flattened = Flattened(stmts: seq<CStmt>, next: nat)

  // ---- what canonical output looks like ----

  /** A canonical expression: no statement sequence inside it, and the
      body of a function is a value after a flat list of statements. */
  predicate Simple(e: CExpr)
    decreases e
  {
    match e
    case CESeq(_, _) => false
    case CFunc(_, _, b, _) =>
      b.CESeq? && Simple(b.expr) && b.stmt.CSeq? && Flat(b.stmt.stmts)
    case _ => true
  }

  /** A canonical statement: no nested sequence, no expression statement,
      and moves and jumps over canonical expressions. */
  predicate FlatStmt(s: CStmt)
    decreases s
  {
    match s
    case CMove(_, src) => Simple(src)
    case CSeq(_) => false
    case CExp(_) => false
    case CCJump(cond, _, _) => Simple(cond)
    case _ => true
  }

  predicate Flat(ss: seq<CStmt>)
    decreases ss
  {
    forall i | 0 <= i < |ss| :: FlatStmt(ss[i])
  }

  // ---- where canonicalisation fails ----

  /** The tree reads a label as a value somewhere canonicalisation
      visits. */
  predicate ReadsLabel(e: IExpr)
    decreases e
  {
    match e
    case ILabel(_) => true
    case ITag(_, v) => ReadsLabel(v)
    case IUntag(v) => ReadsLabel(v)
    case ICall(f, args) => ReadsLabelAll(args) || ReadsLabel(f)
    case IESeq(x, s) => ReadsLabel(x) || StmtReadsLabel(s)
    case IFunc(_, _, b, _) => ReadsLabel(b)
    case _ => false
  }

  predicate ReadsLabelAll(es: seq<IExpr>)
    decreases es
  {
    es != [] && (ReadsLabel(es[0]) || ReadsLabelAll(es[1..]))
  }

  predicate StmtReadsLabel(s: IStmt)
    decreases s
  {
    match s
    case SMove(_, src) => ReadsLabel(src)
    case SSeq(ss) => StmtsReadLabel(ss)
    case SExp(x) => ReadsLabel(x)
    case SCJump(cond, _, _) => ReadsLabel(cond)
    case _ => false
  }

  predicate StmtsReadLabel(ss: seq<IStmt>)
    decreases ss
  {
    ss != [] && (StmtReadsLabel(ss[0]) || StmtsReadLabel(ss[1..]))
  }

  /** The crash of the function case on a label. */
  const LabelCrash := TypeError(ReadOfUndefined("body"))

  // ---- canonicalisation ----

  predicate IsRV(e: IExpr)
  {
    e.IConst? || e.ITemp?
  }

  function RVOf(e: IExpr): RV
    requires IsRV(e)
  {
    if e.IConst? then RConst(e.c) else RTemp(e.name)
  }

  /** A tag or an untag. */
  datatype Unary = UTag(kind: TagKind) | UUntag

  function Apply(u: Unary, v: RV): CExpr
  {
    match u
    case UTag(k) => CTag(k, v)
    case UUntag => CUntag(v)
  }

  /** A tag or an untag of a value that is not already a constant or a
      temporary: the result temporary is drawn first, and the value goes
      through a temporary of its own unless it canonicalised to one. */
  function Stage(u: Unary, inner: Canonical): (r: Canonical)
    ensures inner.next < r.next && r.expr.CVal?
    ensures Flat(inner.stmts) && Simple(inner.expr) ==> Flat(r.stmts)
  {
    var rt := TempName(inner.next + 1);
    if inner.expr.CVal? then
      Canonical(inner.stmts + [CMove(rt, Apply(u, inner.expr.v))], CVal(RTemp(rt)), inner.next + 1)
    else
      var et := TempName(inner.next + 2);
      Canonical(inner.stmts + [CMove(et, inner.expr), CMove(rt, Apply(u, RTemp(et)))],
                CVal(RTemp(rt)), inner.next + 2)
  }

  /** The end of the call case once the arguments `a` and the callee `f`
      are canonical: the result temporary, and a temporary for the callee
      unless it canonicalised to a constant or a temporary. Through the
      temporary, the callee's statements run after the arguments' and
      before the call. Without it, the source returns the arguments'
      statements and the call only, and the callee's statements are lost;
      `Intended` keeps them there too. */
  function CallEnd(a: Staged, f: Canonical, ver: Version): (r: Canonical)
    ensures f.next < r.next && r.expr.CVal?
    ensures Flat(a.stmts) && Flat(f.stmts) && Simple(f.expr) ==> Flat(r.stmts)
  {
    var rt := TempName(f.next + 1);
    if f.expr.CVal? then
      var kept := if ver.AsWritten? then [] else f.stmts;
      Canonical(a.stmts + kept + [CMove(rt, CCall(f.expr.v, a.args))], CVal(RTemp(rt)), f.next + 1)
    else
      var ft := TempName(f.next + 2);
      Canonical(a.stmts + f.stmts + [CMove(ft, f.expr), CMove(rt, CCall(RTemp(ft), a.args))],
                CVal(RTemp(rt)), f.next + 2)
  }

  /** `canonicalize_expr` with the counter at `c`. */
  function CanonExpr(e: IExpr, c: nat, ver: Version): (r: Result<Canonical>)
    ensures r.Err? <==> ReadsLabel(e)
    ensures r.Err? ==> r.fault == LabelCrash
    ensures r.Ok? ==> c <= r.value.next && Flat(r.value.stmts) && Simple(r.value.expr)
    ensures r.Ok? && r.value.expr.CFunc? ==> ProducesFunc(e)
    decreases e
  {
    match e
    case IConst(k) => Ok(Canonical([], CVal(RConst(k)), c))
    case ITemp(t) => Ok(Canonical([], CVal(RTemp(t)), c))
    case ILabel(_) => Err(LabelCrash)
    case ITag(k, v) =>
      if IsRV(v) then Ok(Canonical([], CTag(k, RVOf(v)), c))
      else
        var inner :- CanonExpr(v, c, ver);
        Ok(Stage(UTag(k), inner))
    case IUntag(v) =>
      if IsRV(v) then Ok(Canonical([], CUntag(RVOf(v)), c))
      else
        var inner :- CanonExpr(v, c, ver);
        Ok(Stage(UUntag, inner))
    case ICall(f, args) =>
      var a :- CanonArgs(args, c, ver);
      var fk :- CanonExpr(f, a.next, ver);
      Ok(CallEnd(a, fk, ver))
    case IESeq(x, s) =>
      var xk :- CanonExpr(x, c, ver);
      var sk :- CanonStmt(s, xk.next, ver);
      Ok(Canonical(sk.stmts + xk.stmts, xk.expr, sk.next))
    case IFunc(l, ps, b, caps) =>
      var bk :- CanonExpr(b, c, ver);
      Ok(Canonical([], CFunc(l, ps, CESeq(bk.expr, CSeq(bk.stmts)), caps), bk.next))
  }

  /** The argument loop of the call case. Every argument is canonicalised
      and moved into a fresh temporary, a constant or a temporary
      included: the test meant to pass those through looks at the call
      rather than at the argument, so it never holds. */
  function CanonArgs(args: seq<IExpr>, c: nat, ver: Version): (r: Result<Staged>)
    ensures r.Err? <==> ReadsLabelAll(args)
    ensures r.Err? ==> r.fault == LabelCrash
    ensures r.Ok? ==> c + |args| <= r.value.next && Flat(r.value.stmts)
    ensures r.Ok? ==> |r.value.args| == |args| && forall i :: 0 <= i < |args| ==> r.value.args[i].RTemp?
    decreases args
  {
    if args == [] then Ok(Staged([], [], c))
    else
      var ak :- CanonExpr(args[0], c, ver);
      var t := TempName(ak.next + 1);
      var rest :- CanonArgs(args[1..], ak.next + 1, ver);
      Ok(Staged(ak.stmts + [CMove(t, ak.expr)] + rest.stmts, [RTemp(t)] + rest.args, rest.next))
  }

  /** The end of the move case: the source goes straight into the
      destination when it canonicalised to a constant or a temporary, and
      through a fresh temporary otherwise. */
  function MoveTail(d: string, sk: Canonical): (r: Flattened)
    ensures sk.next <= r.next
    ensures Flat(sk.stmts) && Simple(sk.expr) ==> Flat(r.stmts)
  {
    if sk.expr.CVal? then Flattened(sk.stmts + [CMove(d, sk.expr)], sk.next)
    else
      var t := TempName(sk.next + 1);
      Flattened(sk.stmts + [CMove(t, sk.expr), CMove(d, CVal(RTemp(t)))], sk.next + 1)
  }

  /** `canonicalize_stmt` with the counter at `c`. */
  function CanonStmt(s: IStmt, c: nat, ver: Version): (r: Result<Flattened>)
    ensures r.Err? <==> StmtReadsLabel(s)
    ensures r.Err? ==> r.fault == LabelCrash
    ensures r.Ok? ==> c <= r.value.next && Flat(r.value.stmts)
    decreases s
  {
    match s
    case SLabel(l) => Ok(Flattened([CLabel(l)], c))
    case SPhi(d, ps) => Ok(Flattened([CPhi(d, ps)], c))
    case SJump(t) => Ok(Flattened([CJump(t)], c))
    case SSeq(ss) => CanonStmts(ss, c, ver)
    case SExp(x) =>
      var xk :- CanonExpr(x, c, ver);
      Ok(Flattened(xk.stmts, xk.next))
    case SMove(d, src) =>
      var sk :- CanonExpr(src, c, ver);
      Ok(MoveTail(d, sk))
    case SCJump(cond, onTrue, onFalse) =>
      var ck :- CanonExpr(cond, c, ver);
      Ok(Flattened(ck.stmts + [CCJump(ck.expr, onTrue, onFalse)], ck.next))
  }

  /** The `flatMap` over a sequence's statements, left to right. */
  function CanonStmts(ss: seq<IStmt>, c: nat, ver: Version): (r: Result<Flattened>)
    ensures r.Err? <==> StmtsReadLabel(ss)
    ensures r.Err? ==> r.fault == LabelCrash
    ensures r.Ok? ==> c <= r.value.next && Flat(r.value.stmts)
    decreases ss
  {
    if ss == [] then Ok(Flattened([], c))
    else
      var first :- CanonStmt(ss[0], c, ver);
      var rest :- CanonStmts(ss[1..], first.next, ver);
      Ok(Flattened(first.stmts + rest.stmts, rest.next))
  }

  // ---- the driver ----

  /** `lower`: each top-level expression is lowered in the one top-level
      environment, which nothing at top level extends, then canonicalised,
      and packed as its expression after its statements. The counter runs
      on from `c` across the whole program. */
  function LowerProgram(h: Heap, prog: seq<Expr>, c: nat, ver: Version): (r: Result<(seq<CExpr>, nat)>)
    ensures r.Ok? ==> |r.value.0| == |prog| && c <= r.value.1
    ensures r.Ok? ==> forall i :: 0 <= i < |prog| ==>
      r.value.0[i].CESeq? && Simple(r.value.0[i].expr) && r.value.0[i].stmt.CSeq? && Flat(r.value.0[i].stmt.stmts)
    ensures r.Err? ==> r.fault == LabelCrash
    decreases prog
  {
    if prog == [] then Ok(([], c))
    else
      var (ir, c1) := LowerExpr(h, Nest([]), prog[0], c);
      var k :- CanonExpr(ir, c1, ver);
      var rest :- LowerProgram(h, prog[1..], k.next, ver);
      Ok(([CESeq(k.expr, CSeq(k.stmts))] + rest.0, rest.1))
  }

  // ---- canonicalisation keeps names and adds only its own temporaries ----

  /** No function value is computed only to be thrown away: the value of
      an expression statement is never a function. Lowered trees have
      this form (`LowerKeepsFuncs`). */
  predicate KeepsFuncs(e: IExpr)
    decreases e
  {
    match e
    case ITag(_, v) => KeepsFuncs(v)
    case IUntag(v) => KeepsFuncs(v)
    case ICall(f, args) => KeepsFuncs(f) && forall i | 0 <= i < |args| :: KeepsFuncs(args[i])
    case IESeq(x, s) => KeepsFuncs(x) && StmtKeepsFuncs(s)
    case IFunc(_, _, b, _) => KeepsFuncs(b)
    case _ => true
  }

  predicate StmtKeepsFuncs(s: IStmt)
    decreases s
  {
    match s
    case SMove(_, src) => KeepsFuncs(src)
    case SSeq(ss) => forall i | 0 <= i < |ss| :: StmtKeepsFuncs(ss[i])
    case SExp(x) => KeepsFuncs(x) && !ProducesFunc(x)
    case SCJump(cond, _, _) => KeepsFuncs(cond)
    case _ => true
  }

  /** How many counter values `k` in `(lo, hi]` have `t<k>` equal to
      `n`: the temporaries drawn while the counter went from `lo` to
      `hi` that are `n`. */
  function NewTemp(n: string, lo: nat, hi: nat): nat
    decreases hi
  {
    if hi <= lo then 0 else NewTemp(n, lo, hi - 1) + (if n == TempName(hi) then 1 else 0)
  }

  lemma {:induction false} NewTempSplit(n: string, lo: nat, mid: nat, hi: nat)
    requires lo <= mid <= hi
    ensures NewTemp(n, lo, hi) == NewTemp(n, lo, mid) + NewTemp(n, mid, hi)
    decreases hi
  {
    if mid < hi {
      NewTempSplit(n, lo, mid, hi - 1);
    }
  }

  /** The temporaries drawn over an interval are distinct and carry
      counter values from it. */
  lemma {:induction false} NewTempFresh(n: string, lo: nat, hi: nat)
    ensures FreshCount(NewTemp(n, lo, hi), n, lo, hi)
    decreases hi
  {
    if lo < hi {
      NewTempFresh(n, lo, hi - 1);
      if n == TempName(hi) {
        TempIdOf(hi);
      }
    }
  }

  /** How often a canonical result defines `n`, statements and value. */
  function Out(k: Canonical, n: string): nat
  {
    CStmtsCount(k.stmts, n) + CCount(k.expr, n)
  }

  lemma NewTempTwo(n: string, c: nat)
    ensures NewTemp(n, c, c + 2) == (if n == TempName(c + 1) then 1 else 0) + (if n == TempName(c + 2) then 1 else 0)
  {
    assert NewTemp(n, c, c + 1) == if n == TempName(c + 1) then 1 else 0;
  }

  lemma StageCount(u: Unary, inner: Canonical, n: string)
    ensures Out(Stage(u, inner), n) == Out(inner, n) + NewTemp(n, inner.next, Stage(u, inner).next)
  {
    var rt := TempName(inner.next + 1);
    if inner.expr.CVal? {
      CStmtsCountSnoc(inner.stmts, CMove(rt, Apply(u, inner.expr.v)), n);
    } else {
      var et := TempName(inner.next + 2);
      CStmtsCountSnoc2(inner.stmts, CMove(et, inner.expr), CMove(rt, Apply(u, RTemp(et))), n);
      NewTempTwo(n, inner.next);
    }
  }

  /** The call's end defines what the arguments' statements and the
      callee define, and the temporaries it draws; as written, less the
      callee's statements when it drops them. */
  lemma CallEndCount(a: Staged, f: Canonical, ver: Version, n: string)
    ensures Out(CallEnd(a, f, ver), n) + (if ver.AsWritten? && f.expr.CVal? then CStmtsCount(f.stmts, n) else 0)
      == CStmtsCount(a.stmts, n) + Out(f, n) + NewTemp(n, f.next, CallEnd(a, f, ver).next)
  {
    var rt := TempName(f.next + 1);
    CStmtsCountAppend(a.stmts, f.stmts, n);
    if f.expr.CVal? {
      var kept := if ver.AsWritten? then [] else f.stmts;
      CStmtsCountAppend(a.stmts, kept, n);
      assert ver.AsWritten? ==> a.stmts + kept == a.stmts;
      CStmtsCountSnoc(a.stmts + kept, CMove(rt, CCall(f.expr.v, a.args)), n);
    } else {
      var ft := TempName(f.next + 2);
      CStmtsCountSnoc2(a.stmts + f.stmts, CMove(ft, f.expr), CMove(rt, CCall(RTemp(ft), a.args)), n);
      NewTempTwo(n, f.next);
    }
  }

  lemma MoveTailCount(d: string, sk: Canonical, n: string)
    ensures CStmtsCount(MoveTail(d, sk).stmts, n)
      == (if d == n then 1 else 0) + Out(sk, n) + NewTemp(n, sk.next, MoveTail(d, sk).next)
  {
    if sk.expr.CVal? {
      CStmtsCountSnoc(sk.stmts, CMove(d, sk.expr), n);
    } else {
      var t := TempName(sk.next + 1);
      CStmtsCountSnoc2(sk.stmts, CMove(t, sk.expr), CMove(d, CVal(RTemp(t))), n);
    }
  }

  /** Canonicalisation defines no name more often than the tree does,
      besides the temporaries it draws, each once; in the intended
      version it defines every name the tree defines exactly as often. */
  lemma {:induction false} CanonCount(e: IExpr, c: nat, ver: Version, n: string)
    requires KeepsFuncs(e) && CanonExpr(e, c, ver).Ok?
    ensures Out(CanonExpr(e, c, ver).value, n) <= Count(e, n) + NewTemp(n, c, CanonExpr(e, c, ver).value.next)
    ensures ver.Intended? ==>
      Out(CanonExpr(e, c, ver).value, n) == Count(e, n) + NewTemp(n, c, CanonExpr(e, c, ver).value.next)
    decreases e
  {
    match e
    case IConst(_) =>
    case ITemp(_) =>
    case ILabel(_) =>
      assert false;
    case ITag(k, v) =>
      if !IsRV(v) {
        var inner := CanonExpr(v, c, ver).value;
        CanonCount(v, c, ver, n);
        StageCount(UTag(k), inner, n);
        NewTempSplit(n, c, inner.next, Stage(UTag(k), inner).next);
      }
    case IUntag(v) =>
      if !IsRV(v) {
        var inner := CanonExpr(v, c, ver).value;
        CanonCount(v, c, ver, n);
        StageCount(UUntag, inner, n);
        NewTempSplit(n, c, inner.next, Stage(UUntag, inner).next);
      }
    case ICall(f, args) =>
      var a := CanonArgs(args, c, ver).value;
      var fk := CanonExpr(f, a.next, ver).value;
      CanonArgsCount(args, c, ver, n);
      CanonCount(f, a.next, ver, n);
      CallEndCount(a, fk, ver, n);
      NewTempSplit(n, c, a.next, fk.next);
      NewTempSplit(n, c, fk.next, CallEnd(a, fk, ver).next);
    case IESeq(x, s) =>
      var xk := CanonExpr(x, c, ver).value;
      var sk := CanonStmt(s, xk.next, ver).value;
      CanonCount(x, c, ver, n);
      CanonStmtCount(s, xk.next, ver, n);
      CStmtsCountAppend(sk.stmts, xk.stmts, n);
      NewTempSplit(n, c, xk.next, sk.next);
    case IFunc(l, ps, b, caps) =>
      var bk := CanonExpr(b, c, ver).value;
      CanonCount(b, c, ver, n);
      assert CCount(CESeq(bk.expr, CSeq(bk.stmts)), n) == Out(bk, n);
  }

  lemma {:induction false} CanonArgsCount(args: seq<IExpr>, c: nat, ver: Version, n: string)
    requires (forall i | 0 <= i < |args| :: KeepsFuncs(args[i])) && CanonArgs(args, c, ver).Ok?
    ensures CStmtsCount(CanonArgs(args, c, ver).value.stmts, n)
      <= CountAll(args, n) + NewTemp(n, c, CanonArgs(args, c, ver).value.next)
    ensures ver.Intended? ==> (CStmtsCount(CanonArgs(args, c, ver).value.stmts, n)
      == CountAll(args, n) + NewTemp(n, c, CanonArgs(args, c, ver).value.next))
    decreases args
  {
    if args != [] {
      var ak := CanonExpr(args[0], c, ver).value;
      var t := TempName(ak.next + 1);
      var rest := CanonArgs(args[1..], ak.next + 1, ver).value;
      assert CanonArgs(args, c, ver).value
        == Staged(ak.stmts + [CMove(t, ak.expr)] + rest.stmts, [RTemp(t)] + rest.args, rest.next);
      CanonCount(args[0], c, ver, n);
      CanonArgsCount(args[1..], ak.next + 1, ver, n);
      CStmtsCountAppend(ak.stmts + [CMove(t, ak.expr)], rest.stmts, n);
      CStmtsCountSnoc(ak.stmts, CMove(t, ak.expr), n);
      NewTempSplit(n, c, ak.next, ak.next + 1);
      NewTempSplit(n, c, ak.next + 1, rest.next);
    }
  }

  lemma {:induction false} CanonStmtCount(s: IStmt, c: nat, ver: Version, n: string)
    requires StmtKeepsFuncs(s) && CanonStmt(s, c, ver).Ok?
    ensures CStmtsCount(CanonStmt(s, c, ver).value.stmts, n)
      <= StmtCount(s, n) + NewTemp(n, c, CanonStmt(s, c, ver).value.next)
    ensures ver.Intended? ==> (CStmtsCount(CanonStmt(s, c, ver).value.stmts, n)
      == StmtCount(s, n) + NewTemp(n, c, CanonStmt(s, c, ver).value.next))
    decreases s
  {
    match s
    case SLabel(_) =>
    case SPhi(_, _) =>
    case SJump(_) =>
    case SSeq(ss) =>
      CanonStmtsCount(ss, c, ver, n);
    case SExp(x) =>
      CanonCount(x, c, ver, n);
    case SMove(d, src) =>
      var sk := CanonExpr(src, c, ver).value;
      CanonCount(src, c, ver, n);
      MoveTailCount(d, sk, n);
      NewTempSplit(n, c, sk.next, MoveTail(d, sk).next);
    case SCJump(cond, onTrue, onFalse) =>
      var ck := CanonExpr(cond, c, ver).value;
      CanonCount(cond, c, ver, n);
      CStmtsCountSnoc(ck.stmts, CCJump(ck.expr, onTrue, onFalse), n);
  }

  lemma {:induction false} CanonStmtsCount(ss: seq<IStmt>, c: nat, ver: Version, n: string)
    requires (forall i | 0 <= i < |ss| :: StmtKeepsFuncs(ss[i])) && CanonStmts(ss, c, ver).Ok?
    ensures CStmtsCount(CanonStmts(ss, c, ver).value.stmts, n)
      <= StmtsCount(ss, n) + NewTemp(n, c, CanonStmts(ss, c, ver).value.next)
    ensures ver.Intended? ==> (CStmtsCount(CanonStmts(ss, c, ver).value.stmts, n)
      == StmtsCount(ss, n) + NewTemp(n, c, CanonStmts(ss, c, ver).value.next))
    decreases ss
  {
    if ss != [] {
      var first := CanonStmt(ss[0], c, ver).value;
      var rest := CanonStmts(ss[1..], first.next, ver).value;
      CanonStmtCount(ss[0], c, ver, n);
      CanonStmtsCount(ss[1..], first.next, ver, n);
      CStmtsCountAppend(first.stmts, rest.stmts, n);
      NewTempSplit(n, c, first.next, rest.next);
    }
  }

  // ---- lowered trees keep their functions ----

  lemma IfTreeKeeps(id: nat, ci: IExpr, fi: IExpr, ti: IExpr)
    requires KeepsFuncs(ci) && KeepsFuncs(fi) && KeepsFuncs(ti)
    ensures KeepsFuncs(IfTree(id, ci, fi, ti))
  {
    var ss := IfTree(id, ci, fi, ti).stmt.stmts;
    assert StmtKeepsFuncs(ss[0]) && StmtKeepsFuncs(ss[2]) && StmtKeepsFuncs(ss[5]);
  }

  lemma LetTreeKeeps(id: nat, moves: seq<IStmt>, bi: IExpr)
    requires (forall i | 0 <= i < |moves| :: StmtKeepsFuncs(moves[i])) && KeepsFuncs(bi)
    ensures KeepsFuncs(LetTree(id, moves, bi))
  {
    var ss := moves + [SMove(TempName(id), bi)];
    forall i | 0 <= i < |ss|
      ensures StmtKeepsFuncs(ss[i])
    {
      if i < |moves| {
        assert ss[i] == moves[i];
      }
    }
  }

  lemma DoTreeKeeps(li: IExpr, irs: seq<IExpr>)
    requires KeepsFuncs(li) && forall i | 0 <= i < |irs| :: KeepsFuncs(irs[i]) && !ProducesFunc(irs[i])
    ensures KeepsFuncs(DoTree(li, irs))
  {
    var ss := Exps(irs);
    assert forall i | 0 <= i < |ss| :: ss[i] == SExp(irs[i]);
  }

  /** The lowering never computes a function only to drop it: every
      function it builds is tagged, and `do` discards only values that
      are not functions. */
  lemma {:induction false} LowerKeepsFuncs(h: Heap, env: Chain<Bound>, e: Expr, c: nat)
    ensures KeepsFuncs(LowerExpr(h, env, e, c).0)
    decreases e, 1
  {
    match e
    case Lit(v, _, _) =>
    case SymbolE(tok, _, _) =>
    case ListE(cs, _, _, _) =>
      if cs != [] {
        var (irs, c1) := LowerAll(h, env, cs, c);
        LowerAllKeepsFuncs(h, env, cs, c);
        assert LowerExpr(h, env, e, c).0 == ICall(ILabel("__make_list"), irs);
      }
    case VectorE(cs, _, _, _) =>
      if cs != [] {
        var (irs, c1) := LowerAll(h, env, cs, c);
        LowerAllKeepsFuncs(h, env, cs, c);
        assert LowerExpr(h, env, e, c).0 == ICall(ILabel("__make_vector"), irs);
      }
    case IfE(_, _, _, _, _) =>
      IfKeepsFuncs(h, env, e, c);
    case LetE(_, _, _, _) =>
      LetKeepsFuncs(h, env, e, c);
    case SE(op, cs, _, _, _) =>
      var (oi, c1) := LowerExpr(h, env, op, c);
      var (irs, c2) := LowerAll(h, env, cs, c1);
      LowerKeepsFuncs(h, env, op, c);
      LowerAllKeepsFuncs(h, env, cs, c1);
      assert LowerExpr(h, env, e, c).0 == ICall(IUntag(oi), irs);
    case FnE(_, params, body, caps, _, _, name, _) =>
      var scope := if name.Some? then Bind(Nest(env), name.value, BLabel(FnLabel(name, c + 1))) else Nest(env);
      var (bi, c1) := LowerExpr(h, scope, body, c + 1);
      LowerKeepsFuncs(h, scope, body, c + 1);
      assert LowerExpr(h, env, e, c).0 == FnTree(c + 1, name, ParamNames(params), bi, CapsAt(h, caps));
    case DoE(_, _, _, _) =>
      DoKeepsFuncs(h, env, e, c);
  }

  lemma {:induction false} IfKeepsFuncs(h: Heap, env: Chain<Bound>, e: Expr, c: nat)
    requires e.IfE?
    ensures KeepsFuncs(LowerExpr(h, env, e, c).0)
    decreases e, 0
  {
    var (ci, c1) := LowerExpr(h, env, e.cond, c + 1);
    var (fi, c2) := LowerExpr(h, env, e.falseChild, c1);
    var (ti, c3) := LowerExpr(h, env, e.trueChild, c2);
    LowerKeepsFuncs(h, env, e.cond, c + 1);
    LowerKeepsFuncs(h, env, e.falseChild, c1);
    LowerKeepsFuncs(h, env, e.trueChild, c2);
    IfTreeKeeps(c + 1, ci, fi, ti);
    assert LowerExpr(h, env, e, c) == (IfTree(c + 1, ci, fi, ti), c3);
  }

  lemma {:induction false} LetKeepsFuncs(h: Heap, env: Chain<Bound>, e: Expr, c: nat)
    requires e.LetE?
    ensures KeepsFuncs(LowerExpr(h, env, e, c).0)
    decreases e, 0
  {
    var (moves, scope, c1) := LowerBindings(h, Nest(env), e.bindings, c + 1);
    var (bi, c2) := LowerExpr(h, scope, e.body, c1);
    LowerBindingsKeepsFuncs(h, Nest(env), e.bindings, c + 1);
    LowerKeepsFuncs(h, scope, e.body, c1);
    LetTreeKeeps(c + 1, moves, bi);
    assert LowerExpr(h, env, e, c).0 == LetTree(c + 1, moves, bi);
  }

  lemma {:induction false} DoKeepsFuncs(h: Heap, env: Chain<Bound>, e: Expr, c: nat)
    requires e.DoE?
    ensures KeepsFuncs(LowerExpr(h, env, e, c).0)
    decreases e, 0
  {
    var bodies := e.bodies;
    if bodies != [] {
      assert bodies[|bodies| - 1] in bodies;
      var (li, c1) := LowerExpr(h, env, bodies[|bodies| - 1], c);
      var (irs, c2) := LowerAll(h, env, bodies[..|bodies| - 1], c1);
      LowerKeepsFuncs(h, env, bodies[|bodies| - 1], c);
      LowerAllKeepsFuncs(h, env, bodies[..|bodies| - 1], c1);
      DoTreeKeeps(li, irs);
      assert LowerExpr(h, env, e, c).0 == DoTree(li, irs);
    }
  }

  lemma {:induction false} LowerAllKeepsFuncs(h: Heap, env: Chain<Bound>, es: seq<Expr>, c: nat)
    ensures forall i | 0 <= i < |LowerAll(h, env, es, c).0| ::
      KeepsFuncs(LowerAll(h, env, es, c).0[i]) && !ProducesFunc(LowerAll(h, env, es, c).0[i])
    decreases es
  {
    if es != [] {
      var (first, c1) := LowerExpr(h, env, es[0], c);
      var (rest, c2) := LowerAll(h, env, es[1..], c1);
      var irs := [first] + rest;
      assert LowerAll(h, env, es, c).0 == irs;
      LowerKeepsFuncs(h, env, es[0], c);
      LowerAllKeepsFuncs(h, env, es[1..], c1);
      forall i | 0 <= i < |irs|
        ensures KeepsFuncs(irs[i]) && !ProducesFunc(irs[i])
      {
        if i > 0 {
          assert irs[i] == rest[i - 1];
        }
      }
    }
  }

  lemma {:induction false} LowerBindingsKeepsFuncs(h: Heap, scope: Chain<Bound>, bs: seq<Binding>, c: nat)
    requires scope != []
    ensures forall i | 0 <= i < |LowerBindings(h, scope, bs, c).0| ::
      StmtKeepsFuncs(LowerBindings(h, scope, bs, c).0[i])
    decreases bs
  {
    if bs != [] {
      assert bs[0] in bs && bs[0].value < bs[0];
      var key := TempName(c + 1);
      var (vi, c1) := LowerExpr(h, scope, bs[0].value, c + 1);
      var scope1 := Bind(scope, bs[0].key.lexeme, BTemp(key));
      var (rest, scope', c2) := LowerBindings(h, scope1, bs[1..], c1);
      var moves := [SMove(key, vi)] + rest;
      assert LowerBindings(h, scope, bs, c).0 == moves;
      LowerKeepsFuncs(h, scope, bs[0].value, c + 1);
      LowerBindingsKeepsFuncs(h, scope1, bs[1..], c1);
      forall i | 0 <= i < |moves|
        ensures StmtKeepsFuncs(moves[i])
      {
        if i > 0 {
          assert moves[i] == rest[i - 1];
        }
      }
    }
  }

  // ---- a compiled program defines every name once ----

  /** How often the compiled top-level expressions define `n`. */
  function CCountAll(es: seq<CExpr>, n: string): nat
  {
    if es == [] then 0 else CCount(es[0], n) + CCountAll(es[1..], n)
  }

  /** One top-level expression, lowered and canonicalised from counter
      value `c`, defines `n` at most once, and only as a name drawn in
      `(c, next]`. */
  lemma PieceFresh(h: Heap, e: Expr, c: nat, ver: Version, n: string)
    requires CanonExpr(LowerExpr(h, Nest([]), e, c).0, LowerExpr(h, Nest([]), e, c).1, ver).Ok?
    ensures var (ir, c1) := LowerExpr(h, Nest([]), e, c);
      var k := CanonExpr(ir, c1, ver).value;
      FreshCount(Out(k, n), n, c, k.next)
  {
    var (ir, c1) := LowerExpr(h, Nest([]), e, c);
    var k := CanonExpr(ir, c1, ver).value;
    LowerFresh(h, Nest([]), e, c);
    assert FreshCount(Count(ir, n), n, c, c1);
    LowerKeepsFuncs(h, Nest([]), e, c);
    CanonCount(ir, c1, ver, n);
    NewTempFresh(n, c1, k.next);
    FreshSum(Count(ir, n), NewTemp(n, c1, k.next), n, c, c1, k.next);
  }

  lemma {:induction false} ProgramFreshAt(h: Heap, prog: seq<Expr>, c: nat, ver: Version, n: string)
    requires LowerProgram(h, prog, c, ver).Ok?
    ensures FreshCount(CCountAll(LowerProgram(h, prog, c, ver).value.0, n), n, c, LowerProgram(h, prog, c, ver).value.1)
    decreases prog
  {
    if prog != [] {
      var (ir, c1) := LowerExpr(h, Nest([]), prog[0], c);
      var k := CanonExpr(ir, c1, ver).value;
      var rest := LowerProgram(h, prog[1..], k.next, ver).value;
      var out := [CESeq(k.expr, CSeq(k.stmts))] + rest.0;
      assert LowerProgram(h, prog, c, ver).value == (out, rest.1);
      PieceFresh(h, prog[0], c, ver, n);
      ProgramFreshAt(h, prog[1..], k.next, ver, n);
      assert out[0] == CESeq(k.expr, CSeq(k.stmts)) && out[1..] == rest.0;
      assert CCount(out[0], n) == CStmtCount(CSeq(k.stmts), n) + CCount(k.expr, n) == Out(k, n);
      FreshSum(Out(k, n), CCountAll(rest.0, n), n, c, k.next, rest.1);
    }
  }

  /** Every label, temporary and function label the compiled program
      defines is defined at most once, and was drawn from the counter
      while the program was compiled: the lowering's own names are
      unique (`LowerFresh`), and canonicalisation adds only the
      temporaries it draws (`CanonCount`). This holds as written too,
      where the names the callee's statements define are not defined at
      all. */
  lemma ProgramFresh(h: Heap, prog: seq<Expr>, c: nat, ver: Version)
    requires LowerProgram(h, prog, c, ver).Ok?
    ensures forall n :: FreshCount(CCountAll(LowerProgram(h, prog, c, ver).value.0, n), n, c, LowerProgram(h, prog, c, ver).value.1)
  {
    forall n
      ensures FreshCount(CCountAll(LowerProgram(h, prog, c, ver).value.0, n), n, c, LowerProgram(h, prog, c, ver).value.1)
    {
      ProgramFreshAt(h, prog, c, ver, n);
    }
  }

  /** A non-empty list or vector literal cannot be compiled: it lowers to
      a call whose callee is a label. */
  lemma CollectionLiteralFails(h: Heap, e: Expr, c: nat, ver: Version)
    requires (e.ListE? || e.VectorE?) && e.children != []
    ensures LowerProgram(h, [e], c, ver) == Err(LabelCrash)
  {
    var (ir, c1) := LowerExpr(h, Nest([]), e, c);
    assert ir.ICall? && ir.func.ILabel?;
  }

  // ---- the callee of a call whose operator is not a symbol ----

  /** The temporary a statement list ends by calling, when its last
      statement moves a call of a temporary. */
  function CalledTemp(ss: seq<CStmt>): Option<string>
  {
    if ss == [] then None
    else match ss[|ss| - 1]
      case CMove(_, CCall(RTemp(t), _)) => Some(t)
      case _ => None
  }

  /** `TempName(k)` is drawn exactly once while the counter goes from
      `lo` to `hi` past `k`. */
  lemma NewTempHit(k: nat, lo: nat, hi: nat)
    requires lo < k <= hi
    ensures NewTemp(TempName(k), lo, hi) == 1
  {
    var n := TempName(k);
    NewTempSplit(n, lo, k, hi);
    assert NewTemp(n, lo, k) >= 1;
    NewTempFresh(n, lo, hi);
  }

  /** Staged arguments whose trees define no temporary past `c` define
      none past the counter after them either. */
  lemma ArgsDefineNoLater(args: seq<IExpr>, c: nat, ver: Version, k: nat)
    requires (forall i | 0 <= i < |args| :: KeepsFuncs(args[i])) && CanonArgs(args, c, ver).Ok?
    requires CountAll(args, TempName(k)) == 0 && CanonArgs(args, c, ver).value.next < k
    ensures CStmtsCount(CanonArgs(args, c, ver).value.stmts, TempName(k)) == 0
  {
    var a := CanonArgs(args, c, ver).value;
    CanonArgsCount(args, c, ver, TempName(k));
    NewTempFresh(TempName(k), c, a.next);
    TempIdOf(k);
  }

  /** The end of a call whose callee was untagged into `T`, the
      temporary drawn after `inner`: the call reads `T`, and the
      statements before it define `T` as often as the arguments' and, in
      the intended version, the callee's statements do. */
  lemma CallEndCallee(a: Staged, inner: Canonical, ver: Version)
    ensures var fk := Stage(UUntag, inner);
      var k := CallEnd(a, fk, ver);
      var T := TempName(inner.next + 1);
      CalledTemp(k.stmts) == Some(T) &&
      CStmtsCount(k.stmts[..|k.stmts| - 1], T) == CStmtsCount(a.stmts, T) + (if ver.AsWritten? then 0 else CStmtsCount(fk.stmts, T)) &&
      CStmtsCount(k.stmts, T) == CStmtsCount(k.stmts[..|k.stmts| - 1], T)
  {
    var fk := Stage(UUntag, inner);
    var T := TempName(inner.next + 1);
    var rt := TempName(fk.next + 1);
    var kept := if ver.AsWritten? then [] else fk.stmts;
    var k := CallEnd(a, fk, ver);
    assert fk.expr == CVal(RTemp(T));
    assert k.stmts == (a.stmts + kept) + [CMove(rt, CCall(RTemp(T), a.args))];
    assert k.stmts[..|k.stmts| - 1] == a.stmts + kept;
    TempIdOf(inner.next + 1);
    TempIdOf(fk.next + 1);
    CStmtsCountAppend(a.stmts, kept, T);
    CStmtsCountSnoc(a.stmts + kept, CMove(rt, CCall(RTemp(T), a.args)), T);
  }

  /** The call of a callee that is untagged from anything but a constant
      or a temporary, on tree IR that defines no temporary past `c`: the
      canonical call reads the untag's temporary `T`, which the
      statements before the call define once in the intended version and
      never as written. */
  lemma CallCallee(f: IExpr, args: seq<IExpr>, c: nat, ver: Version)
    requires !IsRV(f) && KeepsFuncs(ICall(IUntag(f), args))
    requires forall k: nat | c < k :: Count(ICall(IUntag(f), args), TempName(k)) == 0
    requires CanonExpr(ICall(IUntag(f), args), c, ver).Ok?
    ensures var k := CanonExpr(ICall(IUntag(f), args), c, ver).value;
      CalledTemp(k.stmts).Some? &&
      CStmtsCount(k.stmts[..|k.stmts| - 1], CalledTemp(k.stmts).value) == (if ver.AsWritten? then 0 else 1) &&
      CStmtsCount(k.stmts, CalledTemp(k.stmts).value) == (if ver.AsWritten? then 0 else 1)
  {
    var a := CanonArgs(args, c, ver).value;
    var inner := CanonExpr(f, a.next, ver).value;
    var fk := Stage(UUntag, inner);
    assert CanonExpr(IUntag(f), a.next, ver) == Ok(fk);
    assert CanonExpr(ICall(IUntag(f), args), c, ver).value == CallEnd(a, fk, ver);
    var id := inner.next + 1;
    var T := TempName(id);
    assert Count(ICall(IUntag(f), args), T) == 0;
    ArgsDefineNoLater(args, c, ver, id);
    CallEndCallee(a, inner, ver);
    if ver.Intended? {
      CanonCount(IUntag(f), a.next, ver, T);
      NewTempHit(id, a.next, fk.next);
      assert CStmtsCount(fk.stmts, T) == 1;
    }
  }

  /** A call whose operator is a `fn` literal or another call: its callee
      is untagged into a temporary `T`, and the canonical call reads `T`.
      The statements define `T` once in the intended version, and never
      as written, where the statements that set it are lost. */
  lemma CalleeDefinitions(h: Heap, env: Chain<Bound>, e: Expr, c: nat, ver: Version)
    requires e.SE? && (e.op.FnE? || e.op.SE?)
    requires CanonExpr(LowerExpr(h, env, e, c).0, LowerExpr(h, env, e, c).1, ver).Ok?
    ensures var k := CanonExpr(LowerExpr(h, env, e, c).0, LowerExpr(h, env, e, c).1, ver).value;
      CalledTemp(k.stmts).Some? &&
      CStmtsCount(k.stmts[..|k.stmts| - 1], CalledTemp(k.stmts).value) == (if ver.AsWritten? then 0 else 1) &&
      CStmtsCount(k.stmts, CalledTemp(k.stmts).value) == (if ver.AsWritten? then 0 else 1)
  {
    var (oi, c1) := LowerExpr(h, env, e.op, c);
    var (irs, c2) := LowerAll(h, env, e.children, c1);
    var ir := ICall(IUntag(oi), irs);
    assert LowerExpr(h, env, e, c) == (ir, c2);
    assert oi.ITag? || oi.ICall?;
    LowerKeepsFuncs(h, env, e, c);
    LowerFresh(h, env, e, c);
    forall k: nat | c2 < k
      ensures Count(ir, TempName(k)) == 0
    {
      TempIdOf(k);
      assert FreshCount(Count(ir, TempName(k)), TempName(k), c, c2);
    }
    CallCallee(oi, irs, c2, ver);
  }

  /** As written, the call reads a temporary that no statement sets: in
      `((fn [x] x) 1)` the moves that build, tag and untag the closure are
      lost. */
  lemma CalleeNeverSet(h: Heap, env: Chain<Bound>, e: Expr, c: nat)
    requires e.SE? && (e.op.FnE? || e.op.SE?)
    requires CanonExpr(LowerExpr(h, env, e, c).0, LowerExpr(h, env, e, c).1, AsWritten).Ok?
    ensures var k := CanonExpr(LowerExpr(h, env, e, c).0, LowerExpr(h, env, e, c).1, AsWritten).value;
      CalledTemp(k.stmts).Some? && CStmtsCount(k.stmts, CalledTemp(k.stmts).value) == 0
  {
    CalleeDefinitions(h, env, e, c, AsWritten);
  }

  /** Intended, the temporary the call reads is set exactly once, by the
      callee's statements before the call. */
  lemma CalleeSetOnce(h: Heap, env: Chain<Bound>, e: Expr, c: nat)
    requires e.SE? && (e.op.FnE? || e.op.SE?)
    requires CanonExpr(LowerExpr(h, env, e, c).0, LowerExpr(h, env, e, c).1, Intended).Ok?
    ensures var k := CanonExpr(LowerExpr(h, env, e, c).0, LowerExpr(h, env, e, c).1, Intended).value;
      CalledTemp(k.stmts).Some? && CStmtsCount(k.stmts[..|k.stmts| - 1], CalledTemp(k.stmts).value) == 1
      && CStmtsCount(k.stmts, CalledTemp(k.stmts).value) == 1
  {
    CalleeDefinitions(h, env, e, c, Intended);
  }

  /** `((fn [x] x) 1)` as the checker types it, whatever the token of
      `x`, the parenthesis and the slots it assigned. */
  function FnLiteralCall(x: Token, lp: Token, caps: CapRef, ty: Slot): Expr
  {
    SE(FnE(false, [x], SymbolE(x, caps, ty), caps, ty, lp, None, None), [Lit(LNum(1), caps, ty)], caps, ty, lp)
  }

  /** As written, `((fn [x] x) 1)` compiles to a call of a temporary that
      nothing sets. */
  lemma FnLiteralCallReadsUnset(h: Heap, x: Token, lp: Token, caps: CapRef, ty: Slot)
    ensures var (ir, c1) := LowerExpr(h, Nest([]), FnLiteralCall(x, lp, caps, ty), 0);
      CanonExpr(ir, c1, AsWritten).Ok?
      && CalledTemp(CanonExpr(ir, c1, AsWritten).value.stmts).Some?
      && CStmtsCount(CanonExpr(ir, c1, AsWritten).value.stmts, CalledTemp(CanonExpr(ir, c1, AsWritten).value.stmts).value) == 0
  {
    var e := FnLiteralCall(x, lp, caps, ty);
    var (oi, c1) := LowerExpr(h, Nest([]), e.op, 0);
    var inFn: Chain<Bound> := Nest(Nest([]));
    assert Lookup(inFn[1..], x.lexeme) == None;
    assert LowerExpr(h, inFn, SymbolE(x, caps, ty), 1) == (ITemp(x.lexeme), 1);
    assert ParamNames([x]) == [x.lexeme];
    assert oi == FnTree(1, None, [x.lexeme], ITemp(x.lexeme), CapsAt(h, caps));
    var one := LowerLiteral(LNum(1));
    assert LowerAll(h, Nest([]), e.children, c1).0 == [one];
    assert LowerExpr(h, Nest([]), e, 0).0 == ICall(IUntag(oi), [one]);
    assert [one][1..] == [] && !ReadsLabel(one);
    assert !ReadsLabel(ITemp(x.lexeme));
    assert !ReadsLabel(IFunc(FnLabel(None, 1), [x.lexeme], ITemp(x.lexeme), CapsAt(h, caps)));
    assert !ReadsLabelAll([one]) && !ReadsLabel(oi);
    assert !ReadsLabel(ICall(IUntag(oi), [one]));
    CalleeNeverSet(h, Nest([]), e, 0);
  }
}
