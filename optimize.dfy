/** Copy propagation over canonical IR (src/optimize.ts).

    One forward pass deletes every move of a temporary into a temporary
    whose name contains `t` followed by a digit, records the deleted
    destination in a `replacements` dictionary, and rewrites later reads
    of it. The dictionary is one object shared by the whole program and
    by nested function bodies; here it is threaded as a value, each
    operation taking the dictionary before it and returning the
    dictionary after it.

    Two places hand a whole expression to `replace`, which only rewrites
    something with a `name` (a temporary, or a function by its label):
    the value of an expression sequence and the condition of a
    conditional jump. The condition the lowering builds is an untag, so
    it is never rewritten and can go on reading a deleted temporary.
    `Version` selects between that reading (`AsWritten`) and the
    evidently intended one (`Intended`), which gives both places to
    `oi_expr` like every other expression. */
module Optimize {
  import opened Wrappers
  import opened Strings
  import opened IR
  import opened Types
  import opened Canon

  /** The `replacements` dictionary: a deleted temporary's name to the
      name of the temporary read in its place. */
  type Replacements = map<string, string>

  // ---- replace ----

  /** `replace` on a constant or a temporary: constants are never
      rewritten, and a temporary is rewritten exactly when it is a key. */
  function Replace(v: RV, m: Replacements): (r: RV)
    ensures v.RConst? ==> r == v
    ensures v.RTemp? && v.name !in m ==> r == v
    ensures v.RTemp? && v.name in m ==> r == RTemp(m[v.name])
  {
    if v.RTemp? && v.name in m then RTemp(m[v.name]) else v
  }

  function ReplaceAll(vs: seq<RV>, m: Replacements): (r: seq<RV>)
    ensures |r| == |vs| && forall i | 0 <= i < |vs| :: r[i] == Replace(vs[i], m)
  {
    seq(|vs|, i requires 0 <= i < |vs| => Replace(vs[i], m))
  }

  /** The phi case: a predecessor's label is kept and its source
      replaced. */
  function ReplacePreds(ps: seq<Pred>, m: Replacements): (r: seq<Pred>)
    ensures |r| == |ps| && forall i | 0 <= i < |ps| :: r[i] == Pred(ps[i].pre, Replace(ps[i].source, m))
  {
    seq(|ps|, i requires 0 <= i < |ps| => Pred(ps[i].pre, Replace(ps[i].source, m)))
  }

  /** `replace` handed a whole expression: a constant comes back as it
      is, and otherwise the expression's `name` is looked up. Only a
      temporary and a function have one; every other expression comes
      back unchanged, operands included. */
  function ReplaceWhole(e: CExpr, m: Replacements): (r: CExpr)
    ensures Simple(e) ==> Simple(r)
  {
    match e
    case CVal(v) => CVal(Replace(v, m))
    case CFunc(l, _, _, _) => if l in m then CVal(RTemp(m[l])) else e
    case _ => e
  }

  /** No key's replacement is itself a key. */
  predicate Closed(m: Replacements)
  {
    forall k | k in m :: m[k] !in m
  }

  /** Under a closed dictionary a replaced read is final: replacing it
      again changes nothing, and it reads no key. */
  lemma ReplaceSettles(v: RV, m: Replacements)
    requires Closed(m)
    ensures Replace(Replace(v, m), m) == Replace(v, m)
    ensures Replace(v, m).RTemp? ==> Replace(v, m).name !in m
  {
  }

  // ---- which moves are deleted ----

  /** `name.match(/t\d+/)`: the pattern is not anchored, so it holds
      when `t` followed by a digit appears anywhere in the name. */
  predicate MatchesTemp(name: string)
  {
    exists i | 0 <= i < |name| - 1 :: name[i] == 't' && IsDigit(name[i + 1])
  }

  /** A move of a temporary into a temporary whose name matches. */
  predicate Deletable(s: CStmt)
  {
    s.CMove? && s.source.CVal? && s.source.v.RTemp? && MatchesTemp(s.dest)
  }

  /** A generated name whose prefix never has `t` before a digit does
      not match: the prefix is followed by `_`, and the digits hold no
      `t`. */
  lemma GenNoMatch(p: string, id: nat)
    requires forall i | 0 <= i < |p| - 1 :: !(p[i] == 't' && IsDigit(p[i + 1]))
    ensures !MatchesTemp(Gen(p, id))
  {
    var s := Gen(p, id);
    var d := NatToString(id);
    NatToStringDigits(id);
    assert s == p + "_" + d;
    forall i | 0 <= i < |s| - 1
      ensures !(s[i] == 't' && IsDigit(s[i + 1]))
    {
      if i < |p| - 1 {
        assert s[i] == p[i] && s[i + 1] == p[i + 1];
      } else if i == |p| - 1 {
        assert s[i + 1] == '_';
      } else if i == |p| {
        assert s[i] == '_';
      } else {
        assert s[i] == d[i - |p| - 1];
      }
    }
  }

  /** Only the counter's own temporaries are deleted: `t<id>` (the
      temporaries of `let` and of the canonicaliser) always matches,
      while the result temporaries of `if` never do, so a move into one
      of those is kept whatever its source. */
  lemma DeletedNames(id: nat)
    ensures MatchesTemp(TempName(id))
    ensures !MatchesTemp(Gen("true_result", id))
    ensures !MatchesTemp(Gen("false_result", id))
    ensures !MatchesTemp(Gen("if_result", id))
  {
    NatToStringDigits(id);
    assert TempName(id)[0] == 't' && TempName(id)[1] == NatToString(id)[0];
    GenNoMatch("true_result", id);
    GenNoMatch("false_result", id);
    GenNoMatch("if_result", id);
  }

  // ---- what the pass keeps ----

  /** `b` is `a` with at most its reads rewritten: the same kind of
      expression, and the same label, parameters and captures for a
      function. A constant stays as it is. */
  predicate SameExprSkeleton(a: CExpr, b: CExpr)
  {
    match a
    case CVal(v) => b.CVal? && (v.RConst? ==> b == a)
    case CTag(k, _) => b.CTag? && b.kind == k
    case CUntag(_) => b.CUntag?
    case CCall(_, args) => b.CCall? && |b.args| == |args|
    case CESeq(_, _) => true
    case CFunc(l, ps, _, caps) => b.CFunc? && b.name == l && b.params == ps && b.caps == caps
  }

  /** `b` is `a` with at most its reads rewritten: the same kind of
      statement, the same destination, the same labels and targets. */
  predicate SameSkeleton(a: CStmt, b: CStmt)
  {
    match a
    case CMove(d, _) => b.CMove? && b.dest == d
    case CSeq(_) => b.CSeq?
    case CExp(_) => b.CExp?
    case CLabel(_) => b == a
    case CJump(_) => b == a
    case CCJump(_, t, f) => b.CCJump? && b.onTrue == t && b.onFalse == f
    case CPhi(d, ps) =>
      b.CPhi? && b.dest == d && |b.preds| == |ps| && forall i | 0 <= i < |ps| :: b.preds[i].pre == ps[i].pre
  }

  /** A top-level form as `lower` packs it: a canonical value after a flat
      statement list. */
  predicate CanonicalPiece(e: CExpr)
  {
    e.CESeq? && Simple(e.expr) && e.stmt.CSeq? && Flat(e.stmt.stmts)
  }

  /** The statements of a sequence that are not deleted, in order. */
  function Kept(ss: seq<CStmt>): seq<CStmt>
    decreases ss
  {
    if ss == [] then [] else (if Deletable(ss[0]) then [] else [ss[0]]) + Kept(ss[1..])
  }

  // ---- the pass ----

  /** `oi_expr` with the dictionary `m`: the rewritten expression and the
      dictionary after it. */
  function OiExpr(e: CExpr, m: Replacements, ver: Version): (r: (CExpr, Replacements))
    ensures m.Keys <= r.1.Keys
    ensures forall k | k in r.1 && k !in m :: MatchesTemp(k)
    ensures SameExprSkeleton(e, r.0)
    ensures Simple(e) ==> Simple(r.0)
    ensures CanonicalPiece(e) ==> CanonicalPiece(r.0)
    decreases e
  {
    match e
    case CVal(v) => (CVal(Replace(v, m)), m)
    case CCall(f, args) => (CCall(Replace(f, m), ReplaceAll(args, m)), m)
    case CTag(k, v) => (CTag(k, Replace(v, m)), m)
    case CUntag(v) => (CUntag(Replace(v, m)), m)
    case CESeq(x, s) =>
      var (s', m1) := OiStmt(s, m, ver);
      var (x', m2) := if ver.AsWritten? then (ReplaceWhole(x, m1), m1) else OiExpr(x, m1, ver);
      (if s'.None? then x' else CESeq(x', s'.value), m2)
    case CFunc(l, ps, b, caps) =>
      var (b', m1) := OiExpr(b, m, ver);
      (CFunc(l, ps, b', caps), m1)
  }

  /** `oi_stmt`: `None` where the source returns `undefined`, for a
      deleted move. */
  function OiStmt(s: CStmt, m: Replacements, ver: Version): (r: (Option<CStmt>, Replacements))
    ensures m.Keys <= r.1.Keys
    ensures forall k | k in r.1 && k !in m :: MatchesTemp(k)
    ensures r.0.None? <==> Deletable(s)
    ensures Deletable(s) ==> r.1 == m[s.dest := Replace(s.source.v, m).name]
    ensures r.0.Some? ==> SameSkeleton(s, r.0.value)
    ensures FlatStmt(s) && r.0.Some? ==> FlatStmt(r.0.value)
    decreases s
  {
    match s
    case CMove(d, src) =>
      if Deletable(s) then (None, m[d := Replace(src.v, m).name])
      else
        var (src', m1) := OiExpr(src, m, ver);
        (Some(CMove(d, src')), m1)
    case CSeq(ss) =>
      var (ss', m1) := OiStmts(ss, m, ver);
      (Some(CSeq(ss')), m1)
    case CLabel(_) => (Some(s), m)
    case CJump(_) => (Some(s), m)
    case CPhi(d, ps) => (Some(CPhi(d, ReplacePreds(ps, m))), m)
    case CExp(x) =>
      var (x', m1) := OiExpr(x, m, ver);
      (Some(CExp(x')), m1)
    case CCJump(c, onTrue, onFalse) =>
      if ver.AsWritten? then (Some(CCJump(ReplaceWhole(c, m), onTrue, onFalse)), m)
      else
        var (c', m1) := OiExpr(c, m, ver);
        (Some(CCJump(c', onTrue, onFalse)), m1)
  }

  /** The sequence case: every statement in order with the dictionary
      the previous ones left, then the deleted ones filtered out. */
  function OiStmts(ss: seq<CStmt>, m: Replacements, ver: Version): (r: (seq<CStmt>, Replacements))
    ensures m.Keys <= r.1.Keys
    ensures forall k | k in r.1 && k !in m :: MatchesTemp(k)
    ensures Flat(ss) ==> Flat(r.0)
    decreases ss
  {
    if ss == [] then ([], m)
    else
      var (o, m1) := OiStmt(ss[0], m, ver);
      var (rest, m2) := OiStmts(ss[1..], m1, ver);
      ((if o.Some? then [o.value] else []) + rest, m2)
  }

  /** The map of `optimize_intermediates` over the top-level forms, with
      the one dictionary running on from form to form. */
  function OptimizeProgram(prog: seq<CExpr>, m: Replacements, ver: Version): (r: (seq<CExpr>, Replacements))
    ensures |r.0| == |prog|
    ensures m.Keys <= r.1.Keys
    ensures forall k | k in r.1 && k !in m :: MatchesTemp(k)
    decreases prog
  {
    if prog == [] then ([], m)
    else
      var (first, m1) := OiExpr(prog[0], m, ver);
      var (rest, m2) := OptimizeProgram(prog[1..], m1, ver);
      ([first] + rest, m2)
  }

  /** `optimize_intermediates`: the pass from an empty dictionary. */
  function OptimizeIntermediates(prog: seq<CExpr>, ver: Version): (r: seq<CExpr>)
    ensures |r| == |prog|
  {
    OptimizeProgram(prog, map[], ver).0
  }

  // ---- order and skeleton ----

  /** A sequence keeps exactly its statements that are not deleted, in
      their order, each with its skeleton. */
  lemma ConsAt<T>(x: T, r: seq<T>, i: nat)
    requires 1 <= i <= |r|
    ensures ([x] + r)[i] == r[i - 1]
  {
  }

  lemma {:induction false} SequenceSkeleton(ss: seq<CStmt>, m: Replacements, ver: Version)
    ensures |OiStmts(ss, m, ver).0| == |Kept(ss)|
    ensures forall i | 0 <= i < |Kept(ss)| :: SameSkeleton(Kept(ss)[i], OiStmts(ss, m, ver).0[i])
    decreases ss
  {
    if ss != [] {
      var (o, m1) := OiStmt(ss[0], m, ver);
      var rest := OiStmts(ss[1..], m1, ver).0;
      var kr := Kept(ss[1..]);
      SequenceSkeleton(ss[1..], m1, ver);
      if Deletable(ss[0]) {
        assert OiStmts(ss, m, ver).0 == rest;
        assert Kept(ss) == kr;
      } else {
        var out := [o.value] + rest;
        assert OiStmts(ss, m, ver).0 == out;
        assert Kept(ss) == [ss[0]] + kr;
        forall i | 1 <= i < |Kept(ss)|
          ensures SameSkeleton(Kept(ss)[i], out[i])
        {
          ConsAt(ss[0], kr, i);
          ConsAt(o.value, rest, i);
        }
      }
    }
  }

  // ---- running the pass twice ----

  /** No move the pass would delete is left where the pass looks. */
  predicate SettledExpr(e: CExpr, ver: Version)
    decreases e
  {
    match e
    case CESeq(x, s) => SettledStmt(s, ver) && (ver.Intended? ==> SettledExpr(x, ver))
    case CFunc(_, _, b, _) => SettledExpr(b, ver)
    case _ => true
  }

  predicate SettledStmt(s: CStmt, ver: Version)
    decreases s
  {
    match s
    case CMove(_, src) => !Deletable(s) && SettledExpr(src, ver)
    case CSeq(ss) => forall i | 0 <= i < |ss| :: SettledStmt(ss[i], ver)
    case CExp(x) => SettledExpr(x, ver)
    case CCJump(c, _, _) => ver.Intended? ==> SettledExpr(c, ver)
    case _ => true
  }

  /** With an empty dictionary a settled expression comes back as it is,
      and the dictionary stays empty. */
  lemma {:induction false} SettledExprIdentity(e: CExpr, ver: Version)
    requires SettledExpr(e, ver)
    ensures OiExpr(e, map[], ver) == (e, map[])
    decreases e, 1
  {
    match e
    case CVal(_) =>
    case CTag(_, _) =>
    case CUntag(_) =>
    case CCall(f, args) =>
      assert ReplaceAll(args, map[]) == args;
    case CESeq(x, s) =>
      SettledStmtIdentity(s, ver);
      if ver.Intended? {
        SettledExprIdentity(x, ver);
      } else {
        assert ReplaceWhole(x, map[]) == x;
      }
    case CFunc(_, _, b, _) =>
      SettledExprIdentity(b, ver);
  }

  lemma {:induction false} SettledStmtIdentity(s: CStmt, ver: Version)
    requires SettledStmt(s, ver)
    ensures OiStmt(s, map[], ver) == (Some(s), map[])
    decreases s, 1
  {
    match s
    case CMove(_, src) =>
      SettledExprIdentity(src, ver);
    case CSeq(ss) =>
      SettledStmtsIdentity(ss, ver);
    case CExp(x) =>
      SettledExprIdentity(x, ver);
    case CCJump(c, _, _) =>
      if ver.Intended? {
        SettledExprIdentity(c, ver);
      } else {
        assert ReplaceWhole(c, map[]) == c;
      }
    case CPhi(_, ps) =>
      assert ReplacePreds(ps, map[]) == ps;
    case CLabel(_) =>
    case CJump(_) =>
  }

  lemma {:induction false} SettledStmtsIdentity(ss: seq<CStmt>, ver: Version)
    requires forall i | 0 <= i < |ss| :: SettledStmt(ss[i], ver)
    ensures OiStmts(ss, map[], ver) == (ss, map[])
    decreases ss, 1
  {
    if ss != [] {
      SettledStmtIdentity(ss[0], ver);
      SettledStmtsIdentity(ss[1..], ver);
      assert [ss[0]] + ss[1..] == ss;
    }
  }

  /** On canonical input the pass leaves nothing to delete: a kept move
      of a temporary has a destination that does not match, and every
      other kept move's source keeps its kind. */
  lemma {:induction false} OutputSettledExpr(e: CExpr, m: Replacements, ver: Version)
    requires Simple(e) || CanonicalPiece(e)
    ensures SettledExpr(OiExpr(e, m, ver).0, ver)
    decreases e, 1
  {
    match e
    case CESeq(x, s) =>
      var (s', m1) := OiStmt(s, m, ver);
      OutputSettledStmts(s.stmts, m, ver);
      assert s'.value == CSeq(OiStmts(s.stmts, m, ver).0);
      if ver.Intended? {
        OutputSettledExpr(x, m1, ver);
      }
    case CFunc(_, _, b, _) =>
      OutputSettledExpr(b, m, ver);
    case _ =>
  }

  lemma {:induction false} OutputSettledStmt(s: CStmt, m: Replacements, ver: Version)
    requires FlatStmt(s) && OiStmt(s, m, ver).0.Some?
    ensures SettledStmt(OiStmt(s, m, ver).0.value, ver)
    decreases s, 1
  {
    match s
    case CMove(d, src) =>
      OutputSettledExpr(src, m, ver);
    case CCJump(c, _, _) =>
      if ver.Intended? {
        OutputSettledExpr(c, m, ver);
      }
    case _ =>
  }

  lemma {:induction false} OutputSettledStmts(ss: seq<CStmt>, m: Replacements, ver: Version)
    requires Flat(ss)
    ensures forall i | 0 <= i < |OiStmts(ss, m, ver).0| :: SettledStmt(OiStmts(ss, m, ver).0[i], ver)
    decreases ss, 1
  {
    if ss != [] {
      var (o, m1) := OiStmt(ss[0], m, ver);
      var rest := OiStmts(ss[1..], m1, ver).0;
      OutputSettledStmts(ss[1..], m1, ver);
      if o.Some? {
        OutputSettledStmt(ss[0], m, ver);
        forall i | 1 <= i < |rest| + 1
          ensures SettledStmt(([o.value] + rest)[i], ver)
        {
          ConsAt(o.value, rest, i);
        }
      }
    }
  }

  /** The forms of a whole program after the pass, each settled. */
  lemma {:induction false} ProgramSettled(prog: seq<CExpr>, m: Replacements, ver: Version)
    requires forall i | 0 <= i < |prog| :: CanonicalPiece(prog[i])
    ensures forall i | 0 <= i < |prog| :: SettledExpr(OptimizeProgram(prog, m, ver).0[i], ver)
    decreases prog
  {
    if prog != [] {
      var (first, m1) := OiExpr(prog[0], m, ver);
      var rest := OptimizeProgram(prog[1..], m1, ver).0;
      OutputSettledExpr(prog[0], m, ver);
      ProgramSettled(prog[1..], m1, ver);
      forall i | 1 <= i < |prog|
        ensures SettledExpr(([first] + rest)[i], ver)
      {
        ConsAt(first, rest, i);
      }
    }
  }

  /** Settled forms pass through an empty dictionary unchanged. */
  lemma {:induction false} ProgramIdentity(prog: seq<CExpr>, ver: Version)
    requires forall i | 0 <= i < |prog| :: SettledExpr(prog[i], ver)
    ensures OptimizeProgram(prog, map[], ver) == (prog, map[])
    decreases prog
  {
    if prog != [] {
      SettledExprIdentity(prog[0], ver);
      ProgramIdentity(prog[1..], ver);
      assert [prog[0]] + prog[1..] == prog;
    }
  }

  /** On the canonical forms the lowering produces, running the pass a
      second time changes nothing. */
  lemma OptimizeIdempotent(prog: seq<CExpr>, ver: Version)
    requires forall i | 0 <= i < |prog| :: CanonicalPiece(prog[i])
    ensures OptimizeIntermediates(OptimizeIntermediates(prog, ver), ver) == OptimizeIntermediates(prog, ver)
  {
    ProgramSettled(prog, map[], ver);
    ProgramIdentity(OptimizeIntermediates(prog, ver), ver);
  }

  /** The whole back half of the pipeline: the forms `lower` returns
      stay canonical through the pass, and the pass is idempotent on
      them. */
  lemma LoweredProgramOptimizes(h: Heap, prog: seq<Expr>, c: nat, ver: Version)
    requires LowerProgram(h, prog, c, ver).Ok?
    ensures var out := OptimizeIntermediates(LowerProgram(h, prog, c, ver).value.0, ver);
      && |out| == |prog|
      && (forall i | 0 <= i < |out| :: CanonicalPiece(out[i]))
      && OptimizeIntermediates(out, ver) == out
  {
    var lowered := LowerProgram(h, prog, c, ver).value.0;
    assert forall i | 0 <= i < |lowered| :: CanonicalPiece(lowered[i]);
    OptimizeIdempotent(lowered, ver);
    ProgramCanonical(lowered, map[], ver);
  }

  lemma {:induction false} ProgramCanonical(prog: seq<CExpr>, m: Replacements, ver: Version)
    requires forall i | 0 <= i < |prog| :: CanonicalPiece(prog[i])
    ensures forall i | 0 <= i < |prog| :: CanonicalPiece(OptimizeProgram(prog, m, ver).0[i])
    decreases prog
  {
    if prog != [] {
      var (first, m1) := OiExpr(prog[0], m, ver);
      var rest := OptimizeProgram(prog[1..], m1, ver).0;
      ProgramCanonical(prog[1..], m1, ver);
      forall i | 1 <= i < |prog|
        ensures CanonicalPiece(([first] + rest)[i])
      {
        ConsAt(first, rest, i);
      }
    }
  }

  // ---- reads of deleted temporaries ----

  /** The operands an expression reads itself, leaving out those of a
      statement sequence or a function body inside it. */
  function Reads(e: CExpr): seq<RV>
  {
    match e
    case CVal(v) => [v]
    case CTag(_, v) => [v]
    case CUntag(v) => [v]
    case CCall(f, args) => [f] + args
    case _ => []
  }

  function StmtReads(s: CStmt): seq<RV>
  {
    match s
    case CMove(_, src) => Reads(src)
    case CExp(x) => Reads(x)
    case CCJump(c, _, _) => Reads(c)
    case CPhi(_, ps) => seq(|ps|, i requires 0 <= i < |ps| => ps[i].source)
    case _ => []
  }

  /** The statement reads no temporary the dictionary has replaced. */
  predicate ReadsNoKey(s: CStmt, m: Replacements)
  {
    forall i | 0 <= i < |StmtReads(s)| :: !(StmtReads(s)[i].RTemp? && StmtReads(s)[i].name in m)
  }

  /** The intended pass: under a closed dictionary, a canonical statement
      that survives reads no deleted temporary. */
  lemma IntendedReadsFinal(s: CStmt, m: Replacements)
    requires Closed(m) && FlatStmt(s) && OiStmt(s, m, Intended).0.Some?
    ensures ReadsNoKey(OiStmt(s, m, Intended).0.value, m)
  {
    var out := OiStmt(s, m, Intended).0.value;
    match s
    case CMove(d, src) =>
      SimpleReadsFinal(src, m);
    case CCJump(c, _, _) =>
      SimpleReadsFinal(c, m);
    case CPhi(_, ps) =>
      forall i | 0 <= i < |ps|
        ensures !(StmtReads(out)[i].RTemp? && StmtReads(out)[i].name in m)
      {
        ReplaceSettles(ps[i].source, m);
      }
    case _ =>
  }

  lemma SimpleReadsFinal(e: CExpr, m: Replacements)
    requires Closed(m) && Simple(e)
    ensures forall i | 0 <= i < |Reads(OiExpr(e, m, Intended).0)| ::
      !(Reads(OiExpr(e, m, Intended).0)[i].RTemp? && Reads(OiExpr(e, m, Intended).0)[i].name in m)
  {
    match e
    case CVal(v) => ReplaceSettles(v, m);
    case CTag(_, v) => ReplaceSettles(v, m);
    case CUntag(v) => ReplaceSettles(v, m);
    case CCall(f, args) =>
      ReplaceSettles(f, m);
      forall i | 0 <= i < |args| ensures Replace(args[i], m).RTemp? ==> Replace(args[i], m).name !in m {
        ReplaceSettles(args[i], m);
      }
    case CFunc(_, _, _, _) =>
  }

  /** `(let [x true] (if x 1 2))` with the counter at 0: the binding is
      `t2`, and its value, a tagged constant, is staged through `t4`
      when the move is canonicalised with the counter at 3. */
  lemma BindingCanon(ver: Version)
    ensures CanonStmt(SMove(TempName(2), ITag(TagBase(TBoolean), IConst(Num(1)))), 3, ver)
      == Ok(Flattened([CMove(TempName(4), CTag(TagBase(TBoolean), RConst(Num(1)))),
                       CMove(TempName(2), CVal(RTemp(TempName(4))))], 4))
  {
    var k := TagBase(TBoolean);
    assert CanonExpr(ITag(k, IConst(Num(1))), 3, ver) == Ok(Canonical([], CTag(k, RConst(Num(1))), 3));
    assert [] + [CMove(TempName(4), CTag(k, RConst(Num(1)))), CMove(TempName(2), CVal(RTemp(TempName(4))))]
      == [CMove(TempName(4), CTag(k, RConst(Num(1)))), CMove(TempName(2), CVal(RTemp(TempName(4))))];
  }

  /** The conditional jump of the same `if` (counter value 3) reads `x`
      through an untag of `t2`. */
  lemma JumpCanon(c: nat, ver: Version)
    ensures CanonStmt(SCJump(IUntag(ITemp(TempName(2))), Gen("true", 3), None), c, ver)
      == Ok(Flattened([CCJump(CUntag(RTemp(TempName(2))), Gen("true", 3), None)], c))
  {
    var j := CCJump(CUntag(RTemp(TempName(2))), Gen("true", 3), None);
    assert CanonExpr(IUntag(ITemp(TempName(2))), c, ver) == Ok(Canonical([], CUntag(RTemp(TempName(2))), c));
    assert [] + [j] == [j];
  }

  /** The binding's moves and the jump, as canonicalisation leaves
      them. */
  function LetIfStmts(): seq<CStmt>
  {
    [CMove(TempName(4), CTag(TagBase(TBoolean), RConst(Num(1)))),
     CMove(TempName(2), CVal(RTemp(TempName(4)))),
     CCJump(CUntag(RTemp(TempName(2))), Gen("true", 3), None)]
  }

  /** The first two statements of `LetIfStmts` under either version:
      the constant's move is kept and the move into `t2` is deleted with
      `t4` recorded in its place. */
  lemma LetIfMoves(ver: Version)
    ensures var ss := LetIfStmts();
      && OiStmt(ss[0], map[], ver) == (Some(ss[0]), map[])
      && OiStmt(ss[1], map[], ver) == (None, map[TempName(2) := TempName(4)])
  {
    DeletedNames(2);
    DeletedNames(4);
    var ss := LetIfStmts();
    assert !Deletable(ss[0]) && Deletable(ss[1]);
  }

  /** One step of the sequence case. */
  lemma OiStmtsCons(s: CStmt, rest: seq<CStmt>, m: Replacements, ver: Version)
    ensures var (o, m1) := OiStmt(s, m, ver);
      OiStmts([s] + rest, m, ver)
      == ((if o.Some? then [o.value] else []) + OiStmts(rest, m1, ver).0, OiStmts(rest, m1, ver).1)
  {
    assert ([s] + rest)[0] == s && ([s] + rest)[1..] == rest;
  }

  /** The jump of `LetIfStmts` after the pass under each version. */
  function LetIfJump(ver: Version): CStmt
  {
    CCJump(CUntag(RTemp(TempName(if ver.AsWritten? then 2 else 4))), Gen("true", 3), None)
  }

  /** The move into `t2` and the jump: the move is deleted, and the jump
      is what `LetIfJump` says. */
  lemma LetIfTail(ver: Version)
    ensures OiStmts(LetIfStmts()[1..], map[], ver) == ([LetIfJump(ver)], map[TempName(2) := TempName(4)])
  {
    var ss := LetIfStmts();
    var m := map[TempName(2) := TempName(4)];
    LetIfMoves(ver);
    assert ss[1..] == [ss[1]] + [ss[2]];
    if ver.Intended? {
      assert OiExpr(CUntag(RTemp(TempName(2))), m, ver) == (CUntag(RTemp(TempName(4))), m);
    }
    assert OiStmt(ss[2], m, ver) == (Some(LetIfJump(ver)), m);
    OiStmtsCons(ss[2], [], m, ver);
    assert [ss[2]] + [] == [ss[2]] && [LetIfJump(ver)] + [] == [LetIfJump(ver)];
    OiStmtsCons(ss[1], [ss[2]], map[], ver);
    assert [] + [LetIfJump(ver)] == [LetIfJump(ver)];
  }

  /** The whole of `LetIfStmts`: the constant's move, then the jump. */
  lemma LetIfPass(ver: Version)
    ensures OiStmts(LetIfStmts(), map[], ver)
      == ([LetIfStmts()[0], LetIfJump(ver)], map[TempName(2) := TempName(4)])
  {
    var ss := LetIfStmts();
    LetIfMoves(ver);
    LetIfTail(ver);
    OiStmtsCons(ss[0], ss[1..], map[], ver);
    assert [ss[0]] + ss[1..] == ss;
    assert [ss[0]] + [LetIfJump(ver)] == [ss[0], LetIfJump(ver)];
  }

  /** As written, the pass deletes the move into `t2` but leaves the
      jump reading `t2`, which nothing sets any more. */
  lemma CondReadsDeletedTemp()
    ensures OiStmts(LetIfStmts(), map[], AsWritten)
      == ([LetIfStmts()[0], LetIfStmts()[2]], map[TempName(2) := TempName(4)])
    ensures !ReadsNoKey(LetIfStmts()[2], map[TempName(2) := TempName(4)])
  {
    LetIfPass(AsWritten);
    var j := LetIfStmts()[2];
    assert j == LetIfJump(AsWritten);
    assert StmtReads(j) == [RTemp(TempName(2))];
    assert StmtReads(j)[0].RTemp? && StmtReads(j)[0].name in map[TempName(2) := TempName(4)];
  }

  lemma JumpReadsReplacement()
    ensures ReadsNoKey(CCJump(CUntag(RTemp(TempName(4))), Gen("true", 3), None), map[TempName(2) := TempName(4)])
  {
    assert NatToString(4) == "4" && NatToString(2) == "2";
    assert TempName(4) == "t4" && TempName(2) == "t2";
  }

  /** The intended pass rewrites the jump to read `t4`, and the result
      reads no deleted temporary. */
  lemma CondReadsReplacement()
    ensures OiStmts(LetIfStmts(), map[], Intended)
      == ([LetIfStmts()[0], CCJump(CUntag(RTemp(TempName(4))), Gen("true", 3), None)], map[TempName(2) := TempName(4)])
    ensures ReadsNoKey(OiStmts(LetIfStmts(), map[], Intended).0[1], map[TempName(2) := TempName(4)])
  {
    LetIfPass(Intended);
    JumpReadsReplacement();
  }
}
