/** The intermediate representation the lowering pass builds and the
    canonicaliser and the optimiser rewrite (the classes of src/ir.ts as
    src/lower.ts and src/optimize.ts construct and test them).

    Tree IR (`IExpr`, `IStmt`) nests freely. Canonical IR (`CExpr`,
    `CStmt`) is what the canonicaliser produces: the operands of a tag,
    an untag and a call are constants or temporaries (`RV`, the source's
    `IRRVal`), which the types below enforce. Temporaries and labels are
    known by their names, as in the source; the names the passes make up
    are built from a counter value by `Gen` and `TempName`, and `GenId`
    reads that value back from either. */
module IR {
  import opened Syntax
  import opened Types
  import opened Wrappers
  import opened Strings

  /** The value of an `IRConst`: the lowering stores numbers (booleans as
      1 and 0) and strings. */
  datatype Const = Num(n: int) | Str(s: string)

  /** The type an `IRTag` applies: a base type, or FUNCTION. */
  datatype TagKind = TagBase(base: BaseType) | TagFunction

  /** A constant or a temporary: `IRRVal`. */
  datatype RV = RConst(c: Const) | RTemp(name: string)

  /** An entry of a phi: the label control came from and the value. */
  datatype Pred = Pred(pre: string, source: RV)

  datatype IExpr =
    | IConst(c: Const)
    | ITemp(name: string)
    | ILabel(name: string)
    | ITag(kind: TagKind, value: IExpr)
    | IUntag(value: IExpr)
    | ICall(func: IExpr, args: seq<IExpr>)
    | IESeq(expr: IExpr, stmt: IStmt)
    | IFunc(name: string, params: seq<string>, body: IExpr, caps: seq<Token>)

  /** `onFalse` is `None` where the source leaves the false branch of a
      conditional jump undefined. */
  datatype IStmt =
    | SMove(dest: string, source: IExpr)
    | SSeq(stmts: seq<IStmt>)
    | SExp(expr: IExpr)
    | SLabel(name: string)
    | SJump(target: string)
    | SCJump(cond: IExpr, onTrue: string, onFalse: Option<string>)
    | SPhi(dest: string, preds: seq<Pred>)

  datatype CExpr =
    | CVal(v: RV)
    | CTag(kind: TagKind, value: RV)
    | CUntag(value: RV)
    | CCall(func: RV, args: seq<RV>)
    | CESeq(expr: CExpr, stmt: CStmt)
    | CFunc(name: string, params: seq<string>, body: CExpr, caps: seq<Token>)

  datatype CStmt =
    | CMove(dest: string, source: CExpr)
    | CSeq(stmts: seq<CStmt>)
    | CExp(expr: CExpr)
    | CLabel(name: string)
    | CJump(target: string)
    | CCJump(cond: CExpr, onTrue: string, onFalse: Option<string>)
    | CPhi(dest: string, preds: seq<Pred>)

  // ---- generated names ----

  /** `${prefix}_${id}`: labels, the temporaries of `if`, function labels. */
  function Gen(prefix: string, id: nat): string
  {
    prefix + "_" + NatToString(id)
  }

  /** `t${id}`: the temporaries of `let` and of the canonicaliser. */
  function TempName(id: nat): string
  {
    "t" + NatToString(id)
  }

  /** The counter value a generated name was built from: the digits it
      ends with. */
  function GenId(s: string): nat
  {
    DecimalValue(DigitTail(s))
  }

  lemma GenIdOf(prefix: string, id: nat)
    ensures GenId(Gen(prefix, id)) == id
  {
    DecimalRoundTrip(id);
    DigitTailAfter(prefix + "_", NatToString(id));
    assert Gen(prefix, id) == (prefix + "_") + NatToString(id);
  }

  lemma TempIdOf(id: nat)
    ensures GenId(TempName(id)) == id
  {
    DecimalRoundTrip(id);
    DigitTailAfter("t", NatToString(id));
  }

  /** Generated names made from different counter values differ, whatever
      their prefixes. */
  lemma GenDistinct(p: string, q: string, a: nat, b: nat)
    requires a != b
    ensures Gen(p, a) != Gen(q, b)
  {
    GenIdOf(p, a);
    GenIdOf(q, b);
  }

  // ---- the names a tree defines ----

  /** How often a tree IR expression defines the name `n`: as a label it
      places, as the destination of a move or a phi, or as the label of a
      function. */
  function Count(e: IExpr, n: string): nat
  {
    match e
    case ITag(_, v) => Count(v, n)
    case IUntag(v) => Count(v, n)
    case ICall(f, args) => Count(f, n) + CountAll(args, n)
    case IESeq(x, s) => StmtCount(s, n) + Count(x, n)
    case IFunc(l, _, b, _) => (if l == n then 1 else 0) + Count(b, n)
    case _ => 0
  }

  function CountAll(es: seq<IExpr>, n: string): nat
  {
    if es == [] then 0 else Count(es[0], n) + CountAll(es[1..], n)
  }

  function StmtCount(s: IStmt, n: string): nat
  {
    match s
    case SMove(d, src) => (if d == n then 1 else 0) + Count(src, n)
    case SSeq(ss) => StmtsCount(ss, n)
    case SExp(x) => Count(x, n)
    case SLabel(l) => if l == n then 1 else 0
    case SJump(_) => 0
    case SCJump(cond, _, _) => Count(cond, n)
    case SPhi(d, _) => if d == n then 1 else 0
  }

  function StmtsCount(ss: seq<IStmt>, n: string): nat
  {
    if ss == [] then 0 else StmtCount(ss[0], n) + StmtsCount(ss[1..], n)
  }

  lemma {:induction false} StmtsCountAppend(a: seq<IStmt>, b: seq<IStmt>, n: string)
    ensures StmtsCount(a + b, n) == StmtsCount(a, n) + StmtsCount(b, n)
    decreases |a|
  {
    if a == [] {
      assert a + b == b;
    } else {
      assert (a + b)[0] == a[0] && (a + b)[1..] == a[1..] + b;
      StmtsCountAppend(a[1..], b, n);
    }
  }

  lemma StmtsCountAt(ss: seq<IStmt>, k: nat, n: string)
    requires k < |ss|
    ensures StmtsCount(ss[k..], n) == StmtCount(ss[k], n) + StmtsCount(ss[k + 1..], n)
  {
    assert ss[k..][0] == ss[k] && ss[k..][1..] == ss[k + 1..];
  }

  lemma StmtsCountFour(ss: seq<IStmt>, k: nat, n: string)
    requires k + 4 <= |ss|
    ensures StmtsCount(ss[k..], n)
      == StmtCount(ss[k], n) + StmtCount(ss[k + 1], n) + StmtCount(ss[k + 2], n)
         + StmtCount(ss[k + 3], n) + StmtsCount(ss[k + 4..], n)
  {
    StmtsCountAt(ss, k, n);
    StmtsCountAt(ss, k + 1, n);
    StmtsCountAt(ss, k + 2, n);
    StmtsCountAt(ss, k + 3, n);
  }

  /** How often a canonical expression defines the name `n`, as `Count`
      does for tree IR. */
  function CCount(e: CExpr, n: string): nat
  {
    match e
    case CESeq(x, s) => CStmtCount(s, n) + CCount(x, n)
    case CFunc(l, _, b, _) => (if l == n then 1 else 0) + CCount(b, n)
    case _ => 0
  }

  function CStmtCount(s: CStmt, n: string): nat
  {
    match s
    case CMove(d, src) => (if d == n then 1 else 0) + CCount(src, n)
    case CSeq(ss) => CStmtsCount(ss, n)
    case CExp(x) => CCount(x, n)
    case CLabel(l) => if l == n then 1 else 0
    case CJump(_) => 0
    case CCJump(cond, _, _) => CCount(cond, n)
    case CPhi(d, _) => if d == n then 1 else 0
  }

  function CStmtsCount(ss: seq<CStmt>, n: string): nat
  {
    if ss == [] then 0 else CStmtCount(ss[0], n) + CStmtsCount(ss[1..], n)
  }

  lemma {:induction false} CStmtsCountAppend(a: seq<CStmt>, b: seq<CStmt>, n: string)
    ensures CStmtsCount(a + b, n) == CStmtsCount(a, n) + CStmtsCount(b, n)
    decreases |a|
  {
    if a == [] {
      assert a + b == b;
    } else {
      assert (a + b)[0] == a[0] && (a + b)[1..] == a[1..] + b;
      CStmtsCountAppend(a[1..], b, n);
    }
  }

  lemma CStmtsCountSnoc(a: seq<CStmt>, s: CStmt, n: string)
    ensures CStmtsCount(a + [s], n) == CStmtsCount(a, n) + CStmtCount(s, n)
  {
    CStmtsCountAppend(a, [s], n);
    assert [s][1..] == [];
  }

  lemma CStmtsCountSnoc2(a: seq<CStmt>, s1: CStmt, s2: CStmt, n: string)
    ensures CStmtsCount(a + [s1, s2], n) == CStmtsCount(a, n) + CStmtCount(s1, n) + CStmtCount(s2, n)
  {
    CStmtsCountSnoc(a, s1, n);
    CStmtsCountSnoc(a + [s1], s2, n);
    assert a + [s1, s2] == a + [s1] + [s2];
  }

  /** The tree's value is a function: an `IRFunc`, or a sequence whose
      value is one. */
  predicate ProducesFunc(e: IExpr)
  {
    e.IFunc? || (e.IESeq? && ProducesFunc(e.expr))
  }

  /** A count that is fresh in `(lo, hi]`: no name twice, and every name
      built from a counter value in that interval. */
  predicate FreshCount(k: nat, n: string, lo: nat, hi: nat)
  {
    k <= 1 && (k > 0 ==> lo < GenId(n) <= hi)
  }

  /** Every name the expression defines is defined once and was built
      from a counter value in `(lo, hi]`. */
  ghost predicate Fresh(e: IExpr, lo: nat, hi: nat)
  {
    forall n :: FreshCount(Count(e, n), n, lo, hi)
  }

  ghost predicate FreshAll(es: seq<IExpr>, lo: nat, hi: nat)
  {
    forall n :: FreshCount(CountAll(es, n), n, lo, hi)
  }

  ghost predicate FreshStmts(ss: seq<IStmt>, lo: nat, hi: nat)
  {
    forall n :: FreshCount(StmtsCount(ss, n), n, lo, hi)
  }

  /** Counts drawn from consecutive counter intervals add up to a fresh
      count. */
  lemma FreshSum(k1: nat, k2: nat, n: string, lo: nat, mid: nat, hi: nat)
    requires lo <= mid <= hi && FreshCount(k1, n, lo, mid) && FreshCount(k2, n, mid, hi)
    ensures FreshCount(k1 + k2, n, lo, hi)
  {
  }

  /** Names made from one counter value differ when their prefixes do. */
  lemma GenPrefixDistinct(p: string, q: string, id: nat)
    requires p != q
    ensures Gen(p, id) != Gen(q, id)
  {
    if |p| == |q| {
      assert Gen(p, id)[..|p|] == p && Gen(q, id)[..|q|] == q;
    } else {
      assert |Gen(p, id)| != |Gen(q, id)|;
    }
  }
}
