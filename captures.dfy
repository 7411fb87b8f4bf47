/** Capture sets (src/checker.ts).

    A node's `captured_symbols` is an array of symbol tokens that the
    checker keeps free of repeated lexemes: `if` and `do` push a child's
    symbol only when no symbol of that lexeme is there yet, a call
    concatenates each argument's symbols whose lexemes are new, `let`
    filters out the names it binds, and `fn` splices out the first symbol
    of each parameter's lexeme. Below are those operations on sequences,
    what each does to the set of lexemes, and the loops of the source
    proved equal to them. */
module Captures {
  import opened Syntax
  import opened Wrappers

  function LexemesOf(s: seq<Token>): set<string>
  {
    set t | t in s :: t.lexeme
  }

  /** No two symbols share a lexeme. */
  predicate Distinct(s: seq<Token>)
  {
    forall i, j :: 0 <= i < j < |s| ==> s[i].lexeme != s[j].lexeme
  }

  lemma LexemesAppend(a: seq<Token>, b: seq<Token>)
    ensures LexemesOf(a + b) == LexemesOf(a) + LexemesOf(b)
  {
    forall x | x in LexemesOf(a + b) ensures x in LexemesOf(a) + LexemesOf(b) {
      var t :| t in a + b && t.lexeme == x;
    }
    forall x | x in LexemesOf(a) + LexemesOf(b) ensures x in LexemesOf(a + b) {
      if x in LexemesOf(a) {
        var t :| t in a && t.lexeme == x;
        assert t in a + b;
      } else {
        var t :| t in b && t.lexeme == x;
        assert t in a + b;
      }
    }
  }

  lemma LexemesSplit(s: seq<Token>)
    requires s != []
    ensures LexemesOf(s) == {s[0].lexeme} + LexemesOf(s[1..])
  {
    assert s == [s[0]] + s[1..];
    LexemesAppend([s[0]], s[1..]);
    assert LexemesOf([s[0]]) == {s[0].lexeme};
  }

  // ---- if and do: push when the lexeme is new ----

  /** `for (sym of more) if (!acc.some(same lexeme)) acc.push(sym)`. */
  function AddNew(acc: seq<Token>, more: seq<Token>): seq<Token>
    decreases |more|
  {
    if more == [] then acc
    else AddNew(if more[0].lexeme in LexemesOf(acc) then acc else acc + [more[0]], more[1..])
  }

  /** The result holds the lexemes of both. */
  lemma {:induction false} AddNewLexemes(acc: seq<Token>, more: seq<Token>)
    ensures LexemesOf(AddNew(acc, more)) == LexemesOf(acc) + LexemesOf(more)
    decreases |more|
  {
    if more != [] {
      var m := more[0];
      var acc' := if m.lexeme in LexemesOf(acc) then acc else acc + [m];
      AddNewLexemes(acc', more[1..]);
      LexemesSplit(more);
      if m.lexeme !in LexemesOf(acc) {
        LexemesAppend(acc, [m]);
        assert LexemesOf([m]) == {m.lexeme};
      }
    }
  }

  /** The result starts with `acc`, and adds only symbols of `more` whose
      lexeme `acc` lacked. */
  lemma {:induction false} AddNewShape(acc: seq<Token>, more: seq<Token>)
    ensures |acc| <= |AddNew(acc, more)| && AddNew(acc, more)[..|acc|] == acc
    ensures forall i :: |acc| <= i < |AddNew(acc, more)| ==>
      AddNew(acc, more)[i] in more && AddNew(acc, more)[i].lexeme !in LexemesOf(acc)
    decreases |more|
  {
    if more != [] {
      var m := more[0];
      var acc' := if m.lexeme in LexemesOf(acc) then acc else acc + [m];
      AddNewShape(acc', more[1..]);
      var r := AddNew(acc', more[1..]);
      assert r == AddNew(acc, more);
      if m.lexeme !in LexemesOf(acc) {
        LexemesAppend(acc, [m]);
        assert acc'[..|acc|] == acc;
        assert r[..|acc|] == r[..|acc'|][..|acc|];
        forall i | |acc| <= i < |r| ensures r[i] in more && r[i].lexeme !in LexemesOf(acc) {
          if i == |acc| {
            assert r[i] == r[..|acc'|][i] == acc'[i] == m;
          } else {
            assert r[i] in more[1..] && r[i].lexeme !in LexemesOf(acc');
          }
        }
      }
    }
  }

  /** Each lexeme is added at most once. */
  lemma {:induction false} AddNewDistinct(acc: seq<Token>, more: seq<Token>)
    requires Distinct(acc)
    ensures Distinct(AddNew(acc, more))
    decreases |more|
  {
    if more != [] {
      var m := more[0];
      if m.lexeme in LexemesOf(acc) {
        AddNewDistinct(acc, more[1..]);
      } else {
        DistinctAppend(acc, [m]);
        LexemesAppend(acc, [m]);
        AddNewDistinct(acc + [m], more[1..]);
      }
    }
  }

  /** The result holds the lexemes of both, each once if `acc` had no
      repeats; it starts with `acc`, and adds only symbols of `more` whose
      lexeme `acc` lacked. */
  lemma AddNewSpec(acc: seq<Token>, more: seq<Token>)
    ensures LexemesOf(AddNew(acc, more)) == LexemesOf(acc) + LexemesOf(more)
    ensures Distinct(acc) ==> Distinct(AddNew(acc, more))
    ensures |acc| <= |AddNew(acc, more)| && AddNew(acc, more)[..|acc|] == acc
    ensures forall i :: |acc| <= i < |AddNew(acc, more)| ==>
      AddNew(acc, more)[i] in more && AddNew(acc, more)[i].lexeme !in LexemesOf(acc)
  {
    AddNewLexemes(acc, more);
    AddNewShape(acc, more);
    if Distinct(acc) {
      AddNewDistinct(acc, more);
    }
  }

  /** The loop of src/checker.ts:65-68 and 200-203. */
  method AddNewLoop(acc: seq<Token>, more: seq<Token>) returns (r: seq<Token>)
    ensures r == AddNew(acc, more)
  {
    r := acc;
    var i := 0;
    while i < |more|
      invariant 0 <= i <= |more|
      invariant AddNew(acc, more) == AddNew(r, more[i..])
    {
      assert more[i..][0] == more[i] && more[i..][1..] == more[i + 1..];
      if more[i].lexeme !in LexemesOf(r) {
        r := r + [more[i]];
      }
      i := i + 1;
    }
  }

  // ---- let and calls: keep the symbols whose lexeme is not taken ----

  /** `c.filter(s => !taken.has(s.lexeme))`. */
  function Fresh(c: seq<Token>, taken: set<string>): (r: seq<Token>)
    ensures forall t :: t in r ==> t in c && t.lexeme !in taken
  {
    if c == [] then [] else (if c[0].lexeme in taken then [] else [c[0]]) + Fresh(c[1..], taken)
  }

  lemma {:induction false} FreshLexemes(c: seq<Token>, taken: set<string>)
    ensures LexemesOf(Fresh(c, taken)) == LexemesOf(c) - taken
  {
    if c != [] {
      FreshLexemes(c[1..], taken);
      LexemesSplit(c);
      if c[0].lexeme !in taken {
        assert Fresh(c, taken) == [c[0]] + Fresh(c[1..], taken);
        LexemesAppend([c[0]], Fresh(c[1..], taken));
        assert LexemesOf([c[0]]) == {c[0].lexeme};
      } else {
        assert Fresh(c, taken) == Fresh(c[1..], taken);
      }
    }
  }

  lemma {:induction false} FreshSpec(c: seq<Token>, taken: set<string>)
    ensures LexemesOf(Fresh(c, taken)) == LexemesOf(c) - taken
    ensures Distinct(c) ==> Distinct(Fresh(c, taken))
  {
    FreshLexemes(c, taken);
    if c != [] && Distinct(c) {
      DistinctParts([], c[0], c[1..]);
      assert [] + [c[0]] + c[1..] == c;
      FreshSpec(c[1..], taken);
      if c[0].lexeme !in taken {
        DistinctCons(c[0], Fresh(c[1..], taken));
      }
    }
  }

  lemma InLexemes(s: seq<Token>, i: int)
    requires 0 <= i < |s|
    ensures s[i].lexeme in LexemesOf(s)
  {
    assert s[i] in s;
  }

  lemma NotInLexemes(s: seq<Token>, l: string)
    requires forall i :: 0 <= i < |s| ==> s[i].lexeme != l
    ensures l !in LexemesOf(s)
  {
    forall t | t in s ensures t.lexeme != l {
      var i :| 0 <= i < |s| && s[i] == t;
    }
  }

  lemma DistinctAppend(a: seq<Token>, b: seq<Token>)
    requires Distinct(a) && Distinct(b) && LexemesOf(a) !! LexemesOf(b)
    ensures Distinct(a + b)
  {
    forall i, j | 0 <= i < j < |a + b| ensures (a + b)[i].lexeme != (a + b)[j].lexeme {
      if i < |a| && j >= |a| {
        InLexemes(a, i);
        InLexemes(b, j - |a|);
      } else if i >= |a| {
        assert (a + b)[i] == b[i - |a|] && (a + b)[j] == b[j - |a|];
      }
    }
  }

  lemma DistinctCons(x: Token, s: seq<Token>)
    requires Distinct(s) && x.lexeme !in LexemesOf(s)
    ensures Distinct([x] + s)
  {
    assert LexemesOf([x]) == {x.lexeme};
    DistinctAppend([x], s);
  }

  /** The pieces around one element of a sequence without repeats. */
  lemma DistinctParts(a: seq<Token>, x: Token, b: seq<Token>)
    requires Distinct(a + [x] + b)
    ensures Distinct(a) && Distinct(b) && Distinct(a + b)
    ensures x.lexeme !in LexemesOf(a) && x.lexeme !in LexemesOf(b)
    ensures LexemesOf(a) !! LexemesOf(b)
  {
    var s := a + [x] + b;
    forall i, j | 0 <= i < j < |a| ensures a[i].lexeme != a[j].lexeme {
      assert s[i] == a[i] && s[j] == a[j];
    }
    forall i, j | 0 <= i < j < |b| ensures b[i].lexeme != b[j].lexeme {
      assert s[|a| + 1 + i] == b[i] && s[|a| + 1 + j] == b[j];
    }
    forall i | 0 <= i < |a| ensures a[i].lexeme != x.lexeme {
      assert s[i] == a[i] && s[|a|] == x;
    }
    forall j | 0 <= j < |b| ensures b[j].lexeme != x.lexeme {
      assert s[|a| + 1 + j] == b[j] && s[|a|] == x;
    }
    NotInLexemes(a, x.lexeme);
    NotInLexemes(b, x.lexeme);
    forall i | 0 <= i < |a| ensures a[i].lexeme !in LexemesOf(b) {
      forall j | 0 <= j < |b| ensures b[j].lexeme != a[i].lexeme {
        assert s[i] == a[i] && s[|a| + 1 + j] == b[j];
      }
      NotInLexemes(b, a[i].lexeme);
    }
    forall l | l in LexemesOf(a) ensures l !in LexemesOf(b) {
      var t :| t in a && t.lexeme == l;
    }
    DistinctAppend(a, b);
  }

  /** One step of the call's `reduce`: `a.concat(c.filter(lexeme not in a))`. */
  function Merge(a: seq<Token>, c: seq<Token>): seq<Token>
  {
    a + Fresh(c, LexemesOf(a))
  }

  lemma MergeSpec(a: seq<Token>, c: seq<Token>)
    ensures LexemesOf(Merge(a, c)) == LexemesOf(a) + LexemesOf(c)
    ensures Distinct(a) && Distinct(c) ==> Distinct(Merge(a, c))
    ensures Merge(a, c)[..|a|] == a
  {
    var f := Fresh(c, LexemesOf(a));
    FreshSpec(c, LexemesOf(a));
    LexemesAppend(a, f);
    assert (a + f)[..|a|] == a;
    if Distinct(a) && Distinct(c) {
      forall i, j | 0 <= i < j < |a + f| ensures (a + f)[i].lexeme != (a + f)[j].lexeme {
        if i < |a| && j >= |a| {
          assert (a + f)[j] == f[j - |a|] && (a + f)[i] in a;
        } else if i >= |a| {
          assert (a + f)[i] == f[i - |a|] && (a + f)[j] == f[j - |a|];
        }
      }
    }
  }

  // ---- fn: splice out the first symbol of each parameter's lexeme ----

  /** `findIndex(s => s.lexeme === lx)`. */
  function FindLexeme(s: seq<Token>, lx: string): (r: Option<nat>)
    ensures r.Some? ==> r.value < |s| && s[r.value].lexeme == lx
    ensures r.Some? ==> forall j :: 0 <= j < r.value ==> s[j].lexeme != lx
    ensures r.None? <==> lx !in LexemesOf(s)
  {
    if s == [] then None
    else if s[0].lexeme == lx then Some(0)
    else
      var r := FindLexeme(s[1..], lx);
      LexemesSplit(s);
      if r.Some? then Some(r.value + 1) else None
  }

  /** `splice(findIndex(...), 1)` when the lexeme is there. */
  function RemoveFirst(s: seq<Token>, lx: string): seq<Token>
  {
    match FindLexeme(s, lx)
    case None => s
    case Some(k) => s[..k] + s[k + 1..]
  }

  /** Removing the symbol at `k` from a sequence without repeated lexemes. */
  lemma RemoveAtSpec(s: seq<Token>, k: nat)
    requires Distinct(s) && k < |s|
    ensures LexemesOf(s[..k] + s[k + 1..]) == LexemesOf(s) - {s[k].lexeme}
    ensures Distinct(s[..k] + s[k + 1..])
  {
    var a, b := s[..k], s[k + 1..];
    assert s == a + [s[k]] + b;
    DistinctParts(a, s[k], b);
    LexemesAppend(a + [s[k]], b);
    LexemesAppend(a, [s[k]]);
    LexemesAppend(a, b);
    assert LexemesOf([s[k]]) == {s[k].lexeme};
  }

  /** Without repeated lexemes, removing the first symbol of a lexeme
      removes the lexeme. */
  lemma RemoveFirstSpec(s: seq<Token>, lx: string)
    requires Distinct(s)
    ensures LexemesOf(RemoveFirst(s, lx)) == LexemesOf(s) - {lx}
    ensures Distinct(RemoveFirst(s, lx))
  {
    var f := FindLexeme(s, lx);
    if f.Some? {
      RemoveAtSpec(s, f.value);
    }
  }

  /** The loop of src/checker.ts:144-149, one splice per parameter token. */
  function RemoveAll(s: seq<Token>, toks: seq<Token>): seq<Token>
    decreases |toks|
  {
    if toks == [] then s else RemoveAll(RemoveFirst(s, toks[0].lexeme), toks[1..])
  }

  /** A function's capture set is its body's without any parameter's lexeme. */
  lemma {:induction false} RemoveAllSpec(s: seq<Token>, toks: seq<Token>)
    requires Distinct(s)
    ensures LexemesOf(RemoveAll(s, toks)) == LexemesOf(s) - LexemesOf(toks)
    ensures Distinct(RemoveAll(s, toks))
    decreases |toks|
  {
    if toks != [] {
      RemoveFirstSpec(s, toks[0].lexeme);
      RemoveAllSpec(RemoveFirst(s, toks[0].lexeme), toks[1..]);
      LexemesSplit(toks);
    }
  }

  method RemoveAllLoop(s: seq<Token>, toks: seq<Token>) returns (r: seq<Token>)
    ensures r == RemoveAll(s, toks)
  {
    r := s;
    var i := 0;
    while i < |toks|
      invariant 0 <= i <= |toks|
      invariant RemoveAll(s, toks) == RemoveAll(r, toks[i..])
    {
      assert toks[i..][0] == toks[i] && toks[i..][1..] == toks[i + 1..];
      var found := FindLexeme(r, toks[i].lexeme);
      if found.Some? {
        r := r[..found.value] + r[found.value + 1..];
      }
      i := i + 1;
    }
  }
}
