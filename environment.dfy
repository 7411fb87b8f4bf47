/** Chained lexical scopes (src/environment.ts).

    `Environment` is the source's class: a frame holds a map from names to
    bindings and an optional enclosing frame; `define` writes into the
    frame's own map and `retrieve` walks outwards until it finds the name.

    The abstract view of a frame is its chain, the frame's own map followed
    by the maps of its enclosing frames, innermost first. The compile-time
    passes (checker, lowering, code generator) open a frame on entering a
    construct and drop it on leaving, so they use the chain itself as a
    value; `Lookup` and `Bind` below are the operations they use, and
    `Environment.Retrieve` and `Environment.Define` are proved to agree with
    them. */
module Environments {
  import opened Wrappers

  /** Innermost frame first. */
  type Chain<V> = seq<map<string, V>>

  /** The walk of `retrieve`: the innermost frame that holds `key` decides. */
  function Lookup<V>(chain: Chain<V>, key: string): Option<V>
  {
    if chain == [] then None
    else if key in chain[0] then Some(chain[0][key])
    else Lookup(chain[1..], key)
  }

  /** `define` on the innermost frame. */
  function Bind<V>(chain: Chain<V>, key: string, value: V): (r: Chain<V>)
    requires chain != []
    ensures |r| == |chain| && r[1..] == chain[1..]
    ensures r[0] == chain[0][key := value]
  {
    [chain[0][key := value]] + chain[1..]
  }

  /** `new Environment(enclosing)`. */
  function Nest<V>(chain: Chain<V>): Chain<V>
  {
    [map[]] + chain
  }

  /** Index of the innermost frame that binds `key`, if any. */
  predicate BoundIn<V>(chain: Chain<V>, key: string)
  {
    exists i :: 0 <= i < |chain| && key in chain[i]
  }

  /** After `define(k, v)`, looking `k` up in the same frame gives `v`. */
  lemma DefineThenLookup<V>(chain: Chain<V>, key: string, value: V)
    requires chain != []
    ensures Lookup(Bind(chain, key, value), key) == Some(value)
  {
  }

  /** `define` changes no other name's binding. */
  lemma {:induction false} DefineOther<V>(chain: Chain<V>, key: string, value: V, other: string)
    requires chain != [] && other != key
    ensures Lookup(Bind(chain, key, value), other) == Lookup(chain, other)
  {
    var r := Bind(chain, key, value);
    assert r[1..] == chain[1..];
  }

  /** A name bound in the innermost frame shadows every enclosing binding. */
  lemma Shadow<V>(chain: Chain<V>, key: string)
    requires chain != [] && key in chain[0]
    ensures Lookup(chain, key) == Some(chain[0][key])
  {
  }

  /** A name missing from the innermost frame is looked up further out. */
  lemma Fallback<V>(chain: Chain<V>, key: string)
    requires chain != [] && key !in chain[0]
    ensures Lookup(chain, key) == Lookup(chain[1..], key)
  {
  }

  /** The lookup fails exactly when no frame of the chain binds the name,
      and when it succeeds the value comes from the first frame that does. */
  lemma {:induction false} LookupSpec<V>(chain: Chain<V>, key: string)
    ensures Lookup(chain, key).None? <==> !BoundIn(chain, key)
    ensures Lookup(chain, key).Some? ==>
      exists i :: 0 <= i < |chain| && key in chain[i] && Lookup(chain, key).value == chain[i][key]
        && forall j :: 0 <= j < i ==> key !in chain[j]
  {
    if chain == [] {
    } else if key in chain[0] {
      assert BoundIn(chain, key) by { assert key in chain[0]; }
    } else {
      LookupSpec(chain[1..], key);
      if BoundIn(chain, key) {
        var i :| 0 <= i < |chain| && key in chain[i];
        assert i > 0 && key in chain[1..][i - 1];
      }
      if BoundIn(chain[1..], key) {
        var i :| 0 <= i < |chain[1..]| && key in chain[1..][i];
        assert key in chain[i + 1];
      }
      if Lookup(chain, key).Some? {
        var i :| 0 <= i < |chain[1..]| && key in chain[1..][i] && Lookup(chain[1..], key).value == chain[1..][i][key]
          && forall j :: 0 <= j < i ==> key !in chain[1..][j];
        assert key in chain[i + 1] && forall j :: 0 <= j < i + 1 ==> key !in chain[j] by {
          forall j | 0 <= j < i + 1 ensures key !in chain[j] {
            if j > 0 { assert chain[j] == chain[1..][j - 1]; }
          }
        }
      }
    }
  }

  /** A fresh nested frame sees exactly what its enclosing chain sees. */
  lemma NestLookup<V>(chain: Chain<V>, key: string)
    ensures Lookup(Nest(chain), key) == Lookup(chain, key)
  {
    assert Nest(chain)[1..] == chain;
  }

  class Environment<V> {
    var enclosing: Environment?<V>
    var symbolMap: map<string, V>
    ghost var Repr: set<object>

    ghost predicate Valid()
      reads this, Repr
      decreases Repr
    {
      this in Repr &&
      (enclosing != null ==>
        enclosing in Repr && enclosing.Repr <= Repr && this !in enclosing.Repr && enclosing.Valid())
    }

    /** The frame's own map, then those of the enclosing frames. */
    ghost function Chain(): Chain<V>
      reads this, Repr
      requires Valid()
      decreases Repr
    {
      [symbolMap] + (if enclosing == null then [] else enclosing.Chain())
    }

    constructor (enclosing: Environment?<V>)
      requires enclosing != null ==> enclosing.Valid()
      ensures Valid() && this.enclosing == enclosing && symbolMap == map[]
      ensures Repr == {this} + (if enclosing == null then {} else enclosing.Repr)
      ensures Chain() == Nest(if enclosing == null then [] else enclosing.Chain())
    {
      this.enclosing := enclosing;
      symbolMap := map[];
      Repr := {this} + (if enclosing == null then {} else enclosing.Repr);
    }

    /** `define` overwrites the key in this frame's map and nothing else. */
    method Define(key: string, value: V)
      requires Valid()
      modifies this
      ensures Valid() && Repr == old(Repr) && enclosing == old(enclosing)
      ensures symbolMap == old(symbolMap)[key := value]
      ensures Chain() == Bind(old(Chain()), key, value)
      ensures Retrieve(key) == Ok(value)
    {
      symbolMap := symbolMap[key := value];
    }

    /** `retrieve`: this frame first, then the enclosing chain, and a
        RuntimeError when no frame binds the name (`Unresolved`, whose text
        is "Unable to resolve symbol <key>."). It reads the frames and
        changes none of them. */
    function Retrieve(key: string): (r: Result<V>)
      reads this, Repr
      requires Valid()
      decreases Repr
      ensures r.Ok? <==> Lookup(Chain(), key).Some?
      ensures r.Ok? ==> r.value == Lookup(Chain(), key).value
      ensures r.Err? ==> r.fault == RuntimeError(Unresolved(key))
    {
      if key in symbolMap then Ok(symbolMap[key])
      else if enclosing != null then enclosing.Retrieve(key)
      else Err(RuntimeError(Unresolved(key)))
    }
  }

  /** Two frames: a name the inner frame defines shadows the outer
      binding without changing it, a name only the outer frame binds is
      still found through the inner one, and a name neither binds is
      reported as unresolved. */
  method ShadowingScenario(x: int, y: int, z: int)
    returns (innerA: Result<int>, innerB: Result<int>, outerA: Result<int>, innerC: Result<int>)
    ensures innerA == Ok(z) && innerB == Ok(y) && outerA == Ok(x)
    ensures innerC == Err(RuntimeError(Unresolved("c")))
  {
    var outer := new Environment<int>(null);
    outer.Define("a", x);
    outer.Define("b", y);
    var inner := new Environment<int>(outer);
    inner.Define("a", z);
    assert inner.Chain()[1..] == outer.Chain();
    innerA := inner.Retrieve("a");
    innerB := inner.Retrieve("b");
    outerA := outer.Retrieve("a");
    assert inner.Retrieve("c").Err?;
    innerC := inner.Retrieve("c");
  }
}
