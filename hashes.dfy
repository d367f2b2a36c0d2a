/**
 * Identifiers of feeds and stories and the registries keyed by them. A new identifier is
 * drawn (by `uuid4`, retried) until it is not yet a key of the registry; the model only
 * needs that such a string exists, which holds because a registry is finite.
 */
module Hashes {

  ghost function MaxLength(keys: set<string>): (n: nat)
    ensures forall k :: k in keys ==> |k| <= n
    decreases keys
  {
    if keys == {} then 0
    else
      var k :| k in keys;
      var rest := MaxLength(keys - {k});
      if |k| > rest then |k| else rest
  }

  /** Whatever the registry holds, some identifier is still free. */
  lemma FreshKeyExists<V>(registry: map<string, V>)
    ensures exists h :: h !in registry
  {
    var longer := seq(MaxLength(registry.Keys) + 1, _ => 'x');
    assert longer !in registry.Keys;
  }

  /**
   * The registry after registering `xs` one after the other under `hashOf`, each
   * assignment overwriting any earlier entry with the same identifier.
   */
  function Register<T>(registry: map<string, T>, xs: seq<T>, hashOf: T -> string): map<string, T>
  {
    if xs == [] then registry
    else Register(registry, xs[..|xs| - 1], hashOf)[hashOf(xs[|xs| - 1]) := xs[|xs| - 1]]
  }

  /** Registering one more element overwrites the entry under its identifier. */
  lemma RegisterStep<T>(registry: map<string, T>, xs: seq<T>, x: T, hashOf: T -> string)
    ensures Register(registry, xs + [x], hashOf) == Register(registry, xs, hashOf)[hashOf(x) := x]
  {
    assert (xs + [x])[..|xs|] == xs;
  }

  /** Registering `xs` and then `ys` is registering `xs + ys`. */
  lemma {:induction false} RegisterAppend<T>(registry: map<string, T>, xs: seq<T>, ys: seq<T>, hashOf: T -> string)
    ensures Register(registry, xs + ys, hashOf) == Register(Register(registry, xs, hashOf), ys, hashOf)
  {
    if ys == [] {
      assert xs + ys == xs;
    } else {
      var n := |ys| - 1;
      RegisterAppend(registry, xs, ys[..n], hashOf);
      assert (xs + ys)[..|xs + ys| - 1] == xs + ys[..n];
    }
  }

  /** The identifiers registered are the old ones plus those of `xs`. */
  lemma {:induction false} RegisterKeys<T>(registry: map<string, T>, xs: seq<T>, hashOf: T -> string)
    ensures Register(registry, xs, hashOf).Keys
         == registry.Keys + set i | 0 <= i < |xs| :: hashOf(xs[i])
  {
    if xs != [] {
      var n := |xs| - 1;
      RegisterKeys(registry, xs[..n], hashOf);
      var before := set i | 0 <= i < n :: hashOf(xs[..n][i]);
      assert (set i | 0 <= i < |xs| :: hashOf(xs[i])) == before + {hashOf(xs[n])} by {
        forall h | h in (set i | 0 <= i < |xs| :: hashOf(xs[i]))
          ensures h in before + {hashOf(xs[n])}
        {
          var i :| 0 <= i < |xs| && hashOf(xs[i]) == h;
          if i < n { assert hashOf(xs[..n][i]) == h; }
        }
      }
    }
  }

  /** Registration never removes an identifier. */
  lemma RegisterGrows<T>(registry: map<string, T>, xs: seq<T>, hashOf: T -> string)
    ensures registry.Keys <= Register(registry, xs, hashOf).Keys
  {
    RegisterKeys(registry, xs, hashOf);
  }

  /**
   * Under an identifier that some element of `xs` carries, the registry holds the LAST
   * such element: when several share an identifier, the earlier ones are overwritten.
   */
  lemma {:induction false} RegisterLastWins<T>(registry: map<string, T>, xs: seq<T>, hashOf: T -> string, i: nat)
    requires i < |xs|
    requires forall j :: i < j < |xs| ==> hashOf(xs[j]) != hashOf(xs[i])
    ensures hashOf(xs[i]) in Register(registry, xs, hashOf)
    ensures Register(registry, xs, hashOf)[hashOf(xs[i])] == xs[i]
  {
    var n := |xs| - 1;
    if i < n {
      RegisterLastWins(registry, xs[..n], hashOf, i);
    }
  }

  /** An identifier no element of `xs` carries keeps its old entry. */
  lemma {:induction false} RegisterKeepsOthers<T>(registry: map<string, T>, xs: seq<T>, hashOf: T -> string, h: string)
    requires h in registry
    requires forall j :: 0 <= j < |xs| ==> hashOf(xs[j]) != h
    ensures h in Register(registry, xs, hashOf)
    ensures Register(registry, xs, hashOf)[h] == registry[h]
  {
    if xs != [] {
      RegisterKeepsOthers(registry, xs[..|xs| - 1], hashOf, h);
    }
  }

  /** Entries survive when every identifier registered comes from `used`, none of which was registered. */
  lemma RegisterKeepsUnused<T>(registry: map<string, T>, xs: seq<T>, hashOf: T -> string, used: seq<string>)
    requires forall x :: x in xs ==> hashOf(x) in used
    requires forall j :: 0 <= j < |used| ==> used[j] !in registry
    ensures forall k :: k in registry ==>
      k in Register(registry, xs, hashOf) && Register(registry, xs, hashOf)[k] == registry[k]
  {
    forall k | k in registry
      ensures k in Register(registry, xs, hashOf) && Register(registry, xs, hashOf)[k] == registry[k]
    {
      forall j | 0 <= j < |xs| ensures hashOf(xs[j]) != k {
        assert xs[j] in xs;
      }
      RegisterKeepsOthers(registry, xs, hashOf, k);
    }
  }

  /**
   * `after` is `before` with `xs` registered in order, every identifier registered is
   * one of `used`, and none of `used` was registered in `before`.
   */
  ghost predicate Grown<T>(before: map<string, T>, after: map<string, T>, xs: seq<T>, hashOf: T -> string, used: seq<string>) {
    && after == Register(before, xs, hashOf)
    && (forall x :: x in xs ==> hashOf(x) in used)
    && (forall j :: 0 <= j < |used| ==> used[j] !in before)
  }

  /** Drawing an unregistered identifier `h` and registering under it at most the elements `more`. */
  lemma GrownStep<T>(before: map<string, T>, mid: map<string, T>, xs: seq<T>, hashOf: T -> string,
                     used: seq<string>, h: string, more: seq<T>)
    requires Grown(before, mid, xs, hashOf, used)
    requires h !in mid
    requires forall x :: x in more ==> hashOf(x) == h
    ensures Grown(before, Register(mid, more, hashOf), xs + more, hashOf, used + [h])
  {
    RegisterGrows(before, xs, hashOf);
    RegisterAppend(before, xs, more, hashOf);
    forall x | x in xs + more ensures hashOf(x) in used + [h] {
      if x in xs { assert hashOf(x) in used; } else { assert x in more; }
    }
  }
}
