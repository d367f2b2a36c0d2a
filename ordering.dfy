/**
 * Newest-first ordering of a story list. The program appends a story and then runs
 * Python's stable newest-first sort; on a list that is already non-increasing this
 * places the new element directly after every element whose key is at least its own,
 * which is what `Insert` computes.
 */
module Ordering {

  /** Keys never increase from left to right. */
  predicate NonIncreasing<T>(xs: seq<T>, key: T -> int) {
    forall i, j :: 0 <= i < j < |xs| ==> key(xs[i]) >= key(xs[j])
  }

  /** Length of the longest prefix of `xs` whose keys are all at least `key(x)`. */
  function InsertionPoint<T>(xs: seq<T>, x: T, key: T -> int): (k: nat)
    ensures k <= |xs|
    ensures forall i :: 0 <= i < k ==> key(xs[i]) >= key(x)
    ensures k < |xs| ==> key(xs[k]) < key(x)
  {
    if xs == [] || key(xs[0]) < key(x) then 0 else 1 + InsertionPoint(xs[1..], x, key)
  }

  /**
   * The list after `append(x)` followed by the stable newest-first sort: `x` goes before
   * the first element with a smaller key.
   */
  function Insert<T>(xs: seq<T>, x: T, key: T -> int): seq<T> {
    if xs == [] || key(xs[0]) < key(x) then [x] + xs else [xs[0]] + Insert(xs[1..], x, key)
  }

  /** `Insert` splits the list at `InsertionPoint`. */
  lemma {:induction false} InsertSplit<T>(xs: seq<T>, x: T, key: T -> int)
    ensures var k := InsertionPoint(xs, x, key);
      Insert(xs, x, key) == xs[..k] + [x] + xs[k..]
  {
    if xs != [] && key(xs[0]) >= key(x) {
      InsertSplit(xs[1..], x, key);
      var k := InsertionPoint(xs[1..], x, key);
      assert xs[1..][..k] == xs[1..k + 1];
      assert xs[1..][k..] == xs[k + 1..];
      assert [xs[0]] + xs[1..k + 1] == xs[..k + 1];
    }
  }

  /** Element by element: the prefix before `InsertionPoint`, then `x`, then the rest shifted by one. */
  lemma InsertIndex<T>(xs: seq<T>, x: T, key: T -> int)
    ensures var k := InsertionPoint(xs, x, key);
      var r := Insert(xs, x, key);
      && |r| == |xs| + 1 && r[k] == x
      && (forall i :: 0 <= i < k ==> r[i] == xs[i])
      && (forall i :: k < i < |r| ==> r[i] == xs[i - 1])
  {
    InsertSplit(xs, x, key);
  }

  /**
   * On a non-increasing list, `x` lands after every element with key at least its own
   * and before every element with a smaller key; the old elements keep their order.
   * This is exactly where a stable descending sort of `xs + [x]` puts `x`.
   */
  lemma InsertPlacement<T>(xs: seq<T>, x: T, key: T -> int)
    requires NonIncreasing(xs, key)
    ensures var k := InsertionPoint(xs, x, key);
      && Insert(xs, x, key) == xs[..k] + [x] + xs[k..]
      && (forall i :: 0 <= i < k ==> key(xs[i]) >= key(x))
      && (forall i :: k <= i < |xs| ==> key(xs[i]) < key(x))
  {
    var k := InsertionPoint(xs, x, key);
    InsertSplit(xs, x, key);
    forall i | k <= i < |xs| ensures key(xs[i]) < key(x) {
      assert key(xs[i]) <= key(xs[k]);
    }
  }

  /** Inserting keeps the list non-increasing. */
  lemma InsertSorted<T>(xs: seq<T>, x: T, key: T -> int)
    requires NonIncreasing(xs, key)
    ensures NonIncreasing(Insert(xs, x, key), key)
  {
    var k := InsertionPoint(xs, x, key);
    var r := Insert(xs, x, key);
    InsertPlacement(xs, x, key);
    forall i, j | 0 <= i < j < |r| ensures key(r[i]) >= key(r[j]) {
      if j < k {
        assert r[i] == xs[i] && r[j] == xs[j];
      } else if j == k {
        assert r[i] == xs[i] && r[j] == x;
      } else if i < k {
        assert r[i] == xs[i] && r[j] == xs[j - 1];
      } else if i == k {
        assert r[i] == x && r[j] == xs[j - 1];
      } else {
        assert r[i] == xs[i - 1] && r[j] == xs[j - 1];
      }
    }
  }

  /** The result is a permutation of the old list plus the new element. */
  lemma InsertPermutation<T>(xs: seq<T>, x: T, key: T -> int)
    ensures |Insert(xs, x, key)| == |xs| + 1
    ensures multiset(Insert(xs, x, key)) == multiset(xs) + multiset{x}
  {
    var k := InsertionPoint(xs, x, key);
    InsertSplit(xs, x, key);
    assert xs == xs[..k] + xs[k..];
    calc {
      multiset(Insert(xs, x, key));
      multiset(xs[..k]) + multiset{x} + multiset(xs[k..]);
      multiset(xs[..k] + xs[k..]) + multiset{x};
    }
  }

  /** The elements after insertion are the old ones and the new one. */
  lemma InsertMembers<T>(xs: seq<T>, x: T, key: T -> int)
    ensures forall t :: t in Insert(xs, x, key) <==> t in xs || t == x
  {
    var k := InsertionPoint(xs, x, key);
    InsertSplit(xs, x, key);
    assert xs == xs[..k] + xs[k..];
  }

  /** A property of every old element and of the new one holds of every element after insertion. */
  lemma {:induction false} InsertKeepsEach<T>(xs: seq<T>, x: T, key: T -> int, p: T -> bool)
    requires forall i :: 0 <= i < |xs| ==> p(xs[i])
    requires p(x)
    ensures forall i :: 0 <= i < |Insert(xs, x, key)| ==> p(Insert(xs, x, key)[i])
  {
    if xs != [] && key(xs[0]) >= key(x) {
      InsertKeepsEach(xs[1..], x, key, p);
    }
  }

  /** An element no newer than everything already present is appended at the end. */
  lemma {:induction false} InsertOldest<T>(xs: seq<T>, x: T, key: T -> int)
    requires forall i :: 0 <= i < |xs| ==> key(xs[i]) >= key(x)
    ensures Insert(xs, x, key) == xs + [x]
  {
    var k := InsertionPoint(xs, x, key);
    InsertSplit(xs, x, key);
    assert k == |xs|;
  }

  /** The list after inserting the elements of `ys` one after the other. */
  function InsertAll<T>(xs: seq<T>, ys: seq<T>, key: T -> int): seq<T> {
    if ys == [] then xs else Insert(InsertAll(xs, ys[..|ys| - 1], key), ys[|ys| - 1], key)
  }

  /** Inserting `ys` and then `zs` is inserting `ys + zs`. */
  lemma {:induction false} InsertAllAppend<T>(xs: seq<T>, ys: seq<T>, zs: seq<T>, key: T -> int)
    ensures InsertAll(xs, ys + zs, key) == InsertAll(InsertAll(xs, ys, key), zs, key)
  {
    if zs == [] {
      assert ys + zs == ys;
    } else {
      var n := |zs| - 1;
      InsertAllAppend(xs, ys, zs[..n], key);
      assert (ys + zs)[..|ys + zs| - 1] == ys + zs[..n];
    }
  }

  /** Inserting one element is `Insert`. */
  lemma InsertAllOne<T>(xs: seq<T>, x: T, key: T -> int)
    ensures InsertAll(xs, [x], key) == Insert(xs, x, key)
  {
    assert [x][..0] == [];
  }

  /**
   * After inserting `ys` the list holds exactly the old elements and those of `ys`, as
   * a multiset; nothing is lost or duplicated.
   */
  lemma {:induction false} InsertAllPermutation<T>(xs: seq<T>, ys: seq<T>, key: T -> int)
    ensures |InsertAll(xs, ys, key)| == |xs| + |ys|
    ensures multiset(InsertAll(xs, ys, key)) == multiset(xs) + multiset(ys)
  {
    if ys != [] {
      var n := |ys| - 1;
      InsertAllPermutation(xs, ys[..n], key);
      InsertPermutation(InsertAll(xs, ys[..n], key), ys[n], key);
      assert ys == ys[..n] + [ys[n]];
    }
  }

  /** The elements after inserting `ys` are the old ones and those of `ys`. */
  lemma InsertAllMembers<T>(xs: seq<T>, ys: seq<T>, key: T -> int)
    ensures forall t :: t in InsertAll(xs, ys, key) <==> t in xs || t in ys
  {
    InsertAllPermutation(xs, ys, key);
    forall t ensures t in InsertAll(xs, ys, key) <==> t in xs || t in ys {
      assert t in InsertAll(xs, ys, key) <==> t in multiset(InsertAll(xs, ys, key));
    }
  }

  /** `ok` holds of every pair of elements, taken in list order. */
  predicate Pairwise<T>(xs: seq<T>, ok: (T, T) -> bool) {
    forall i, j :: 0 <= i < j < |xs| ==> ok(xs[i], xs[j])
  }

  /** A pairwise property survives insertion of an element that is compatible with every old one. */
  lemma InsertKeepsPairwise<T>(xs: seq<T>, x: T, key: T -> int, ok: (T, T) -> bool)
    requires Pairwise(xs, ok)
    requires forall i :: 0 <= i < |xs| ==> ok(xs[i], x) && ok(x, xs[i])
    ensures Pairwise(Insert(xs, x, key), ok)
  {
    var k := InsertionPoint(xs, x, key);
    var r := Insert(xs, x, key);
    InsertIndex(xs, x, key);
    forall i, j | 0 <= i < j < |r| ensures ok(r[i], r[j]) {
      var a := if i < k then i else if i == k then -1 else i - 1;
      var b := if j < k then j else if j == k then -1 else j - 1;
      if a < 0 {
        assert ok(x, xs[b]);
      } else if b < 0 {
        assert ok(xs[a], x);
      } else {
        assert ok(xs[a], xs[b]);
      }
    }
  }
}
