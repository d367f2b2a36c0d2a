/**
 * The merge rule of `Feed.add_story_if_needed`, on the values a feed saves about its
 * stories: a candidate whose title or link matches an existing one under case folding is
 * dropped; any other candidate is appended and the list re-sorted newest first.
 */
module StoryMerge {
  import opened Text
  import opened Wrappers
  import opened Records
  import Ordering

  function PublishedOf(f: StoryFields): int {
    f.published
  }

  /** Some story's title equals `title` under case folding. */
  predicate TitleTaken(fs: seq<StoryFields>, title: string) {
    exists i :: 0 <= i < |fs| && Lower(fs[i].title) == Lower(title)
  }

  /** Some story's link equals `link` under case folding. */
  predicate LinkTaken(fs: seq<StoryFields>, link: string) {
    exists i :: 0 <= i < |fs| && Lower(fs[i].link) == Lower(link)
  }

  /** Two stories that may stand side by side in one feed. */
  predicate Apart(a: StoryFields, b: StoryFields) {
    Lower(a.title) != Lower(b.title) && Lower(a.link) != Lower(b.link)
  }

  /** No two stories share a case-folded title or a case-folded link. */
  predicate NoDuplicates(fs: seq<StoryFields>) {
    Ordering.Pairwise(fs, Apart)
  }

  /** What a feed keeps between operations: no duplicates, newest first. */
  predicate WellFormed(fs: seq<StoryFields>) {
    NoDuplicates(fs) && Ordering.NonIncreasing(fs, PublishedOf)
  }

  /** One call of `add_story_if_needed` with candidate `c`. */
  function Merge(fs: seq<StoryFields>, c: StoryFields): seq<StoryFields> {
    if TitleTaken(fs, c.title) || LinkTaken(fs, c.link) then fs
    else Ordering.Insert(fs, c, PublishedOf)
  }

  /** Calls of `add_story_if_needed` for `cs`, in order. */
  function MergeAll(fs: seq<StoryFields>, cs: seq<StoryFields>): seq<StoryFields> {
    if cs == [] then fs else Merge(MergeAll(fs, cs[..|cs| - 1]), cs[|cs| - 1])
  }

  /** Offering one more candidate merges it into the result of the earlier ones. */
  lemma MergeAllStep(fs: seq<StoryFields>, cs: seq<StoryFields>, c: StoryFields)
    ensures MergeAll(fs, cs + [c]) == Merge(MergeAll(fs, cs), c)
  {
    assert (cs + [c])[..|cs|] == cs;
  }

  /** Offering the candidates one at a time: the first `i + 1` merge the next into the first `i`. */
  lemma MergeAllPrefix(fs: seq<StoryFields>, cs: seq<StoryFields>, i: nat)
    requires i < |cs|
    ensures MergeAll(fs, cs[..i + 1]) == Merge(MergeAll(fs, cs[..i]), cs[i])
  {
    assert cs[..i + 1][..i] == cs[..i];
  }

  /** A candidate matching an existing title or link leaves the list as it was. */
  lemma MergeRejects(fs: seq<StoryFields>, c: StoryFields)
    requires TitleTaken(fs, c.title) || LinkTaken(fs, c.link)
    ensures Merge(fs, c) == fs
  {
  }

  /**
   * Any other candidate is added: the list grows by one, it is a permutation of the old
   * list plus the candidate, the old stories keep their relative order, and the
   * candidate sits after every story at least as new and before every older one.
   */
  lemma MergeAccepts(fs: seq<StoryFields>, c: StoryFields)
    requires WellFormed(fs)
    requires !TitleTaken(fs, c.title) && !LinkTaken(fs, c.link)
    ensures |Merge(fs, c)| == |fs| + 1
    ensures multiset(Merge(fs, c)) == multiset(fs) + multiset{c}
    ensures exists k :: (0 <= k <= |fs| && Merge(fs, c) == fs[..k] + [c] + fs[k..]
                         && (forall i :: 0 <= i < k ==> fs[i].published >= c.published)
                         && (forall i :: k <= i < |fs| ==> fs[i].published < c.published))
  {
    Ordering.InsertPermutation(fs, c, PublishedOf);
    Ordering.InsertPlacement(fs, c, PublishedOf);
    var k := Ordering.InsertionPoint(fs, c, PublishedOf);
    assert Merge(fs, c) == fs[..k] + [c] + fs[k..];
  }

  /** Every merge keeps a feed free of duplicates and newest first. */
  lemma MergeWellFormed(fs: seq<StoryFields>, c: StoryFields)
    requires WellFormed(fs)
    ensures WellFormed(Merge(fs, c))
  {
    if !TitleTaken(fs, c.title) && !LinkTaken(fs, c.link) {
      assert forall i :: 0 <= i < |fs| ==> Apart(fs[i], c) && Apart(c, fs[i]);
      Ordering.InsertKeepsPairwise(fs, c, PublishedOf, Apart);
      Ordering.InsertSorted(fs, c, PublishedOf);
    }
  }

  lemma {:induction false} MergeAllWellFormed(fs: seq<StoryFields>, cs: seq<StoryFields>)
    requires WellFormed(fs)
    ensures WellFormed(MergeAll(fs, cs))
  {
    if cs != [] {
      MergeAllWellFormed(fs, cs[..|cs| - 1]);
      MergeWellFormed(MergeAll(fs, cs[..|cs| - 1]), cs[|cs| - 1]);
    }
  }

  /** A merge never loses a story and adds at most one. */
  lemma MergeKeeps(fs: seq<StoryFields>, c: StoryFields)
    ensures forall f :: f in fs ==> f in Merge(fs, c)
    ensures |fs| <= |Merge(fs, c)| <= |fs| + 1
  {
    if !TitleTaken(fs, c.title) && !LinkTaken(fs, c.link) {
      Ordering.InsertPermutation(fs, c, PublishedOf);
      forall f | f in fs ensures f in Merge(fs, c) {
        assert f in multiset(Merge(fs, c));
      }
    }
  }

  /** After a merge the candidate's title or link is taken: it was already, or the candidate is now in the list. */
  lemma MergeCovers(fs: seq<StoryFields>, c: StoryFields)
    ensures TitleTaken(Merge(fs, c), c.title) || LinkTaken(Merge(fs, c), c.link)
  {
    if !TitleTaken(fs, c.title) && !LinkTaken(fs, c.link) {
      var k := Ordering.InsertionPoint(fs, c, PublishedOf);
      Ordering.InsertSplit(fs, c, PublishedOf);
      assert Merge(fs, c)[k] == c;
    }
  }

  /** In a feed without duplicates at most one story has an empty link. */
  lemma AtMostOneEmptyLink(fs: seq<StoryFields>)
    requires NoDuplicates(fs)
    ensures forall i, j :: 0 <= i < |fs| && 0 <= j < |fs| && fs[i].link == "" && fs[j].link == "" ==> i == j
  {
  }

  /**
   * Two items whose titles differ only in case give one story: merged into an empty
   * feed, the second is dropped whatever its link.
   */
  lemma SameTitleMergedOnce(a: StoryFields, b: StoryFields)
    requires Lower(a.title) == Lower(b.title)
    ensures MergeAll([], [a, b]) == [a]
  {
    assert [a, b][..1] == [a];
    assert [a][..0] == [];
    assert Merge([], a) == [a];
    assert MergeAll([], [a]) == [a];
    assert [a][0] == a;
    assert TitleTaken([a], b.title) by {
      assert Lower([a][0].title) == Lower(b.title);
    }
    assert MergeAll([], [a, b]) == Merge([a], b);
  }

  /**
   * Reloading a saved feed into an empty story list gives back exactly the saved
   * stories, in the same order: none is a duplicate, and each is no newer than those
   * before it, so each is appended at the end.
   */
  lemma {:induction false} ReloadSaved(fs: seq<StoryFields>)
    requires WellFormed(fs)
    ensures MergeAll([], LoadStoryFields(Some(SaveStories(fs)))) == fs
  {
    SaveStoriesRoundTrip(fs);
    ReloadPrefix(fs, |fs|);
    assert fs[..|fs|] == fs;
  }

  lemma {:induction false} ReloadPrefix(fs: seq<StoryFields>, n: nat)
    requires WellFormed(fs) && n <= |fs|
    ensures MergeAll([], fs[..n]) == fs[..n]
  {
    if n > 0 {
      var prefix := fs[..n - 1];
      assert fs[..n][..n - 1] == prefix;
      ReloadPrefix(fs, n - 1);
      var c := fs[n - 1];
      forall i | 0 <= i < |prefix|
        ensures Apart(prefix[i], c) && PublishedOf(prefix[i]) >= PublishedOf(c)
      {
        assert prefix[i] == fs[i];
        assert Apart(fs[i], fs[n - 1]);
        assert PublishedOf(fs[i]) >= PublishedOf(fs[n - 1]);
      }
      assert !TitleTaken(prefix, c.title) && !LinkTaken(prefix, c.link);
      Ordering.InsertOldest(prefix, c, PublishedOf);
      assert prefix + [c] == fs[..n];
    }
  }
}
