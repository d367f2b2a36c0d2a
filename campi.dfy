/**
 * The objects of the reader: the settings registry, its feeds and their stories. They
 * refer to one another (a feed to its settings, a story to its feed and settings), so
 * they share one module. Storage and the network are inputs and outputs: a save
 * returns the records it would write, a fetch is given its response.
 */
module Campi {
  import opened Wrappers
  import opened Text
  import Ordering
  import opened Xml
  import opened Records
  import opened StoryMerge
  import StoryText
  import Hashes
  import Lists

  /** Seconds on one clock; only their order and differences matter. */
  type Timestamp = int

  /** An HTTP answer: its status and, for a well-formed body, the parsed document. */
  datatype Response = Response(status: int, document: Option<Element>)

  predicate Fetched(response: Response) {
    response.status == 200 && response.document.Some?
  }

  function FeedHash(f: Feed): string {
    f.hash
  }

  function StoryHash(s: Story): string {
    s.hash
  }

  function StoryPublished(s: Story): int {
    s.published
  }

  /** Stories that may stand side by side in one feed: titles and links differ under case folding. */
  predicate StoriesApart(a: Story, b: Story) {
    Lower(a.title) != Lower(b.title) && Lower(a.link) != Lower(b.link)
  }

  /** What `save` sees of each story, in list order. */
  function FieldsOf(ss: seq<Story>): (fs: seq<StoryFields>)
    reads ss`unread, ss`note
    ensures |fs| == |ss|
    ensures forall i :: 0 <= i < |ss| ==> fs[i] == ss[i].Fields()
  {
    if ss == [] then [] else [ss[0].Fields()] + FieldsOf(ss[1..])
  }

  /** What `Settings.save` sees of each feed, in list order. */
  function Stubs(fs: seq<Feed>): (ss: seq<FeedStub>)
    reads fs`title, fs`description
    ensures |ss| == |fs|
    ensures forall i :: 0 <= i < |fs| ==> ss[i] == fs[i].Stub()
  {
    if fs == [] then [] else Stubs(fs[..|fs| - 1]) + [fs[|fs| - 1].Stub()]
  }

  /** One more feed adds its stub at the end. */
  lemma StubsStep(fs: seq<Feed>, f: Feed)
    ensures Stubs(fs + [f]) == Stubs(fs) + [f.Stub()]
  {
    assert (fs + [f])[..|fs|] == fs;
  }

  /** Positions of the unread stories. */
  function UnreadPositions(ss: seq<Story>): set<int>
    reads ss`unread
  {
    set i | 0 <= i < |ss| && ss[i].unread
  }

  /** The number of unread stories in the list. */
  function CountUnread(ss: seq<Story>): (n: nat)
    reads ss`unread
    ensures n <= |ss|
    ensures n == |UnreadPositions(ss)|
  {
    if ss == [] then 0
    else
      var last := |ss| - 1;
      var n := CountUnread(ss[..last]) + if ss[last].unread then 1 else 0;
      assert UnreadPositions(ss) == UnreadPositions(ss[..last]) + (if ss[last].unread then {last} else {});
      n
  }

  /** The first position of `x`, as `list.index`. */
  function IndexOf<T(==)>(xs: seq<T>, x: T): (i: nat)
    requires x in xs
    ensures i < |xs| && xs[i] == x
    ensures forall j :: 0 <= j < i ==> xs[j] != x
  {
    if xs[0] == x then 0 else 1 + IndexOf(xs[1..], x)
  }

  /** The first unread story of the list, if there is one. */
  function FirstUnread(ss: seq<Story>): (r: Option<Story>)
    reads ss`unread
    ensures r.None? <==> forall j :: 0 <= j < |ss| ==> !ss[j].unread
    ensures r.Some? ==> exists j :: (0 <= j < |ss| && ss[j] == r.value && r.value.unread
                                     && forall k :: 0 <= k < j ==> !ss[k].unread)
  {
    if ss == [] then None
    else if ss[0].unread then Some(ss[0])
    else
      var r := FirstUnread(ss[1..]);
      assert r.Some? ==> exists j :: (0 <= j < |ss[1..]| && ss[1..][j] == r.value
                                      && forall k :: 0 <= k < j ==> !ss[1..][k].unread);
      r
  }

  /** `update_from_XML`'s publication date of an item: `pubDate`, else `submitted`, else now. */
  function ItemPublished(item: Element, now: Timestamp, parseDate: string -> Timestamp): Timestamp {
    match Find(item, "pubDate")
    case Some(e) => parseDate(e.text)
    case None =>
      match Find(item, "submitted")
      case Some(e) => parseDate(e.text)
      case None => now
  }

  /** The story `update_from_XML` offers for one item; `hash` is the identifier it will be given. */
  function ItemStory(item: Element, now: Timestamp, parseDate: string -> Timestamp, hash: string): StoryFields {
    StoryFields(ChildText(item, "title", "unknown"), ItemPublished(item, now, parseDate),
                ChildText(item, "category", "unknown"), ChildText(item, "link", ""),
                true, 0, hash)
  }

  /** Missing fields of an item take their defaults; new stories start unread with note 0. */
  lemma ItemDefaults(item: Element, now: Timestamp, parseDate: string -> Timestamp, hash: string)
    ensures var f := ItemStory(item, now, parseDate, hash);
      && (Find(item, "title").None? ==> f.title == "unknown")
      && (Find(item, "title").Some? ==> f.title == Find(item, "title").value.text)
      && (Find(item, "pubDate").Some? ==> f.published == parseDate(Find(item, "pubDate").value.text))
      && (Find(item, "pubDate").None? && Find(item, "submitted").Some? ==>
            f.published == parseDate(Find(item, "submitted").value.text))
      && (Find(item, "pubDate").None? && Find(item, "submitted").None? ==> f.published == now)
      && (Find(item, "category").None? ==> f.category == "unknown")
      && (Find(item, "link").None? ==> f.link == "")
      && f.unread && f.note == 0 && f.hash == hash
  {
  }

  /**
   * The stories offered for `items`, in document order: the i-th with identifier
   * `hashes[i]`, and, when it carries no date, the time `clock(i)` at which it is read.
   */
  function ItemStories(items: seq<Element>, clock: nat -> Timestamp, parseDate: string -> Timestamp,
                       hashes: seq<string>): seq<StoryFields>
    requires |hashes| == |items|
  {
    if items == [] then []
    else
      var n := |items| - 1;
      ItemStories(items[..n], clock, parseDate, hashes[..n]) + [ItemStory(items[n], clock(n), parseDate, hashes[n])]
  }

  /** One offered story per item, with the item's fields and its identifier. */
  lemma {:induction false} ItemStoriesPointwise(items: seq<Element>, clock: nat -> Timestamp,
                                                parseDate: string -> Timestamp, hashes: seq<string>)
    requires |hashes| == |items|
    ensures var fs := ItemStories(items, clock, parseDate, hashes);
      && |fs| == |items|
      && forall i :: 0 <= i < |items| ==> fs[i] == ItemStory(items[i], clock(i), parseDate, hashes[i])
  {
    if items != [] {
      ItemStoriesPointwise(items[..|items| - 1], clock, parseDate, hashes[..|items| - 1]);
    }
  }

  /** One more item, with its identifier, adds its story at the end. */
  lemma {:induction false} ItemStoriesStep(items: seq<Element>, clock: nat -> Timestamp, parseDate: string -> Timestamp,
                                           hashes: seq<string>, h: string, i: nat)
    requires i < |items| && |hashes| == i
    ensures ItemStories(items[..i + 1], clock, parseDate, hashes + [h])
         == ItemStories(items[..i], clock, parseDate, hashes) + [ItemStory(items[i], clock(i), parseDate, h)]
  {
    assert items[..i + 1][..i] == items[..i];
    assert (hashes + [h])[..i] == hashes;
  }

  /** Placing a story among stories commutes with reading their fields. */
  lemma {:induction false} FieldsOfInsert(ss: seq<Story>, s: Story)
    ensures FieldsOf(Ordering.Insert(ss, s, StoryPublished))
         == Ordering.Insert(FieldsOf(ss), s.Fields(), PublishedOf)
  {
    if ss != [] && StoryPublished(ss[0]) >= StoryPublished(s) {
      FieldsOfInsert(ss[1..], s);
      assert FieldsOf(ss)[1..] == FieldsOf(ss[1..]);
    }
  }

  /**
   * A feed's story list: no two stories share a case-folded title or link, newest first,
   * and every story belongs to `feed` and `settings`.
   */
  ghost predicate StoryList(ss: seq<Story>, feed: Feed, settings: Settings) {
    && (forall i, j :: 0 <= i < j < |ss| ==> StoriesApart(ss[i], ss[j]))
    && (forall i, j :: 0 <= i < j < |ss| ==> ss[i].published >= ss[j].published)
    && (forall i :: 0 <= i < |ss| ==> ss[i].feed == feed && ss[i].settings == settings)
  }

  /**
   * A story whose title and link are not yet taken goes into a feed's story list at the
   * place `Merge` gives its fields, and the list stays a story list of that feed.
   */
  lemma AddStory(ss: seq<Story>, story: Story)
    requires StoryList(ss, story.feed, story.settings)
    requires !TitleTaken(FieldsOf(ss), story.title) && !LinkTaken(FieldsOf(ss), story.link)
    ensures var r := Ordering.Insert(ss, story, StoryPublished);
      && StoryList(r, story.feed, story.settings)
      && FieldsOf(r) == Merge(FieldsOf(ss), story.Fields())
  {
    var fs := FieldsOf(ss);
    forall i | 0 <= i < |ss| ensures StoriesApart(ss[i], story) && StoriesApart(story, ss[i]) {
      assert fs[i].title == ss[i].title && fs[i].link == ss[i].link;
    }
    InsertStoryList(ss, story);
    FieldsOfInsert(ss, story);
  }

  /** A story of the same feed, apart from every listed one, can be inserted into a story list. */
  lemma InsertStoryList(ss: seq<Story>, story: Story)
    requires StoryList(ss, story.feed, story.settings)
    requires forall i :: 0 <= i < |ss| ==> StoriesApart(ss[i], story) && StoriesApart(story, ss[i])
    ensures StoryList(Ordering.Insert(ss, story, StoryPublished), story.feed, story.settings)
  {
    assert Ordering.Pairwise(ss, StoriesApart);
    assert Ordering.NonIncreasing(ss, StoryPublished);
    Ordering.InsertKeepsPairwise(ss, story, StoryPublished, StoriesApart);
    Ordering.InsertSorted(ss, story, StoryPublished);
    var belongs := (t: Story) => t.feed == story.feed && t.settings == story.settings;
    assert forall i :: 0 <= i < |ss| ==> belongs(ss[i]);
    Ordering.InsertKeepsEach(ss, story, StoryPublished, belongs);
    var r := Ordering.Insert(ss, story, StoryPublished);
    assert Ordering.Pairwise(r, StoriesApart);
    assert Ordering.NonIncreasing(r, StoryPublished);
    assert forall i :: 0 <= i < |r| ==> belongs(r[i]);
  }

  /** The settings object: the feed list and the two identifier registries. */
  class Settings {
    var feeds: seq<Feed>
    var feedHashes: map<string, Feed>
    var storyHashes: map<string, Story>

    constructor (feeds: seq<Feed>)
      ensures this.feeds == feeds && feedHashes == map[] && storyHashes == map[]
    {
      this.feeds := feeds;
      feedHashes := map[];
      storyHashes := map[];
    }

    /**
     * `load_from_filesystem`, given what the settings file holds: one feed per record in
     * record order, with the record defaults, each registered under its stored
     * identifier (so feeds sharing one, such as several defaulted to "unknown", leave
     * only the last of them in the registry). Stories are not loaded yet.
     */
    static method LoadFromFilesystem(content: Option<seq<Record>>) returns (settings: Settings)
      ensures fresh(settings)
      ensures Stubs(settings.feeds) == LoadFeeds(content)
      ensures forall f :: f in settings.feeds ==>
        fresh(f) && f.settings == settings && f.stories == [] && !f.loaded
      ensures settings.feedHashes == Hashes.Register(map[], settings.feeds, FeedHash)
      ensures settings.storyHashes == map[]
    {
      settings := new Settings([]);
      var feeds := settings.NewFeeds(LoadFeeds(content));
      settings.feeds := feeds;
    }

    /**
     * The loop of `load_from_filesystem`: one new feed of these settings per stub, in
     * order, each registered under the stub's identifier as it is created.
     */
    method NewFeeds(stubs: seq<FeedStub>) returns (feeds: seq<Feed>)
      modifies this`feedHashes
      ensures Stubs(feeds) == stubs
      ensures forall f :: f in feeds ==>
        fresh(f) && f.settings == this && f.stories == [] && !f.loaded
      ensures feedHashes == Hashes.Register(old(feedHashes), feeds, FeedHash)
    {
      feeds := [];
      for i := 0 to |stubs|
        invariant Stubs(feeds) == stubs[..i]
        invariant forall f :: f in feeds ==>
          fresh(f) && f.settings == this && f.stories == [] && !f.loaded
        invariant feedHashes == Hashes.Register(old(feedHashes), feeds, FeedHash)
      {
        var stub := stubs[i];
        ghost var loaded := Stubs(feeds);
        var feed := new Feed(this, stub.title, stub.description, stub.link, Some(stub.hash));
        assert Stubs(feeds) == loaded;
        StubsStep(feeds, feed);
        Hashes.RegisterStep(old(feedHashes), feeds, feed, FeedHash);
        Lists.TakeNext(stubs, i);
        feeds := feeds + [feed];
      }
      Lists.TakeAll(stubs);
    }

    /** `save`: the settings file, one record per feed in list order. */
    method Save() returns (records: seq<Record>)
      ensures records == SaveFeeds(Stubs(feeds))
    {
      records := SaveFeeds(Stubs(feeds));
    }
  }

  class Feed {
    const settings: Settings
    var title: string
    var description: string
    const link: string
    var stories: seq<Story>
    var loaded: bool
    const hash: string

    /** The story list has no case-insensitive duplicates, is newest first, and is this feed's. */
    ghost predicate Valid()
      reads this`stories
    {
      StoryList(stories, this, settings)
    }

    /** The fields of a valid feed's stories have no duplicates and are newest first. */
    lemma ValidFields()
      requires Valid()
      ensures WellFormed(FieldsOf(stories))
    {
      var fs := FieldsOf(stories);
      forall i, j | 0 <= i < j < |fs| ensures Apart(fs[i], fs[j]) && fs[i].published >= fs[j].published {
        assert StoriesApart(stories[i], stories[j]);
      }
    }

    /** What `Settings.save` writes about this feed. */
    function Stub(): FeedStub
      reads this`title, this`description
    {
      FeedStub(title, description, link, hash)
    }

    /**
     * A new feed with no stories, registered in `settings.feedHashes`. Without a given
     * identifier it takes one not yet registered; a given one is used as it is and
     * overwrites any feed registered under it.
     */
    constructor (settings: Settings, title: string, description: string, link: string, hash: Option<string>)
      modifies settings`feedHashes
      ensures this.settings == settings && this.title == title && this.description == description
      ensures this.link == link && stories == [] && !loaded && Valid()
      ensures hash.Some? ==> this.hash == hash.value
      ensures hash.None? ==> this.hash !in old(settings.feedHashes)
      ensures settings.feedHashes == old(settings.feedHashes)[this.hash := this]
    {
      var h: string;
      if hash.Some? {
        h := hash.value;
      } else {
        Hashes.FreshKeyExists(settings.feedHashes);
        h :| h !in settings.feedHashes;
      }
      this.settings := settings;
      this.title := title;
      this.description := description;
      this.link := link;
      this.stories := [];
      this.loaded := false;
      this.hash := h;
      new;
      settings.feedHashes := settings.feedHashes[h := this];
    }

    /** `unread`: the number of unread stories. */
    function Unread(): (n: nat)
      reads this`stories, stories`unread
      ensures n <= |stories|
      ensures n == |set i | 0 <= i < |stories| && stories[i].unread|
    {
      CountUnread(stories)
    }

    /** `save`: the story file, one record per story in the current list order. */
    method Save() returns (records: seq<Record>)
      ensures records == SaveStories(FieldsOf(stories))
    {
      records := SaveStories(FieldsOf(stories));
    }

    /**
     * `add_story_if_needed`. A story whose title or link matches an existing one under
     * case folding is not added and nothing changes. Otherwise a new story with the given
     * fields, `unread` and `note` is created (registered under `h`: the given identifier,
     * or a fresh one) and inserted where the newest-first sort puts it. The ghost result
     * `h` names the identifier; on a duplicate it is only a candidate.
     */
    method AddStoryIfNeeded(title: string, published: Timestamp, category: string, link: string,
                            unread: bool, note: int, hash: Option<string>) returns (ghost h: string)
      requires Valid()
      modifies this`stories, settings`storyHashes
      ensures Valid()
      ensures FieldsOf(stories)
           == Merge(old(FieldsOf(stories)), StoryFields(title, published, category, link, unread, note, h))
      ensures hash.Some? ==> h == hash.value
      ensures hash.None? ==> h !in old(settings.storyHashes)
      ensures var taken := TitleTaken(old(FieldsOf(stories)), title) || LinkTaken(old(FieldsOf(stories)), link);
        && (taken ==> stories == old(stories) && settings.storyHashes == old(settings.storyHashes))
        && (!taken ==> && h in settings.storyHashes
                       && var s := settings.storyHashes[h];
                       && fresh(s) && s.hash == h
                       && stories == Ordering.Insert(old(stories), s, StoryPublished)
                       && settings.storyHashes == old(settings.storyHashes)[h := s])
    {
      var fs := FieldsOf(stories);
      if TitleTaken(fs, title) || LinkTaken(fs, link) {
        if hash.Some? {
          h := hash.value;
        } else {
          Hashes.FreshKeyExists(settings.storyHashes);
          h :| h !in settings.storyHashes;
        }
        return;
      }
      h := AddNewStory(title, published, category, link, unread, note, hash);
    }

    /** `add_story_if_needed` past its two duplicate checks: the story is created and inserted. */
    method AddNewStory(title: string, published: Timestamp, category: string, link: string,
                       unread: bool, note: int, hash: Option<string>) returns (ghost h: string)
      requires Valid()
      requires !TitleTaken(FieldsOf(stories), title) && !LinkTaken(FieldsOf(stories), link)
      modifies this`stories, settings`storyHashes
      ensures Valid()
      ensures FieldsOf(stories)
           == Merge(old(FieldsOf(stories)), StoryFields(title, published, category, link, unread, note, h))
      ensures hash.Some? ==> h == hash.value
      ensures hash.None? ==> h !in old(settings.storyHashes)
      ensures h in settings.storyHashes
      ensures var s := settings.storyHashes[h];
        && fresh(s) && s.hash == h
        && stories == Ordering.Insert(old(stories), s, StoryPublished)
        && settings.storyHashes == old(settings.storyHashes)[h := s]
    {
      ghost var fs := FieldsOf(stories);
      var story := new Story(settings, this, title, published, category, link, hash);
      assert FieldsOf(stories) == fs;
      story.unread, story.note := unread, note;
      assert FieldsOf(stories) == fs;
      h := story.hash;
      InsertStory(story);
    }

    /**
     * The append and the stable newest-first sort at the end of `add_story_if_needed`,
     * for a story of this feed whose title and link are both new.
     */
    method InsertStory(story: Story)
      requires Valid() && story.feed == this && story.settings == settings
      requires !TitleTaken(FieldsOf(stories), story.title) && !LinkTaken(FieldsOf(stories), story.link)
      modifies this`stories
      ensures Valid()
      ensures stories == Ordering.Insert(old(stories), story, StoryPublished)
      ensures FieldsOf(stories) == Merge(old(FieldsOf(stories)), story.Fields())
    {
      var before := stories;
      stories := Ordering.Insert(before, story, StoryPublished);
      AddStory(before, story);
    }

    /**
     * `load_stories_from_filesystem`, given what the story file holds: each record, with
     * the reload defaults and its stored `unread`, `note` and identifier, goes through
     * `add_story_if_needed` in file order; then the feed counts as loaded. `added` are
     * the new stories, in the order they were registered under their stored identifiers.
     */
    method LoadStoriesFromFilesystem(content: Option<seq<Record>>) returns (ghost added: seq<Story>)
      requires Valid()
      modifies this`stories, this`loaded, settings`storyHashes
      ensures Valid() && loaded
      ensures FieldsOf(stories) == MergeAll(old(FieldsOf(stories)), LoadStoryFields(content))
      ensures stories == Ordering.InsertAll(old(stories), added, StoryPublished)
      ensures settings.storyHashes == Hashes.Register(old(settings.storyHashes), added, StoryHash)
      ensures forall s :: s in added ==> fresh(s)
      ensures forall s :: s in added ==> s.hash in StoredHashes(LoadStoryFields(content))
    {
      added := AddRecords(LoadStoryFields(content));
      ghost var loadedStories := FieldsOf(stories);
      loaded := true;
      assert FieldsOf(stories) == loadedStories;
    }

    /**
     * The loop of `load_stories_from_filesystem`: each reloaded story goes through
     * `add_story_if_needed` in order; the stories it creates, `added`, are registered in
     * that order, a later one overwriting an earlier one with the same identifier.
     */
    method AddRecords(candidates: seq<StoryFields>) returns (ghost added: seq<Story>)
      requires Valid()
      modifies this`stories, settings`storyHashes
      ensures Valid()
      ensures FieldsOf(stories) == MergeAll(old(FieldsOf(stories)), candidates)
      ensures stories == Ordering.InsertAll(old(stories), added, StoryPublished)
      ensures settings.storyHashes == Hashes.Register(old(settings.storyHashes), added, StoryHash)
      ensures forall s :: s in added ==> fresh(s)
      ensures forall s :: s in added ==> s.hash in StoredHashes(candidates)
    {
      ghost var start := FieldsOf(stories);
      ghost var before := settings.storyHashes;
      ghost var initial := stories;
      added := [];
      for i := 0 to |candidates|
        invariant Valid()
        invariant FieldsOf(stories) == MergeAll(start, candidates[..i])
        invariant stories == Ordering.InsertAll(initial, added, StoryPublished)
        invariant settings.storyHashes == Hashes.Register(before, added, StoryHash)
        invariant forall s :: s in added ==> fresh(s)
        invariant forall s :: s in added ==> s.hash in StoredHashes(candidates)
      {
        var f := candidates[i];
        ghost var more := AddRecord(f);
        assert f.hash in StoredHashes(candidates);
        MergeAllPrefix(start, candidates, i);
        Hashes.RegisterAppend(before, added, more, StoryHash);
        Ordering.InsertAllAppend(initial, added, more, StoryPublished);
        added := added + more;
      }
      assert candidates[..|candidates|] == candidates;
    }

    /**
     * One pass of that loop: the reloaded story `f` goes through `add_story_if_needed`
     * with its stored identifier. A duplicate creates nothing; otherwise the one new
     * story, `added[0]`, is registered under `f.hash`, overwriting.
     */
    method AddRecord(f: StoryFields) returns (ghost added: seq<Story>)
      requires Valid()
      modifies this`stories, settings`storyHashes
      ensures Valid()
      ensures FieldsOf(stories) == Merge(old(FieldsOf(stories)), f)
      ensures var taken := TitleTaken(old(FieldsOf(stories)), f.title) || LinkTaken(old(FieldsOf(stories)), f.link);
        && (taken ==> added == [] && stories == old(stories) && settings.storyHashes == old(settings.storyHashes))
        && (!taken ==> && |added| == 1 && fresh(added[0]) && added[0].hash == f.hash
                       && stories == Ordering.Insert(old(stories), added[0], StoryPublished)
                       && settings.storyHashes == old(settings.storyHashes)[f.hash := added[0]])
      ensures forall s :: s in added ==> s.hash == f.hash
      ensures stories == Ordering.InsertAll(old(stories), added, StoryPublished)
      ensures settings.storyHashes == Hashes.Register(old(settings.storyHashes), added, StoryHash)
    {
      ghost var fs := FieldsOf(stories);
      ghost var h := AddStoryIfNeeded(f.title, f.published, f.category, f.link, f.unread, f.note, Some(f.hash));
      if TitleTaken(fs, f.title) || LinkTaken(fs, f.link) {
        added := [];
      } else {
        added := [settings.storyHashes[h]];
        Hashes.RegisterStep(old(settings.storyHashes), [], added[0], StoryHash);
        assert [] + added == added;
        Ordering.InsertAllOne(old(stories), added[0], StoryPublished);
      }
    }

    /**
     * One pass of `update_from_XML`'s item loop: the item's story, unread with note 0 and
     * a fresh identifier `h`, goes through `add_story_if_needed`. A duplicate creates
     * nothing; otherwise the one new story, `added[0]`, is registered under `h`.
     */
    method AddItem(item: Element, now: Timestamp, parseDate: string -> Timestamp)
      returns (ghost h: string, ghost added: seq<Story>)
      requires Valid()
      modifies this`stories, settings`storyHashes
      ensures Valid()
      ensures FieldsOf(stories) == Merge(old(FieldsOf(stories)), ItemStory(item, now, parseDate, h))
      ensures h !in old(settings.storyHashes)
      ensures var c := ItemStory(item, now, parseDate, h);
        var taken := TitleTaken(old(FieldsOf(stories)), c.title) || LinkTaken(old(FieldsOf(stories)), c.link);
        && (taken ==> added == [] && stories == old(stories) && settings.storyHashes == old(settings.storyHashes))
        && (!taken ==> && |added| == 1 && fresh(added[0]) && added[0].hash == h
                       && stories == Ordering.Insert(old(stories), added[0], StoryPublished)
                       && settings.storyHashes == old(settings.storyHashes)[h := added[0]])
      ensures forall s :: s in added ==> s.hash == h
      ensures stories == Ordering.InsertAll(old(stories), added, StoryPublished)
      ensures settings.storyHashes == Hashes.Register(old(settings.storyHashes), added, StoryHash)
      ensures forall k :: k in old(settings.storyHashes) ==>
        k in settings.storyHashes && settings.storyHashes[k] == old(settings.storyHashes)[k]
    {
      ghost var fs := FieldsOf(stories);
      var offered := ItemStory(item, now, parseDate, "");
      h := AddStoryIfNeeded(offered.title, offered.published, offered.category, offered.link, true, 0, None);
      assert ItemStory(item, now, parseDate, h) == offered.(hash := h);
      if TitleTaken(fs, offered.title) || LinkTaken(fs, offered.link) {
        added := [];
      } else {
        added := [settings.storyHashes[h]];
        Hashes.RegisterStep(old(settings.storyHashes), [], added[0], StoryHash);
        assert [] + added == added;
        Ordering.InsertAllOne(old(stories), added[0], StoryPublished);
      }
    }

    /**
     * `update_from_XML`'s item loop: every item, in order, goes through `AddItem`. The
     * i-th identifier drawn is `hs[i]`, none of them registered before the loop; the
     * stories created, `added`, are registered in order under identifiers from `hs`.
     */
    method AddItems(items: seq<Element>, clock: nat -> Timestamp, parseDate: string -> Timestamp)
      returns (ghost hs: seq<string>, ghost added: seq<Story>)
      requires Valid()
      modifies this`stories, settings`storyHashes
      ensures Valid()
      ensures |hs| == |items|
      ensures FieldsOf(stories) == MergeAll(old(FieldsOf(stories)), ItemStories(items, clock, parseDate, hs))
      ensures stories == Ordering.InsertAll(old(stories), added, StoryPublished)
      ensures forall j :: 0 <= j < |hs| ==> hs[j] !in old(settings.storyHashes)
      ensures settings.storyHashes == Hashes.Register(old(settings.storyHashes), added, StoryHash)
      ensures forall s :: s in added ==> fresh(s) && s.hash in hs
      ensures forall k :: k in old(settings.storyHashes) ==>
        k in settings.storyHashes && settings.storyHashes[k] == old(settings.storyHashes)[k]
    {
      ghost var start := FieldsOf(stories);
      ghost var before := settings.storyHashes;
      ghost var initial := stories;
      hs := [];
      added := [];
      for i := 0 to |items|
        invariant Valid()
        invariant |hs| == i
        invariant FieldsOf(stories) == MergeAll(start, ItemStories(items[..i], clock, parseDate, hs))
        invariant stories == Ordering.InsertAll(initial, added, StoryPublished)
        invariant Hashes.Grown(before, settings.storyHashes, added, StoryHash, hs)
        invariant forall s :: s in added ==> fresh(s)
      {
        hs, added := AddItemAt(items, clock, parseDate, i, start, initial, before, hs, added);
      }
      assert items[..|items|] == items;
      Hashes.RegisterKeepsUnused(before, added, StoryHash, hs);
    }

    /**
     * One pass of that loop with its bookkeeping: the item at `i` goes through `AddItem`;
     * the identifier drawn is appended to `hs`, and the story created, if any, to `added`.
     */
    method AddItemAt(items: seq<Element>, clock: nat -> Timestamp, parseDate: string -> Timestamp, i: nat,
                     ghost start: seq<StoryFields>, ghost initial: seq<Story>, ghost before: map<string, Story>,
                     ghost hs: seq<string>, ghost added: seq<Story>)
      returns (ghost hs': seq<string>, ghost added': seq<Story>)
      requires Valid() && i < |items| && |hs| == i
      requires FieldsOf(stories) == MergeAll(start, ItemStories(items[..i], clock, parseDate, hs))
      requires stories == Ordering.InsertAll(initial, added, StoryPublished)
      requires Hashes.Grown(before, settings.storyHashes, added, StoryHash, hs)
      modifies this`stories, settings`storyHashes
      ensures Valid() && |hs'| == i + 1
      ensures FieldsOf(stories) == MergeAll(start, ItemStories(items[..i + 1], clock, parseDate, hs'))
      ensures stories == Ordering.InsertAll(initial, added', StoryPublished)
      ensures Hashes.Grown(before, settings.storyHashes, added', StoryHash, hs')
      ensures forall s :: s in added' ==> s in added || fresh(s)
    {
      ghost var mid := settings.storyHashes;
      ghost var offered := ItemStories(items[..i], clock, parseDate, hs);
      ghost var h, more := AddItem(items[i], clock(i), parseDate);
      ghost var c := ItemStory(items[i], clock(i), parseDate, h);
      ItemStoriesStep(items, clock, parseDate, hs, h, i);
      MergeAllStep(start, offered, c);
      Hashes.GrownStep(before, mid, added, StoryHash, hs, h, more);
      Ordering.InsertAllAppend(initial, added, more, StoryPublished);
      hs', added' := hs + [h], added + more;
    }

    /**
     * `update_from_XML` on a parsed document: the feed's title and description become
     * the text of the first `title` and `description` elements anywhere in the document,
     * if any; then every `item`, in document order, is offered to `add_story_if_needed`
     * unread, with note 0 and a fresh identifier (the i-th in `hs`), and the stories
     * created, `added`, are registered in order; then the feed is saved.
     */
    method UpdateFromXml(parsed: Element, clock: nat -> Timestamp, parseDate: string -> Timestamp)
      returns (ghost hs: seq<string>, ghost added: seq<Story>, written: seq<Record>)
      requires Valid()
      modifies this`title, this`description, this`stories, settings`storyHashes
      ensures Valid()
      ensures title == FirstText(parsed, "title", old(title))
      ensures description == FirstText(parsed, "description", old(description))
      ensures |hs| == |Iter(parsed, "item")|
      ensures FieldsOf(stories)
           == MergeAll(old(FieldsOf(stories)), ItemStories(Iter(parsed, "item"), clock, parseDate, hs))
      ensures stories == Ordering.InsertAll(old(stories), added, StoryPublished)
      ensures forall j :: 0 <= j < |hs| ==> hs[j] !in old(settings.storyHashes)
      ensures settings.storyHashes == Hashes.Register(old(settings.storyHashes), added, StoryHash)
      ensures forall s :: s in added ==> fresh(s) && s.hash in hs
      ensures forall k :: k in old(settings.storyHashes) ==>
        k in settings.storyHashes && settings.storyHashes[k] == old(settings.storyHashes)[k]
      ensures written == SaveStories(FieldsOf(stories))
    {
      title := FirstText(parsed, "title", title);
      description := FirstText(parsed, "description", description);
      assert FieldsOf(stories) == old(FieldsOf(stories));
      hs, added := AddItems(Iter(parsed, "item"), clock, parseDate);
      written := Save();
    }

    /**
     * `load_stories_from_link`, given the response to the GET of the feed's link: on
     * status 200 with a well-formed body the document updates the feed; on any other
     * status, or a body that does not parse, nothing changes. The feed is saved in every
     * case, and `written` is that last save.
     */
    method LoadStoriesFromLink(response: Response, clock: nat -> Timestamp, parseDate: string -> Timestamp)
      returns (ghost hs: seq<string>, ghost added: seq<Story>, written: seq<Record>)
      requires Valid()
      modifies this`title, this`description, this`stories, settings`storyHashes
      ensures Valid()
      ensures !Fetched(response) ==>
        stories == old(stories) && title == old(title) && description == old(description)
        && settings.storyHashes == old(settings.storyHashes) && added == []
      ensures Fetched(response) ==>
        var doc := response.document.value;
        && title == FirstText(doc, "title", old(title))
        && description == FirstText(doc, "description", old(description))
        && |hs| == |Iter(doc, "item")|
        && FieldsOf(stories) == MergeAll(old(FieldsOf(stories)), ItemStories(Iter(doc, "item"), clock, parseDate, hs))
        && (forall j :: 0 <= j < |hs| ==> hs[j] !in old(settings.storyHashes))
        && (forall s :: s in added ==> fresh(s) && s.hash in hs)
        && forall k :: k in old(settings.storyHashes) ==>
             k in settings.storyHashes && settings.storyHashes[k] == old(settings.storyHashes)[k]
      ensures stories == Ordering.InsertAll(old(stories), added, StoryPublished)
      ensures settings.storyHashes == Hashes.Register(old(settings.storyHashes), added, StoryHash)
      ensures written == SaveStories(FieldsOf(stories))
    {
      hs, added := [], [];
      if Fetched(response) {
        hs, added, written := UpdateFromXml(response.document.value, clock, parseDate);
      }
      written := Save();
    }

    /**
     * `test_feed`, given the response to the GET of `link`: on status 200 with a
     * well-formed body, a new feed titled and described "unknown" with a fresh identifier
     * is updated from the document (which writes its story file, `written`), appended to
     * `settings.feeds` and returned; otherwise nothing is created, registered or written
     * and the result is `None`.
     */
    static method TestFeed(settings: Settings, link: string, response: Response,
                           clock: nat -> Timestamp, parseDate: string -> Timestamp)
      returns (feed: Option<Feed>, ghost hs: seq<string>, ghost added: seq<Story>, written: Option<seq<Record>>)
      modifies settings`feeds, settings`feedHashes, settings`storyHashes
      ensures feed.Some? <==> Fetched(response)
      ensures written.Some? <==> feed.Some?
      ensures feed.None? ==>
        settings.feeds == old(settings.feeds) && settings.feedHashes == old(settings.feedHashes)
        && settings.storyHashes == old(settings.storyHashes) && added == []
      ensures feed.Some? ==>
        var f := feed.value;
        var doc := response.document.value;
        && fresh(f) && f.Valid() && f.settings == settings && f.link == link && !f.loaded
        && f.hash !in old(settings.feedHashes)
        && settings.feeds == old(settings.feeds) + [f]
        && settings.feedHashes == old(settings.feedHashes)[f.hash := f]
        && f.title == FirstText(doc, "title", "unknown")
        && f.description == FirstText(doc, "description", "unknown")
        && |hs| == |Iter(doc, "item")|
        && FieldsOf(f.stories) == MergeAll([], ItemStories(Iter(doc, "item"), clock, parseDate, hs))
        && f.stories == Ordering.InsertAll([], added, StoryPublished)
        && written.value == SaveStories(FieldsOf(f.stories))
        && (forall j :: 0 <= j < |hs| ==> hs[j] !in old(settings.storyHashes))
        && (forall s :: s in added ==> fresh(s) && s.hash in hs)
        && forall k :: k in old(settings.storyHashes) ==>
             k in settings.storyHashes && settings.storyHashes[k] == old(settings.storyHashes)[k]
      ensures settings.storyHashes == Hashes.Register(old(settings.storyHashes), added, StoryHash)
    {
      hs, added := [], [];
      if !Fetched(response) {
        return None, hs, added, None;
      }
      var f, records;
      f, hs, added, records := FromXml(settings, link, response.document.value, clock, parseDate);
      ghost var fields := FieldsOf(f.stories);
      settings.feeds := settings.feeds + [f];
      assert FieldsOf(f.stories) == fields;
      feed, written := Some(f), Some(records);
    }

    /**
     * The body of a successful `test_feed` before the append: a new "unknown" feed updated
     * from `doc`; `written` is the story file that update saves.
     */
    static method FromXml(settings: Settings, link: string, doc: Element,
                          clock: nat -> Timestamp, parseDate: string -> Timestamp)
      returns (f: Feed, ghost hs: seq<string>, ghost added: seq<Story>, written: seq<Record>)
      modifies settings`feedHashes, settings`storyHashes
      ensures fresh(f) && f.Valid() && f.settings == settings && f.link == link && !f.loaded
      ensures f.hash !in old(settings.feedHashes)
      ensures settings.feedHashes == old(settings.feedHashes)[f.hash := f]
      ensures f.title == FirstText(doc, "title", "unknown")
      ensures f.description == FirstText(doc, "description", "unknown")
      ensures |hs| == |Iter(doc, "item")|
      ensures FieldsOf(f.stories) == MergeAll([], ItemStories(Iter(doc, "item"), clock, parseDate, hs))
      ensures f.stories == Ordering.InsertAll([], added, StoryPublished)
      ensures written == SaveStories(FieldsOf(f.stories))
      ensures forall j :: 0 <= j < |hs| ==> hs[j] !in old(settings.storyHashes)
      ensures settings.storyHashes == Hashes.Register(old(settings.storyHashes), added, StoryHash)
      ensures forall s :: s in added ==> fresh(s) && s.hash in hs
      ensures forall k :: k in old(settings.storyHashes) ==>
        k in settings.storyHashes && settings.storyHashes[k] == old(settings.storyHashes)[k]
    {
      f := new Feed(settings, "unknown", "unknown", link, None);
      hs, added, written := f.UpdateFromXml(doc, clock, parseDate);
    }
  }

  class Story {
    const settings: Settings
    const feed: Feed
    const title: string
    const published: Timestamp
    const category: string
    const link: string
    const hash: string
    var unread: bool
    var note: int

    /**
     * A new story, unread with note 0, registered in `settings.storyHashes`: under the
     * given identifier without any check, or under one not yet registered.
     */
    constructor (settings: Settings, feed: Feed, title: string, published: Timestamp,
                 category: string, link: string, hash: Option<string>)
      modifies settings`storyHashes
      ensures this.settings == settings && this.feed == feed
      ensures this.title == title && this.published == published
      ensures this.category == category && this.link == link
      ensures unread && note == 0
      ensures hash.Some? ==> this.hash == hash.value
      ensures hash.None? ==> this.hash !in old(settings.storyHashes)
      ensures settings.storyHashes == old(settings.storyHashes)[this.hash := this]
    {
      var h: string;
      if hash.Some? {
        h := hash.value;
      } else {
        Hashes.FreshKeyExists(settings.storyHashes);
        h :| h !in settings.storyHashes;
      }
      this.settings := settings;
      this.feed := feed;
      this.title := title;
      this.published := published;
      this.category := category;
      this.link := link;
      this.unread := true;
      this.note := 0;
      this.hash := h;
      new;
      settings.storyHashes := settings.storyHashes[h := this];
    }

    /** What `Feed.save` writes about this story. */
    function Fields(): StoryFields
      reads this`unread, this`note
    {
      StoryFields(title, published, category, link, unread, note, hash)
    }

    /**
     * `next_unread`: the first unread story after this story's first position in its
     * feed, or `None`. This story must be in the list (`list.index` raises otherwise).
     */
    function NextUnread(): (r: Option<Story>)
      reads feed`stories, feed.stories`unread
      requires this in feed.stories
      ensures var ss := feed.stories;
        var i := IndexOf(ss, this);
        && (r.None? <==> forall k :: i < k < |ss| ==> !ss[k].unread)
        && (r.Some? ==> exists j :: (i < j < |ss| && ss[j] == r.value && r.value.unread
                                     && forall k :: i < k < j ==> !ss[k].unread))
    {
      var ss := feed.stories;
      var i := IndexOf(ss, this);
      var tail := ss[i + 1..];
      var r := FirstUnread(tail);
      assert forall k :: i < k < |ss| ==> ss[k] == tail[k - i - 1];
      r
    }

    /**
     * `open_in_browser`: an unread story becomes read and its feed is saved; a story
     * already read is left alone and nothing is saved. Opening the link is not modelled.
     */
    method OpenInBrowser() returns (written: Option<seq<Record>>)
      modifies this`unread
      ensures !unread && note == old(note)
      ensures written.Some? <==> old(unread)
      ensures written.Some? ==> written.value == SaveStories(FieldsOf(feed.stories))
    {
      written := None;
      if unread {
        unread := false;
        var records := feed.Save();
        written := Some(records);
      }
    }

    /** `decrease_note`: the story becomes read; the note goes down unless at -2, and only then is the feed saved. */
    method DecreaseNote() returns (written: Option<seq<Record>>)
      modifies this`unread, this`note
      ensures !unread && note == StoryText.Decreased(old(note))
      ensures written.Some? <==> note != old(note)
      ensures written.Some? ==> written.value == SaveStories(FieldsOf(feed.stories))
    {
      unread := false;
      written := None;
      if note > -2 {
        note := note - 1;
        var records := feed.Save();
        written := Some(records);
      }
    }

    /** `increase_note`: the story becomes read; the note goes up unless at 3, and only then is the feed saved. */
    method IncreaseNote() returns (written: Option<seq<Record>>)
      modifies this`unread, this`note
      ensures !unread && note == StoryText.Increased(old(note))
      ensures written.Some? <==> note != old(note)
      ensures written.Some? ==> written.value == SaveStories(FieldsOf(feed.stories))
    {
      unread := false;
      written := None;
      if note < 3 {
        note := note + 1;
        var records := feed.Save();
        written := Some(records);
      }
    }
  }

  /**
   * The three-story example: A unread, B read, C unread, in that order. From A and from
   * B the next unread story is C; from C there is none.
   */
  lemma NextUnreadExample(a: Story, b: Story, c: Story)
    requires a.feed == b.feed == c.feed && a.feed.stories == [a, b, c]
    requires a.unread && !b.unread && c.unread && a != c
    ensures a.NextUnread() == Some(c)
    ensures b.NextUnread() == Some(c)
    ensures c.NextUnread() == None
  {
    var ss := a.feed.stories;
    assert IndexOf(ss, a) == 0;
    assert IndexOf(ss, b) == 1;
    assert IndexOf(ss, c) == 2;
  }

  /**
   * What a feed saves, reloaded into a fresh feed, gives back the same stories with the
   * same fields in the same order.
   */
  lemma ReloadSavedFeed(saved: Feed)
    requires saved.Valid()
    ensures MergeAll([], LoadStoryFields(Some(SaveStories(FieldsOf(saved.stories))))) == FieldsOf(saved.stories)
  {
    saved.ValidFields();
    ReloadSaved(FieldsOf(saved.stories));
  }
}
