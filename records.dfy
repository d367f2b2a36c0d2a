/**
 * The persisted records. Each file holds a list of mappings that `yaml.dump(...,
 * sort_keys=False)` writes with their keys in insertion order; a mapping is modelled as
 * its ordered key/value pairs. YAML text itself is not modelled.
 */
module Records {
  import opened Wrappers

  datatype Value = Str(s: string) | Flag(b: bool) | Num(n: int) | Stamp(t: int)

  type Record = seq<(string, Value)>

  /** The keys of a mapping, in order. */
  function Keys(r: Record): (ks: seq<string>)
    ensures |ks| == |r|
    ensures forall i :: 0 <= i < |r| ==> ks[i] == r[i].0
  {
    if r == [] then [] else [r[0].0] + Keys(r[1..])
  }

  /** The value stored under `key`, when present: the value of the first pair carrying `key` (see `GetAt`). */
  function Get(r: Record, key: string): (v: Option<Value>)
    ensures v.None? <==> key !in Keys(r)
  {
    if r == [] then None
    else if r[0].0 == key then Some(r[0].1)
    else
      assert Keys(r) == [r[0].0] + Keys(r[1..]);
      Get(r[1..], key)
  }

  /** The value of the first pair carrying `key` is what `Get` finds. */
  lemma {:induction false} GetAt(r: Record, key: string, i: nat)
    requires i < |r| && r[i].0 == key
    requires forall j :: 0 <= j < i ==> r[j].0 != key
    ensures Get(r, key) == Some(r[i].1)
  {
    if i > 0 {
      GetAt(r[1..], key, i - 1);
    }
  }

  /** The text stored under `key`, or `default` when it is missing (a value of another type reads as missing). */
  function GetText(r: Record, key: string, default: string): string {
    match Get(r, key)
    case Some(Str(s)) => s
    case _ => default
  }

  function GetFlag(r: Record, key: string, default: bool): bool {
    match Get(r, key)
    case Some(Flag(b)) => b
    case _ => default
  }

  function GetNum(r: Record, key: string, default: int): int {
    match Get(r, key)
    case Some(Num(n)) => n
    case _ => default
  }

  function GetStamp(r: Record, key: string, default: int): int {
    match Get(r, key)
    case Some(Stamp(t)) => t
    case _ => default
  }

  /** The list a file holds; anything that is not a list (an empty file included) reads as no records. */
  function RecordList(content: Option<seq<Record>>): seq<Record> {
    content.GetOr([])
  }

  // ---------------------------------------------------------------- stories

  /** Everything `Feed.save` writes about one story. Timestamps are seconds. */
  datatype StoryFields = StoryFields(
    title: string, published: int, category: string, link: string,
    unread: bool, note: int, hash: string)

  /** Timestamp given to a reloaded record that has no `published` key. */
  const UnknownPublished: int := 0

  const StoryKeys: seq<string> := ["title", "published", "category", "link", "unread", "note", "hash"]

  /** One entry of a feed's story file, keys in the order `Feed.save` writes them. */
  function StoryRecord(f: StoryFields): Record {
    [("title", Str(f.title)), ("published", Stamp(f.published)), ("category", Str(f.category)),
     ("link", Str(f.link)), ("unread", Flag(f.unread)), ("note", Num(f.note)), ("hash", Str(f.hash))]
  }

  /** The fields `load_stories_from_filesystem` takes from one record, with its defaults for missing keys. */
  function StoryFromRecord(r: Record): StoryFields
  {
    StoryFields(
      GetText(r, "title", "unknown"), GetStamp(r, "published", UnknownPublished),
      GetText(r, "category", "unknown"), GetText(r, "link", ""),
      GetFlag(r, "unread", true), GetNum(r, "note", 0), GetText(r, "hash", "unknown"))
  }

  /** Every missing key of a story record takes the reload default. */
  lemma StoryRecordDefaults(r: Record)
    ensures "title" !in Keys(r) ==> StoryFromRecord(r).title == "unknown"
    ensures "published" !in Keys(r) ==> StoryFromRecord(r).published == UnknownPublished
    ensures "category" !in Keys(r) ==> StoryFromRecord(r).category == "unknown"
    ensures "link" !in Keys(r) ==> StoryFromRecord(r).link == ""
    ensures "unread" !in Keys(r) ==> StoryFromRecord(r).unread
    ensures "note" !in Keys(r) ==> StoryFromRecord(r).note == 0
    ensures "hash" !in Keys(r) ==> StoryFromRecord(r).hash == "unknown"
  {
  }

  /** A saved entry has exactly the seven keys, in the order they are written. */
  lemma StoryRecordKeys(f: StoryFields)
    ensures Keys(StoryRecord(f)) == StoryKeys
  {
  }

  /** A saved entry reads back as the story it was written from. */
  lemma StoryRecordRoundTrip(f: StoryFields)
    ensures StoryFromRecord(StoryRecord(f)) == f
  {
    StoryRecordLeading(f);
    StoryRecordUnread(f);
    StoryRecordNote(f);
    StoryRecordHash(f);
  }

  /** The first four keys of a saved entry give back title, published, category and link. */
  lemma StoryRecordLeading(f: StoryFields)
    ensures var r := StoryRecord(f);
      && Get(r, "title") == Some(Str(f.title)) && Get(r, "published") == Some(Stamp(f.published))
      && Get(r, "category") == Some(Str(f.category)) && Get(r, "link") == Some(Str(f.link))
  {
    var r := StoryRecord(f);
    GetAt(r, "title", 0);
    GetAt(r, "published", 1);
    GetAt(r, "category", 2);
    GetAt(r, "link", 3);
  }

  lemma StoryRecordUnread(f: StoryFields)
    ensures Get(StoryRecord(f), "unread") == Some(Flag(f.unread))
  {
    var r := StoryRecord(f);
    assert |r[0].0| == 5 && |r[1].0| == 9 && |r[2].0| == 8 && |r[3].0| == 4;
    GetAt(r, "unread", 4);
  }

  lemma StoryRecordNote(f: StoryFields)
    ensures Get(StoryRecord(f), "note") == Some(Num(f.note))
  {
    var r := StoryRecord(f);
    assert |r[0].0| == 5 && |r[1].0| == 9 && |r[2].0| == 8 && |r[4].0| == 6;
    assert r[3].0 != "note" by { assert r[3].0[0] != "note"[0]; }
    GetAt(r, "note", 5);
  }

  lemma StoryRecordHash(f: StoryFields)
    ensures Get(StoryRecord(f), "hash") == Some(Str(f.hash))
  {
    var r := StoryRecord(f);
    assert |r[0].0| == 5 && |r[1].0| == 9 && |r[2].0| == 8 && |r[4].0| == 6;
    assert r[3].0 != "hash" by { assert r[3].0[0] != "hash"[0]; }
    assert r[5].0 != "hash" by { assert r[5].0[0] != "hash"[0]; }
    GetAt(r, "hash", 6);
  }

  /** The whole story file `Feed.save` writes: one entry per story, in list order. */
  function SaveStories(fs: seq<StoryFields>): (rs: seq<Record>)
    ensures |rs| == |fs|
    ensures forall i :: 0 <= i < |fs| ==> rs[i] == StoryRecord(fs[i])
  {
    seq(|fs|, i requires 0 <= i < |fs| => StoryRecord(fs[i]))
  }

  /** The identifiers the stories of `fs` carry. */
  function StoredHashes(fs: seq<StoryFields>): set<string> {
    set f | f in fs :: f.hash
  }

  /** What the reload reads from a story file, one value per record in file order. */
  function LoadStoryFields(content: Option<seq<Record>>): (fs: seq<StoryFields>)
    ensures |fs| == |RecordList(content)|
    ensures forall i :: 0 <= i < |fs| ==> fs[i] == StoryFromRecord(RecordList(content)[i])
  {
    var rs := RecordList(content);
    seq(|rs|, i requires 0 <= i < |rs| => StoryFromRecord(rs[i]))
  }

  /** Reading a saved story file gives back the saved stories, in order. */
  lemma SaveStoriesRoundTrip(fs: seq<StoryFields>)
    ensures LoadStoryFields(Some(SaveStories(fs))) == fs
  {
    forall i | 0 <= i < |fs| ensures LoadStoryFields(Some(SaveStories(fs)))[i] == fs[i] {
      StoryRecordRoundTrip(fs[i]);
    }
  }

  // ---------------------------------------------------------------- feeds

  /** What the settings file stores about a feed. */
  datatype FeedStub = FeedStub(title: string, description: string, link: string, hash: string)

  const FeedKeys: seq<string> := ["title", "description", "link", "hash"]

  /** One entry of the settings file, keys in the order `Settings.save` writes them. */
  function FeedRecord(s: FeedStub): Record {
    [("title", Str(s.title)), ("description", Str(s.description)), ("link", Str(s.link)), ("hash", Str(s.hash))]
  }

  /** The fields `Settings.load_from_filesystem` takes from one record; every missing key reads "unknown". */
  function FeedFromRecord(r: Record): FeedStub
  {
    FeedStub(GetText(r, "title", "unknown"), GetText(r, "description", "unknown"),
             GetText(r, "link", "unknown"), GetText(r, "hash", "unknown"))
  }

  /** Every missing key of a feed record reads "unknown". */
  lemma FeedRecordDefaults(r: Record)
    ensures "title" !in Keys(r) ==> FeedFromRecord(r).title == "unknown"
    ensures "description" !in Keys(r) ==> FeedFromRecord(r).description == "unknown"
    ensures "link" !in Keys(r) ==> FeedFromRecord(r).link == "unknown"
    ensures "hash" !in Keys(r) ==> FeedFromRecord(r).hash == "unknown"
  {
  }

  /** A saved feed entry has exactly the four keys, in the order they are written. */
  lemma FeedRecordKeys(s: FeedStub)
    ensures Keys(FeedRecord(s)) == FeedKeys
  {
  }

  /** A saved feed entry reads back as the feed it was written from. */
  lemma FeedRecordRoundTrip(s: FeedStub)
    ensures FeedFromRecord(FeedRecord(s)) == s
  {
    var r := FeedRecord(s);
    assert GetText(r, "title", "unknown") == s.title by { GetAt(r, "title", 0); }
    assert GetText(r, "description", "unknown") == s.description by { GetAt(r, "description", 1); }
    assert GetText(r, "link", "unknown") == s.link by { GetAt(r, "link", 2); }
    assert GetText(r, "hash", "unknown") == s.hash by { GetAt(r, "hash", 3); }
  }

  /** The settings file `Settings.save` writes: one entry per feed, in list order. */
  function SaveFeeds(ss: seq<FeedStub>): (rs: seq<Record>)
    ensures |rs| == |ss|
    ensures forall i :: 0 <= i < |ss| ==> rs[i] == FeedRecord(ss[i])
  {
    seq(|ss|, i requires 0 <= i < |ss| => FeedRecord(ss[i]))
  }

  /** The feeds the settings file describes, one per record in file order; no list gives no feeds. */
  function LoadFeeds(content: Option<seq<Record>>): (ss: seq<FeedStub>)
    ensures |ss| == |RecordList(content)|
    ensures content.None? ==> ss == []
    ensures forall i :: 0 <= i < |ss| ==> ss[i] == FeedFromRecord(RecordList(content)[i])
  {
    var rs := RecordList(content);
    seq(|rs|, i requires 0 <= i < |rs| => FeedFromRecord(rs[i]))
  }

  /** Saving the feed list and loading it again gives the same title, description, link and hash, in order. */
  lemma SaveFeedsRoundTrip(ss: seq<FeedStub>)
    ensures LoadFeeds(Some(SaveFeeds(ss))) == ss
  {
    forall i | 0 <= i < |ss| ensures LoadFeeds(Some(SaveFeeds(ss)))[i] == ss[i] {
      FeedRecordRoundTrip(ss[i]);
    }
  }
}
