# campi: story merge and story state

A Dafny model of the core of campi, a small desktop RSS reader. It covers three parts:

- **The feed's story merge** (`Feed.add_story_if_needed`). A candidate story is dropped
  when its title or its link matches one already in the feed, compared case-insensitively.
  Otherwise it is appended and the list is re-sorted newest first.
- **The code around the merge:**
  - identifier allocation and registration in the settings' two registries;
  - the unread count;
  - per-item field extraction, with defaults, from a parsed feed document;
  - the reload defaults and the record shape of the story file;
  - the success and failure paths of refreshing and discovering a feed.
- **The state of one story:**
  - its recency text, note symbol and status column;
  - the next-unread scan;
  - the small state machine over `(unread, note)` behind opening a story and pressing − or +.

It also covers the settings registry: loading feed records into `Feed` objects and saving them back.

Layout:

- `wrappers.dfy`: `Option`.
- `lists.dfy`: two facts about sequence prefixes that the loops use.
- `text.dfy`: ASCII case folding and decimal rendering.
- `xml.dfy`: the parsed element tree, with `iter` (pre-order search by tag) and `find` (first direct child with a tag).
- `records.dfy`: the records the two YAML files hold, their defaults and their round trips.
- `hashes.dfy`: identifier registries.
- `ordering.dfy`: the append-then-stable-descending-sort step.
- `merge.dfy`: the merge rule on story values.
- `storytext.dfy`: the pure display functions of a story and its note arithmetic.
- `campi.dfy`: the classes `Settings`, `Feed` and `Story`, whose methods update their fields as the program does.

Each mutator of a feed's story list is tied to the value-level merge through `FieldsOf(stories)`. It states the new list as `Merge`/`MergeAll` of the old one. The properties of the merge are proved once, in `merge.dfy`. Every method also keeps `Feed.Valid()`: no two stories share a case-folded title or link, the list is newest first, and every story belongs to this feed.

Saves are modelled as the record lists they would write. A fetch is given its HTTP status and, when the body parsed, the document tree. Date parsing is a function parameter (`parseDate`). The current time is a parameter too: a single `now` for one item, and a clock `clock(i)` giving the reading taken for the `i`-th item of a document, since the code reads the time afresh for each undated item.

Each method that adds stories also returns, as the ghost result `added`, the stories it created, in the order it created them. Two facts tie them to the state afterwards:

- the story list is the old one with the stories of `added` inserted one after another, each where the newest-first sort puts it (`Ordering.InsertAll`); so the list holds exactly the old stories and the new ones, and is longer by `|added|` (`Ordering.InsertAllMembers`, `Ordering.InsertAllPermutation`);
- the story registry is the old one with the stories of `added` registered in that order (`Hashes.Register`), a later one overwriting an earlier one with the same identifier.

On a reload, every new story carries an identifier stored in one of the records (`Records.StoredHashes`); on an update from a document, one of the identifiers drawn for the items.

Two behaviours of the code are worth knowing:

- The note is not clamped to [-3, 3]. The − and + presses stop at -2 and +3 (`StoryText.Decreased`, `StoryText.Increased`, `StoryText.PressesStayInRange`). A note read back from a story file is used as it is.
- A feed's title and description become the text of the first `title` / `description` element anywhere in the document, in pre-order. When the channel has no such element, that can be an item's element (`Xml.FirstText`).

## Model

| member | source | states |
|---|---|---|
| Text.Lower | src/campi/feed.py:193-197 | case folding keeps the length and lower-cases each character, so the result holds no upper-case letter |
| Text.LowerIdempotent | src/campi/feed.py:193-197 | folding a folded string changes nothing |
| Text.DigitsRoundTrip | src/campi/story.py:84-90 | the decimal text of a count reads back as that count |
| Text.DigitsInjective | src/campi/story.py:84-90 | different counts render as different texts |
| Xml.IterIsFilteredPreOrder | src/campi/feed.py:123-132 | `iter(tag)` is the pre-order walk of the whole subtree, root included, filtered by tag |
| Xml.Iter | src/campi/feed.py:123-132 | every element found carries the tag; a root with the tag comes first |
| Xml.FirstText | src/campi/feed.py:123-129 | the text of the first pre-order element with the tag, or the old value when there is none |
| Xml.Find | src/campi/feed.py:136-161 | `None` iff no direct child has the tag, else the first such child |
| Xml.ChildText | src/campi/feed.py:136-161 | the first matching child's text, or the given default |
| Records.LoadStoryFields | src/campi/feed.py:88-98 | one story value per record in file order, none for content that is not a list |
| Records.StoryRecordDefaults | src/campi/feed.py:91-97 | a missing key reloads as title "unknown", category "unknown", link "", unread true, note 0, hash "unknown" |
| Records.StoryRecordKeys | src/campi/feed.py:175-183 | a saved story entry has exactly the keys title, published, category, link, unread, note, hash, in that order |
| Records.StoryRecordRoundTrip | src/campi/feed.py:91-98 | a saved story entry reloads as the story it was written from |
| Records.SaveStories | src/campi/feed.py:175-183 | one entry per story, in list order |
| Records.SaveStoriesRoundTrip | src/campi/feed.py:88-98 | reloading a saved story file gives back the saved values in order |
| Records.LoadFeeds | src/settings.py:64-73 | one feed stub per record in order; content that is not a list gives no feeds |
| Records.FeedRecordDefaults | src/settings.py:69-72 | a missing title, description, link or hash key reads as "unknown" |
| Records.FeedRecordKeys | src/settings.py:85-90 | a saved feed entry has exactly the keys title, description, link, hash, in that order |
| Records.FeedRecordRoundTrip | src/settings.py:68-73 | a saved feed entry reloads with the same title, description, link and hash |
| Records.SaveFeeds | src/settings.py:85-90 | one entry per feed, in list order |
| Records.SaveFeedsRoundTrip | src/settings.py:64-90 | reloading a saved settings file gives back the saved feeds in order |
| Hashes.FreshKeyExists | src/campi/feed.py:59-65 | some identifier is not yet registered, so the retry loop has a value to stop at |
| Hashes.RegisterKeys | src/settings.py:68-73 | after the load loop the registered identifiers are exactly those of the loaded feeds |
| Hashes.RegisterLastWins | src/settings.py:68-73 | under a shared identifier the registry holds the last feed carrying it; earlier ones are overwritten |
| Hashes.RegisterKeepsOthers | src/settings.py:68-73 | an identifier no loaded feed carries keeps its entry |
| Hashes.RegisterAppend | src/campi/story.py:60-61 | registering one series and then another is registering the two in sequence |
| Hashes.RegisterKeepsUnused | src/campi/story.py:53-61 | when every identifier registered was unregistered before, every old entry survives |
| Ordering.InsertPlacement | src/campi/feed.py:201-203 | on a newest-first list, the new story lands after every story at least as new and before every older one; the old order is kept |
| Ordering.InsertSorted | src/campi/feed.py:201-203 | the list stays newest first |
| Ordering.InsertPermutation | src/campi/feed.py:201-203 | the result is the old list plus the new story, as a multiset, one longer |
| Ordering.InsertMembers | src/campi/feed.py:201-203 | the stories afterwards are the old ones and the new one |
| Ordering.InsertIndex | src/campi/feed.py:201-203 | position by position: the prefix, the new story, the rest shifted by one |
| Ordering.InsertOldest | src/campi/feed.py:201-203 | a story no newer than all the others is appended at the end |
| Ordering.InsertAllAppend | src/campi/feed.py:201-203 | inserting one series and then another is inserting the two in sequence |
| Ordering.InsertAllOne | src/campi/feed.py:201-203 | inserting a series of one story is a single insertion |
| Ordering.InsertAllPermutation | src/campi/feed.py:201-203 | a series of insertions gives the old list plus the new stories, as a multiset, longer by their number |
| Ordering.InsertAllMembers | src/campi/feed.py:201-203 | afterwards a story is in the list iff it was there before or is one of those inserted |
| Ordering.InsertKeepsPairwise | src/campi/feed.py:193-203 | a pairwise property survives inserting a story compatible with every old one |
| StoryMerge.MergeRejects | src/campi/feed.py:193-197 | a candidate whose title or link matches an existing one, case-insensitively, leaves the list unchanged |
| StoryMerge.MergeAccepts | src/campi/feed.py:199-203 | any other candidate makes the list one longer: a permutation of old plus candidate, with the candidate between the newer and the older stories |
| StoryMerge.MergeWellFormed | src/campi/feed.py:189-203 | a merge keeps the list free of case-insensitive duplicates and newest first |
| StoryMerge.MergeAllWellFormed | src/campi/feed.py:189-203 | so does any series of merges |
| StoryMerge.MergeKeeps | src/campi/feed.py:189-203 | a merge never loses a story and adds at most one |
| StoryMerge.MergeCovers | src/campi/feed.py:193-202 | afterwards the candidate's title or link is taken |
| StoryMerge.AtMostOneEmptyLink | src/campi/feed.py:163 | in a feed without duplicates at most one story has the empty link |
| StoryMerge.SameTitleMergedOnce | src/campi/feed.py:193-194 | two items whose titles differ only in case give one story |
| StoryMerge.ReloadSaved | src/campi/feed.py:88-98 | reloading a saved well-formed story list into an empty feed gives back the same list |
| StoryText.Ago | src/campi/story.py:78-90 | the recency buckets below 5 s, 1 min, 1 h, 1 day and 2 days, with truncated, never singularised counts |
| StoryText.AgoHalfMinute | src/campi/story.py:81-82 | 30 seconds read "less than a minute ago" |
| StoryText.AgoNinetyMinutes | src/campi/story.py:85-86 | 90 minutes read "1 hours ago" |
| StoryText.AgoDays | src/campi/story.py:87-90 | 36 hours read "a day ago"; three days and seven seconds read "3 days ago" |
| StoryText.NoteAsSymbol | src/campi/story.py:93-103 | "0" iff the note is 0; else min(abs(note), 3) copies of `+` or `-` |
| StoryText.NoteAsSymbolExamples | src/campi/story.py:93-103 | 0, 2 and -5 show as "0", "++" and "---" |
| StoryText.StatusText | src/campi/story.py:106-111 | "U" iff unread; the note symbol otherwise |
| StoryText.Decreased | src/campi/story.py:134-139 | the note goes down by one iff it is above -2; from -2 or more it stays at least -2 |
| StoryText.Increased | src/campi/story.py:141-146 | the note goes up by one iff it is below 3; from 3 or less it stays at most 3 |
| StoryText.PressesStayInRange | src/campi/story.py:134-146 | from a note in [-2, 3], any series of presses stays in [-2, 3] |
| StoryText.PressesNeverExceedThree | src/campi/story.py:141-146 | from a note of at most 3, presses never go above 3 |
| Campi.CountUnread | src/campi/feed.py:73-75 | the count of unread stories, at most the number of stories |
| Campi.Feed.Unread | src/campi/feed.py:73-75 | `unread` is the size of the set of unread positions, at most the list length |
| Campi.IndexOf | src/campi/story.py:117 | `list.index`: the first position holding the story |
| Campi.FirstUnread | src/campi/story.py:120-124 | `None` iff no story is unread, else the first unread one |
| Campi.Story.NextUnread | src/campi/story.py:114-124 | the first unread story strictly after this story's first position, or `None` iff there is none |
| Campi.NextUnreadExample | src/campi/story.py:114-124 | in A (unread), B, C (unread): from A and from B the next is C; from C there is none |
| Campi.ItemDefaults | src/campi/feed.py:132-163 | an item's title defaults to "unknown"; date from `pubDate`, else `submitted`, else now; category "unknown"; link ""; unread, note 0 |
| Campi.ItemStoriesPointwise | src/campi/feed.py:132-165 | one offered story per item, in document order, the `i`-th built with the clock reading `clock(i)` and the identifier `hs[i]` |
| Campi.FieldsOfInsert | src/campi/feed.py:201-203 | inserting a story and then reading the fields equals reading the fields and then inserting |
| Campi.AddStory | src/campi/feed.py:199-203 | a story whose title and link are new keeps the list a valid story list; its fields follow `Merge` |
| Campi.InsertStoryList | src/campi/feed.py:201-203 | inserting a story of the same feed, apart from all others, keeps a valid story list |
| Campi.Settings.constructor | src/settings.py:43-48 | the given feeds and two empty registries |
| Campi.Settings.LoadFromFilesystem | src/settings.py:64-75 | the feeds are those the records describe, in order, new, with no stories and not loaded; the feed registry is those feeds registered in order; the story registry is empty |
| Campi.Settings.NewFeeds | src/settings.py:66-73 | the load loop: one new feed per stub, each registered as it is created |
| Campi.Settings.Save | src/settings.py:85-90 | the records are one entry per feed, in list order |
| Campi.Feed.constructor | src/campi/feed.py:50-67 | no stories, not loaded; without an identifier it takes an unregistered one; in every case the feed registry maps the identifier to this feed, overwriting |
| Campi.Feed.ValidFields | src/campi/feed.py:189-203 | the fields of a valid feed's stories have no duplicates and are newest first |
| Campi.Feed.Save | src/campi/feed.py:175-183 | the records are one entry per story, in current list order |
| Campi.Feed.AddStoryIfNeeded | src/campi/feed.py:189-203 | a duplicate title or link leaves stories and the story registry unchanged; otherwise a new story with the given fields is registered and inserted where the sort puts it; stories follow `Merge` and stay valid |
| Campi.Feed.AddNewStory | src/campi/feed.py:199-203 | past the duplicate checks: a fresh story, registered under its identifier, inserted in order |
| Campi.Feed.InsertStory | src/campi/feed.py:201-203 | the append and the newest-first sort keep the feed valid and follow `Merge` |
| Campi.Feed.LoadStoriesFromFilesystem | src/campi/feed.py:88-100 | every reloaded record goes through the merge in file order; the stories created are new, each carries an identifier stored in a record, and they are inserted into the list in order and registered in order under their stored identifiers, overwriting; then the feed is loaded |
| Campi.Feed.AddRecords | src/campi/feed.py:90-98 | the reload loop: the stories follow `MergeAll` over the records; the list is the old one with the new stories inserted in order; each new story is fresh and carries a stored identifier; the story registry is the old one with the new stories registered in order |
| Campi.Feed.AddRecord | src/campi/feed.py:91-98 | one reloaded record goes through the merge with its stored identifier, unread and note; a duplicate leaves stories and registry unchanged and creates nothing, otherwise exactly one new story with the stored identifier is inserted and registered under it, overwriting |
| Campi.Feed.AddItem | src/campi/feed.py:132-165 | one item goes through the merge as an unread story with note 0 and an unregistered identifier `h`; a duplicate leaves stories and registry unchanged and creates nothing, otherwise exactly one new story with identifier `h` is inserted and registered under `h`, and nothing else is registered |
| Campi.Feed.AddItemAt | src/campi/feed.py:132-165 | one pass of the item loop: item `i` with clock reading `clock(i)` extends the merge, the insertion series and the registry by what `AddItem` created, and the drawn identifiers by one |
| Campi.Feed.AddItems | src/campi/feed.py:131-165 | all items, in document order and each with its own clock reading, go through the merge; the list is the old one with the new stories inserted in order; every identifier drawn was unregistered and every new story carries one; the registry is the old one with the new stories registered in order, so old entries are kept |
| Campi.Feed.UpdateFromXml | src/campi/feed.py:121-167 | title and description from the document; the items merged in order, the new stories inserted into the list and registered in order; then the feed is saved |
| Campi.Feed.LoadStoriesFromLink | src/campi/feed.py:102-119 | on status 200 with a parsed body the document updates the feed, its new stories inserted into the list and registered in order, otherwise nothing changes; the feed is saved in both cases |
| Campi.Feed.TestFeed | src/campi/feed.py:206-222 | a feed is returned iff the response is 200 with a parsed body, and so are the records it saves; then it is new, titled from the document, freshly registered, its story list exactly the new stories in newest-first order, those registered in order, and it is appended to the feed list; otherwise nothing changes |
| Campi.Feed.FromXml | src/campi/feed.py:219-220 | the new feed with a fresh identifier, updated from the document: its story list is exactly the new stories in newest-first order, registered in order, and the records returned are what it saves |
| Campi.Story.constructor | src/campi/story.py:41-61 | unread with note 0; without an identifier it takes an unregistered one; the story registry maps the identifier to this story, overwriting |
| Campi.Story.OpenInBrowser | src/campi/story.py:126-132 | the story ends up read; the feed is saved iff it was unread, so a second call saves nothing |
| Campi.Story.DecreaseNote | src/campi/story.py:134-139 | the story ends up read; the note follows `Decreased`; the feed is saved iff the note changed |
| Campi.Story.IncreaseNote | src/campi/story.py:141-146 | the story ends up read; the note follows `Increased`; the feed is saved iff the note changed |
| Campi.ReloadSavedFeed | src/campi/feed.py:77-100 | what a valid feed saves, reloaded into an empty feed, gives back the same stories in the same order |

## Left out

- File and network I/O is not modelled: paths, `exists`/`touch`/`mkdir`, aiofiles, aiohttp sessions. A save returns its records, and a fetch is given its `Response`. The story file's name, built from `settings.directory` (an attribute `Settings` never sets), is not modelled.
- YAML text is not modelled. A file's content is an optional list of records, keys kept in write order. A value of the wrong type for its key reads as missing and takes the default, where Python would use it as it is.
- XML parsing is not modelled: `fromstring` and `ParseError` become `Response.document` being `None`. An element's text is always a string; Python's `None` text is not modelled.
- `dateutil.parser.parse` is the parameter `parseDate`, and its exceptions are not modelled. `datetime.now()` is the parameter `now` for one item and the clock `clock` for the item loop.
- Time zones are not modelled: `ago`'s aware/naive fallback. Float `total_seconds` is not modelled: durations are whole seconds, and `StoryText.Ago` takes the elapsed seconds.
- `uuid4` and its retry loop are a choice of an unregistered string. The loop's probabilistic termination is not modelled.
- `os.startfile` in `open_in_browser` is a foreign call and is not modelled.
- `str.lower` is ASCII-only here: Unicode case folding is not modelled.
- The reload defaults that break Python's own types are replaced:
  - the string "0" for a missing `note` is modelled as 0;
  - the string "unknown" for a missing `published` is modelled as timestamp 0. In Python, comparing it with real dates during the sort would raise `TypeError`.
- `next_unread` on a story that is not in its feed raises an uncaught `ValueError` (the code catches `IndexError`). The model encodes this as a precondition.
- Asynchrony is not modelled: everything runs in sequence.
- Also not modelled: `src/campi/main.py` (the window and its event handlers), `setup.py` (packaging) and the `__repr__` methods.
- Campi.ItemStories: the clock readings `clock(i)` are arbitrary timestamps; the model does not require them to be non-decreasing as successive `datetime.now()` calls are. Python also raises `TypeError` when the final sort compares a naive `now()` with a timezone-aware parsed date; without time zones the model sorts such a list.
- Records are taken to have distinct keys. `Records.Get` takes the first pair with a key, whereas YAML loading keeps the last of repeated keys; the files the program writes never repeat one.
- Campi.Feed.AddItems: states that every identifier drawn was unregistered before the loop, but not that the identifiers drawn within one loop differ from each other. The same holds for `Campi.Feed.UpdateFromXml`, `Campi.Feed.LoadStoriesFromLink`, `Campi.Feed.TestFeed` and `Campi.Feed.FromXml`.
- Campi.Settings.LoadFromFilesystem: states that every loaded feed has no stories, which makes it valid, but does not restate `Valid()`.
