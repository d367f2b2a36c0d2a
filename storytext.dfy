/**
 * The strings a story shows in the story table: its recency (`Story.ago`), its note
 * (`Story.note_as_symbol`) and its status column (`Story.status_text`).
 */
module StoryText {
  import opened Text

  function Min(a: int, b: int): int {
    if a <= b then a else b
  }

  const Minute: int := 60
  const Hour: int := 60 * 60
  const Day: int := 60 * 60 * 24

  /**
   * Recency text for a story published `seconds` ago. Counts are truncated, never
   * rounded, and the unit is never singularised ("1 hours ago").
   */
  function Ago(seconds: int): (r: string)
    ensures seconds < 5 ==> r == "a few seconds ago"
    ensures 5 <= seconds < Minute ==> r == "less than a minute ago"
    ensures Minute <= seconds < Hour ==> exists n: nat :: (1 <= n < 60
      && n * Minute <= seconds < (n + 1) * Minute && r == Digits(n) + " minutes ago")
    ensures Hour <= seconds < Day ==> exists n: nat :: (1 <= n < 24
      && n * Hour <= seconds < (n + 1) * Hour && r == Digits(n) + " hours ago")
    ensures Day <= seconds < 2 * Day ==> r == "a day ago"
    ensures 2 * Day <= seconds ==> exists n: nat :: (2 <= n
      && n * Day <= seconds < (n + 1) * Day && r == Digits(n) + " days ago")
  {
    if seconds < 5 then "a few seconds ago"
    else if seconds < Minute then "less than a minute ago"
    else if seconds < Hour then
      var n := seconds / Minute;
      assert n * Minute <= seconds < (n + 1) * Minute;
      Digits(n) + " minutes ago"
    else if seconds < Day then
      var n := seconds / Hour;
      assert n * Hour <= seconds < (n + 1) * Hour;
      Digits(n) + " hours ago"
    else if seconds < 2 * Day then "a day ago"
    else
      var n := seconds / Day;
      assert n * Day <= seconds < (n + 1) * Day;
      Digits(n) + " days ago"
  }

  /** 30 seconds read "less than a minute ago". */
  lemma AgoHalfMinute()
    ensures Ago(30) == "less than a minute ago"
  {
  }

  /** 90 minutes read "1 hours ago": the hour count is truncated and not singularised. */
  lemma AgoNinetyMinutes()
    ensures Ago(90 * 60) == "1 hours ago"
  {
    assert Ago(90 * 60) == Digits(1) + " hours ago";
    assert Digits(1) == "1";
  }

  /** 36 hours read "a day ago"; three days and a few seconds read "3 days ago". */
  lemma AgoDays()
    ensures Ago(36 * 60 * 60) == "a day ago"
    ensures Ago(3 * 24 * 60 * 60 + 7) == "3 days ago"
  {
    assert (3 * 24 * 60 * 60 + 7) / Day == 3;
    assert Digits(3) == "3";
  }

  /** The note shown as up to three `+` or `-`, or "0". */
  function NoteAsSymbol(note: int): (r: string)
    ensures r == "0" <==> note == 0
    ensures 1 <= |r| <= 3
    ensures note > 0 ==> |r| == Min(note, 3) && forall i :: 0 <= i < |r| ==> r[i] == '+'
    ensures note < 0 ==> |r| == Min(-note, 3) && forall i :: 0 <= i < |r| ==> r[i] == '-'
  {
    if note < 0 then
      var allowed := if note >= -3 then note else -3;
      assert Repeat('-', -allowed)[0] != '0';
      Repeat('-', -allowed)
    else if note > 0 then
      var allowed := if note <= 3 then note else 3;
      assert Repeat('+', allowed)[0] != '0';
      Repeat('+', allowed)
    else "0"
  }

  lemma NoteAsSymbolExamples()
    ensures NoteAsSymbol(0) == "0"
    ensures NoteAsSymbol(2) == "++"
    ensures NoteAsSymbol(-5) == "---"
  {
  }

  /** The status column: "U" while unread, the note symbol once read. */
  function StatusText(unread: bool, note: int): (r: string)
    ensures r == "U" <==> unread
    ensures !unread ==> r == NoteAsSymbol(note)
  {
    if unread then "U" else NoteAsSymbol(note)
  }

  /** The note after `decrease_note`: one lower, unless already at -2 or below. */
  function Decreased(note: int): (r: int)
    ensures r == note || r == note - 1
    ensures r != note <==> note > -2
    ensures note >= -2 ==> r >= -2
  {
    if note > -2 then note - 1 else note
  }

  /** The note after `increase_note`: one higher, unless already at 3 or above. */
  function Increased(note: int): (r: int)
    ensures r == note || r == note + 1
    ensures r != note <==> note < 3
    ensures note <= 3 ==> r <= 3
  {
    if note < 3 then note + 1 else note
  }

  /** The note after a series of presses, `true` for an increase and `false` for a decrease. */
  function AfterPresses(note: int, presses: seq<bool>): int {
    if presses == [] then note
    else
      var before := AfterPresses(note, presses[..|presses| - 1]);
      if presses[|presses| - 1] then Increased(before) else Decreased(before)
  }

  /**
   * The two bounds are asymmetric: a note starting in [-2, 3] stays in [-2, 3] whatever
   * the presses, so -3, which the symbol display still allows, is never reached this way.
   */
  lemma {:induction false} PressesStayInRange(note: int, presses: seq<bool>)
    requires -2 <= note <= 3
    ensures -2 <= AfterPresses(note, presses) <= 3
  {
    if presses != [] {
      PressesStayInRange(note, presses[..|presses| - 1]);
    }
  }

  /** Increases never push a note above 3, from any note at most 3. */
  lemma {:induction false} PressesNeverExceedThree(note: int, presses: seq<bool>)
    requires note <= 3
    ensures AfterPresses(note, presses) <= 3
  {
    if presses != [] {
      PressesNeverExceedThree(note, presses[..|presses| - 1]);
    }
  }
}
