/** `NotesService`: one flat list of notes kept under the storage key "notes".
    Every operation reads the whole list, changes it in memory and writes it
    all back. */
module NotesService {
  import opened Wrappers
  import opened Seqs
  import opened JsStrings
  import opened Types

  /** The only failure the store propagates: the storage write threw. */
  datatype StorageError = WriteFailed

  /** A missing, unreadable or unparseable entry reads as the empty list. */
  function Loaded(stored: Option<seq<Note>>): seq<Note> {
    if stored.Some? then stored.value else []
  }

  /** `if (note.id)`: the id was supplied and is not the empty string. */
  predicate HasTruthyId(p: PartialNote) {
    p.id.Some? && p.id.value != ""
  }

  /** `findIndex(n => n.id === id)`: the first position holding `id`, or -1. */
  function FindIndex(notes: seq<Note>, id: string): (r: int)
    ensures -1 <= r < |notes|
    ensures r == -1 <==> forall j :: 0 <= j < |notes| ==> notes[j].id != id
    ensures r != -1 ==> notes[r].id == id && forall j :: 0 <= j < r ==> notes[j].id != id
    decreases |notes|
  {
    if notes == [] then -1
    else if notes[0].id == id then 0
    else
      var k := FindIndex(notes[1..], id);
      if k == -1 then -1 else k + 1
  }

  function FieldOr(field: Option<string>, fallback: string): string {
    if field.Some? then field.value else fallback
  }

  /** `{ ...base, ...p, updatedAt: now }`: every supplied field overrides the
      stored one, and `updatedAt` is `now` even when `p` carried its own. */
  function Overlay(base: Note, p: PartialNote, now: string): (r: Note)
    ensures r.updatedAt == now
    ensures r.id == (if p.id.Some? then p.id.value else base.id)
    ensures r.title == (if p.title.Some? then p.title.value else base.title)
    ensures r.content == (if p.content.Some? then p.content.value else base.content)
    ensures r.createdAt == (if p.createdAt.Some? then p.createdAt.value else base.createdAt)
  {
    Note(FieldOr(p.id, base.id), FieldOr(p.title, base.title), FieldOr(p.content, base.content),
         FieldOr(p.createdAt, base.createdAt), now)
  }

  /** The record `saveNote` creates. `freshId` stands for the generated id. */
  function NewNote(p: PartialNote, now: string, freshId: string): (r: Note)
    ensures r.id == freshId
    ensures r.title == "Untitled" <==> p.title.None? || p.title.value in {"", "Untitled"}
    ensures r.title != "Untitled" ==> p.title == Some(r.title)
    ensures r.content == FieldOr(p.content, "")
    ensures r.createdAt == now && r.updatedAt == now
  {
    var title := if p.title.Some? && p.title.value != "" then p.title.value else "Untitled";
    Note(freshId, title, FieldOr(p.content, ""), now, now)
  }

  /** The list written back by `saveNote` and the note it returns. */
  datatype Saved = Saved(notes: seq<Note>, note: Note)

  /** Specification of `saveNote` on the loaded list: update the first record
      carrying the supplied id in place, otherwise prepend a new record. */
  function Upsert(notes: seq<Note>, p: PartialNote, now: string, freshId: string): (r: Saved)
    ensures r.note in r.notes
  {
    var i := if HasTruthyId(p) then FindIndex(notes, p.id.value) else -1;
    if i != -1 then
      var updated := Overlay(notes[i], p, now);
      var written := notes[i := updated];
      assert written[i] in written;
      Saved(written, updated)
    else
      var created := NewNote(p, now, freshId);
      Saved([created] + notes, created)
  }

  /** The ids of a list, in order. */
  function Ids(notes: seq<Note>): (r: seq<string>)
    ensures |r| == |notes|
    ensures forall j :: 0 <= j < |notes| ==> r[j] == notes[j].id
  {
    seq(|notes|, j requires 0 <= j < |notes| => notes[j].id)
  }

  /** Updating a stored note keeps the list's length and touches only the
      first record with that id, which becomes the returned note. */
  lemma UpsertUpdatesInPlace(notes: seq<Note>, p: PartialNote, now: string, freshId: string, i: int)
    requires HasTruthyId(p)
    requires 0 <= i < |notes| && notes[i].id == p.id.value
    requires forall j :: 0 <= j < i ==> notes[j].id != p.id.value
    ensures var r := Upsert(notes, p, now, freshId);
      && |r.notes| == |notes|
      && r.note == Overlay(notes[i], p, now)
      && r.notes[i] == r.note
      && forall j :: 0 <= j < |notes| && j != i ==> r.notes[j] == notes[j]
  {
  }

  /** Without a supplied id, or with one nobody holds, the new note goes in
      front and the old list follows unchanged. */
  lemma UpsertPrependsNew(notes: seq<Note>, p: PartialNote, now: string, freshId: string)
    requires !HasTruthyId(p) || forall j :: 0 <= j < |notes| ==> notes[j].id != p.id.value
    ensures var r := Upsert(notes, p, now, freshId);
      && r.note == NewNote(p, now, freshId)
      && r.notes == [r.note] + notes
      && |r.notes| == |notes| + 1
      && r.notes[1..] == notes
  {
  }

  /** Ids never change on update and order is by creation: an update leaves
      the id list as it was, a creation puts the new id first. */
  lemma UpsertKeepsIdOrder(notes: seq<Note>, p: PartialNote, now: string, freshId: string)
    ensures var r := Upsert(notes, p, now, freshId);
      Ids(r.notes) == if HasTruthyId(p) && FindIndex(notes, p.id.value) != -1 then Ids(notes)
                      else [freshId] + Ids(notes)
  {
  }

  /** `note => note.id !== id`, the predicate `deleteNote` filters with. */
  function OtherThan(id: string): Note -> bool {
    (n: Note) => n.id != id
  }

  /** `deleteNote`'s filter: every record whose id differs from `id`. */
  function Deleted(notes: seq<Note>, id: string): (r: seq<Note>)
    ensures |r| <= |notes|
    ensures forall j :: 0 <= j < |r| ==> r[j].id != id
    ensures forall j :: 0 <= j < |notes| && notes[j].id != id ==> notes[j] in r
  {
    Filter(notes, OtherThan(id))
  }

  /** Deletion keeps exactly the records with a different id, in their original order. */
  lemma DeleteKeepsOthers(notes: seq<Note>, id: string)
    ensures var r := Deleted(notes, id);
      && Subsequence(r, notes)
      && (forall j :: 0 <= j < |r| ==> r[j].id != id)
      && (forall j :: 0 <= j < |notes| && notes[j].id != id ==> notes[j] in r)
      && (forall x :: multiset(r)[x] == if x.id != id then multiset(notes)[x] else 0)
  {
    FilterIsSubsequence(notes, OtherThan(id));
    forall x ensures multiset(Deleted(notes, id))[x] == if x.id != id then multiset(notes)[x] else 0 {
      FilterCount(notes, OtherThan(id), x);
    }
  }

  lemma DeleteAbsentIsIdentity(notes: seq<Note>, id: string)
    requires forall j :: 0 <= j < |notes| ==> notes[j].id != id
    ensures Deleted(notes, id) == notes
  {
    FilterKeepsAll(notes, OtherThan(id));
  }

  lemma DeleteIdempotent(notes: seq<Note>, id: string)
    ensures Deleted(Deleted(notes, id), id) == Deleted(notes, id)
  {
    FilterIdempotent(notes, OtherThan(id));
  }

  /** Deleting a freshly created note restores the list it was prepended to. */
  lemma DeleteUndoesCreate(notes: seq<Note>, p: PartialNote, now: string, freshId: string)
    requires !HasTruthyId(p) || forall j :: 0 <= j < |notes| ==> notes[j].id != p.id.value
    requires forall j :: 0 <= j < |notes| ==> notes[j].id != freshId
    ensures Deleted(Upsert(notes, p, now, freshId).notes, freshId) == notes
  {
    var created := NewNote(p, now, freshId);
    FilterAppend([created], notes, OtherThan(freshId));
    FilterKeepsAll(notes, OtherThan(freshId));
  }

  /** The filter `searchNotes` applies for an already lower-cased query: it
      holds exactly when the query occurs somewhere in the lower-cased title
      or in the lower-cased content. */
  function Matcher(lowerQuery: string): (m: Note -> bool)
    ensures forall n :: m(n) <==>
      (exists k :: OccursAt(Lower(n.title), lowerQuery, k))
      || (exists k :: OccursAt(Lower(n.content), lowerQuery, k))
  {
    var m := (n: Note) => Includes(Lower(n.title), lowerQuery) || Includes(Lower(n.content), lowerQuery);
    assert forall n :: m(n) <==>
      (exists k :: OccursAt(Lower(n.title), lowerQuery, k))
      || (exists k :: OccursAt(Lower(n.content), lowerQuery, k)) by {
      forall n: Note
        ensures m(n) <==>
          (exists k :: OccursAt(Lower(n.title), lowerQuery, k))
          || (exists k :: OccursAt(Lower(n.content), lowerQuery, k))
      {
        IncludesIff(Lower(n.title), lowerQuery);
        IncludesIff(Lower(n.content), lowerQuery);
      }
    }
    m
  }

  /** `searchNotes` on the loaded list. The query is lower-cased but not trimmed. */
  function SearchResults(notes: seq<Note>, query: string): (r: seq<Note>)
    ensures |r| <= |notes|
    ensures forall j :: 0 <= j < |r| ==> r[j] in notes
  {
    if Trim(query) == "" then notes else Filter(notes, Matcher(Lower(query)))
  }

  /** The reference meaning of a hit: the lower-cased query occurs somewhere
      in the lower-cased title or in the lower-cased content. */
  ghost predicate IsHit(n: Note, query: string) {
    (exists k :: OccursAt(Lower(n.title), Lower(query), k))
    || (exists k :: OccursAt(Lower(n.content), Lower(query), k))
  }

  /** An empty or whitespace-only query returns the stored list unchanged. */
  lemma SearchBlankReturnsAll(notes: seq<Note>, query: string)
    requires IsBlank(query)
    ensures SearchResults(notes, query) == notes
  {
    TrimEmptyIffBlank(query);
  }

  /** Any other query returns, in stored order, exactly the notes it hits. */
  lemma SearchSelectsHits(notes: seq<Note>, query: string)
    requires !IsBlank(query)
    ensures var r := SearchResults(notes, query);
      && Subsequence(r, notes)
      && (forall j :: 0 <= j < |r| ==> IsHit(r[j], query))
      && (forall j :: 0 <= j < |notes| && IsHit(notes[j], query) ==> notes[j] in r)
      && (forall x :: multiset(r)[x] == if IsHit(x, query) then multiset(notes)[x] else 0)
  {
    TrimEmptyIffBlank(query);
    FilterIsSubsequence(notes, Matcher(Lower(query)));
    forall x ensures multiset(SearchResults(notes, query))[x] == if IsHit(x, query) then multiset(notes)[x] else 0 {
      FilterCount(notes, Matcher(Lower(query)), x);
    }
  }

  /** Search is case-insensitive in the query as well as in the notes. */
  lemma SearchIgnoresQueryCase(notes: seq<Note>, query: string)
    ensures SearchResults(notes, Lower(query)) == SearchResults(notes, query)
  {
    TrimEmptyIffBlank(query);
    TrimEmptyIffBlank(Lower(query));
    LowerKeepsBlank(query);
    LowerIdempotent(query);
  }

  /** The query is matched untrimmed: a trailing space makes "b " miss a note
      titled "ab" that "b" finds. */
  lemma SearchDoesNotTrimQuery()
    ensures var n := Note("1", "ab", "", "t", "t");
      SearchResults([n], "b") == [n] && SearchResults([n], "b ") == []
  {
    ExampleHit();
    ExampleMiss(Note("1", "ab", "", "t", "t"), "b ");
  }

  lemma ExampleHit()
    ensures SearchResults([Note("1", "ab", "", "t", "t")], "b") == [Note("1", "ab", "", "t", "t")]
  {
    var n := Note("1", "ab", "", "t", "t");
    ExampleMatches(n);
    var q := "b";
    TrimKeepsNonBlankHead(q);
    LowerOfLowercase(q);
    FilterSingleton(n, Matcher(q));
  }

  lemma ExampleMiss(n: Note, q: string)
    requires n == Note("1", "ab", "", "t", "t") && q == "b "
    ensures SearchResults([n], q) == []
  {
    TrimKeepsNonBlankHead(q);
    LowerOfLowercase(q);
    ExampleMissFilter(n, q);
  }

  lemma ExampleMissFilter(n: Note, q: string)
    requires n == Note("1", "ab", "", "t", "t") && q == "b "
    ensures Filter([n], Matcher(q)) == []
  {
    ExampleMatches(n);
    FilterSingleton(n, Matcher(q));
  }

  /** "b" occurs in the title "ab"; "b " occurs in neither "ab" nor "". */
  lemma ExampleMatches(n: Note)
    requires n == Note("1", "ab", "", "t", "t")
    ensures Matcher("b")(n) && !Matcher("b ")(n)
  {
    assert Lower("ab") == "ab" && Lower("") == "";
    assert OccursAt(Lower(n.title), "b", 1);
    forall k ensures !OccursAt("ab", "b ", k) {
      if 0 <= k && k + 2 <= 2 { assert "ab"[k..k + 2] == "ab"; }
    }
  }

  /** The AsyncStorage entry behind `NotesService`. `None` is a missing,
      unreadable or unparseable entry. */
  class NotesStore {
    var stored: Option<seq<Note>>

    constructor (initial: Option<seq<Note>>)
      ensures stored == initial
    {
      stored := initial;
    }

    /** `getAllNotes`: the stored list, or the empty list; it never fails. */
    method GetAllNotes() returns (notes: seq<Note>)
      ensures stored.None? ==> notes == []
      ensures stored.Some? ==> notes == stored.value
    {
      if stored.Some? {
        notes := stored.value;
      } else {
        notes := [];
      }
    }

    /** `saveNote`. `now` is the current ISO time, `freshId` the id a new note
        would get, and `writeOk` whether the storage write succeeds; a failed
        write is propagated and leaves the entry as it was. */
    method SaveNote(p: PartialNote, now: string, freshId: string, writeOk: bool)
      returns (r: Result<Note, StorageError>)
      modifies this
      ensures var s := Upsert(Loaded(old(stored)), p, now, freshId);
        if writeOk then r == Success(s.note) && stored == Some(s.notes)
        else r == Failure(WriteFailed) && stored == old(stored)
      ensures r.Success? ==> r.value in Loaded(stored)
    {
      var notes := GetAllNotes();
      if HasTruthyId(p) {
        var index := FindIndex(notes, p.id.value);
        if index != -1 {
          notes := notes[index := Overlay(notes[index], p, now)];
          if !writeOk {
            return Failure(WriteFailed);
          }
          stored := Some(notes);
          return Success(notes[index]);
        }
      }
      var newNote := NewNote(p, now, freshId);
      notes := [newNote] + notes;
      if !writeOk {
        return Failure(WriteFailed);
      }
      stored := Some(notes);
      return Success(newNote);
    }

    /** `deleteNote`: writes back the list without any record carrying `id`. */
    method DeleteNote(id: string, writeOk: bool) returns (r: Outcome<StorageError>)
      modifies this
      ensures if writeOk then r == Pass && stored == Some(Deleted(Loaded(old(stored)), id))
              else r == Fail(WriteFailed) && stored == old(stored)
    {
      var notes := GetAllNotes();
      var filtered := Filter(notes, OtherThan(id));
      if !writeOk {
        return Fail(WriteFailed);
      }
      stored := Some(filtered);
      return Pass;
    }

    /** `searchNotes`: reads the list and filters it; nothing is written. */
    method SearchNotes(query: string) returns (r: seq<Note>)
      ensures r == SearchResults(Loaded(stored), query)
      ensures IsBlank(query) ==> r == Loaded(stored)
    {
      var notes := GetAllNotes();
      if Trim(query) == "" {
        return notes;
      }
      var lowercaseQuery := Lower(query);
      r := Filter(notes, Matcher(lowercaseQuery));
      TrimEmptyIffBlank(query);
    }
  }
}
