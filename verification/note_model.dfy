/**
 * The `Note` schema of the server and the collection that stores notes.
 *
 * The schema declares four required string paths (title, transcript,
 * audioUrl, originalFilename) and asks for `createdAt`/`updatedAt`
 * timestamps. A `Draft` is a document built with `new Note({...})` before it
 * is saved: each path may be absent (`undefined`) or a string. A `Note` is a
 * saved document. The collection is a class whose only mutation is `Save`;
 * its read path is a search sorted newest first.
 */
module NoteModel {
  import opened Wrappers

  /** The value given for one string path of the schema. */
  type Field = Option<string>

  /**
   * Mongoose's `required` check on a String path: the value is present and
   * is not the empty string.
   */
  predicate Required(f: Field)
  {
    f.Some? && f.value != ""
  }

  /** An unsaved document: the object handed to `new Note(...)`. */
  datatype Draft = Draft(title: Field, transcript: Field, audioUrl: Field, originalFilename: Field)

  /** The schema paths declared `required: true`. */
  datatype SchemaPath = Title | Transcript | AudioUrl | OriginalFilename

  /** The paths whose `required` validator fails on `d`. */
  function MissingPaths(d: Draft): (missing: set<SchemaPath>)
    ensures Title in missing <==> !Required(d.title)
    ensures Transcript in missing <==> !Required(d.transcript)
    ensures AudioUrl in missing <==> !Required(d.audioUrl)
    ensures OriginalFilename in missing <==> !Required(d.originalFilename)
  {
    (if Required(d.title) then {} else {Title})
    + (if Required(d.transcript) then {} else {Transcript})
    + (if Required(d.audioUrl) then {} else {AudioUrl})
    + (if Required(d.originalFilename) then {} else {OriginalFilename})
  }

  /** A draft passes validation when no required path is missing. */
  predicate IsValid(d: Draft)
  {
    MissingPaths(d) == {}
  }

  /** Missing any one of the four required paths makes the draft invalid. */
  lemma InvalidWhenAnyPathMissing(d: Draft)
    ensures IsValid(d) <==>
      Required(d.title) && Required(d.transcript) && Required(d.audioUrl) && Required(d.originalFilename)
  {
    if !Required(d.title) { assert Title in MissingPaths(d); }
    else if !Required(d.transcript) { assert Transcript in MissingPaths(d); }
    else if !Required(d.audioUrl) { assert AudioUrl in MissingPaths(d); }
    else if !Required(d.originalFilename) { assert OriginalFilename in MissingPaths(d); }
  }

  /** A saved document: the four paths plus the id and the two timestamps. */
  datatype Note = Note(
    id: nat,
    title: string,
    transcript: string,
    audioUrl: string,
    originalFilename: string,
    createdAt: nat,
    updatedAt: nat)

  /** The schema paths of a saved note, as a draft. */
  function Paths(n: Note): Draft
  {
    Draft(Some(n.title), Some(n.transcript), Some(n.audioUrl), Some(n.originalFilename))
  }

  /** What the collection may hold: notes whose paths pass validation. */
  predicate WellFormed(n: Note)
  {
    IsValid(Paths(n))
  }

  /**
   * The document `save()` stores for a valid draft: the draft's paths
   * unchanged, the id the store assigns, and both timestamps set to the
   * moment of saving.
   */
  function Persisted(d: Draft, id: nat, now: nat): (n: Note)
    requires IsValid(d)
    ensures WellFormed(n) && Paths(n) == d
    ensures n.id == id && n.createdAt == now && n.updatedAt == now
  {
    InvalidWhenAnyPathMissing(d);
    Note(id, d.title.value, d.transcript.value, d.audioUrl.value, d.originalFilename.value, now, now)
  }

  // ---------------------------------------------------------------------------
  // Sorting by createdAt, newest first: `find().sort({ createdAt: -1 })`
  // ---------------------------------------------------------------------------

  /** Ordered by `createdAt`, newest first. */
  predicate NewestFirst(s: seq<Note>)
  {
    forall i, j | 0 <= i < j < |s| :: s[i].createdAt >= s[j].createdAt
  }

  /** A note at least as new as the head of a newest-first sequence may go in front. */
  lemma ConsNewestFirst(x: Note, s: seq<Note>)
    requires NewestFirst(s)
    requires s != [] ==> x.createdAt >= s[0].createdAt
    ensures NewestFirst([x] + s)
  {
    var r := [x] + s;
    forall i, j | 0 <= i < j < |r|
      ensures r[i].createdAt >= r[j].createdAt
    {
      assert r[j] == s[j - 1];
      if i == 0 {
        assert s[0].createdAt >= s[j - 1].createdAt;
      } else {
        assert r[i] == s[i - 1];
      }
    }
  }

  /** Inserts `n` into a newest-first sequence at its place. */
  function InsertByCreatedAt(n: Note, s: seq<Note>): (r: seq<Note>)
    requires NewestFirst(s)
    ensures NewestFirst(r)
    ensures multiset(r) == multiset(s) + multiset{n}
    ensures |r| == |s| + 1 && (r[0] == n || (s != [] && r[0] == s[0]))
  {
    if s == [] || n.createdAt >= s[0].createdAt then
      ConsNewestFirst(n, s);
      [n] + s
    else
      assert s == [s[0]] + s[1..];
      var rest := InsertByCreatedAt(n, s[1..]);
      ConsNewestFirst(s[0], rest);
      [s[0]] + rest
  }

  /**
   * One ordering the storage layer may return: every note, newest first.
   * Notes with equal `createdAt` may come in any order; callers rely only
   * on the two properties in the contract.
   */
  function SortNewestFirst(s: seq<Note>): (r: seq<Note>)
    ensures NewestFirst(r)
    ensures multiset(r) == multiset(s)
  {
    if s == [] then []
    else
      assert s == [s[0]] + s[1..];
      InsertByCreatedAt(s[0], SortNewestFirst(s[1..]))
  }

  // ---------------------------------------------------------------------------
  // The collection
  // ---------------------------------------------------------------------------

  /** The `notes` collection, with its availability given per call. */
  class NoteCollection {
    var notes: seq<Note>

    /** Ids are the insertion positions, and every stored note validates. */
    ghost predicate Valid()
      reads this
    {
      forall i | 0 <= i < |notes| :: notes[i].id == i && WellFormed(notes[i])
    }

    constructor()
      ensures Valid() && notes == []
    {
      notes := [];
    }

    /**
     * `note.save()`: fails when validation fails or the storage layer is
     * unreachable; otherwise stores the draft with a fresh id and the
     * timestamps of `now`.
     */
    method Save(d: Draft, reachable: bool, now: nat) returns (saved: Option<Note>)
      requires Valid()
      modifies this
      ensures Valid()
      ensures saved.Some? <==> IsValid(d) && reachable
      ensures saved.Some? ==> saved.value == Persisted(d, |old(notes)|, now)
      ensures saved.Some? ==> notes == old(notes) + [saved.value]
      ensures saved.None? ==> notes == old(notes)
    {
      if !IsValid(d) || !reachable {
        return None;
      }
      var n := Persisted(d, |notes|, now);
      notes := notes + [n];
      saved := Some(n);
    }

    /**
     * `find().sort({ createdAt: -1 })`: all stored notes, newest first, or
     * nothing when the storage layer is unreachable.
     */
    function FindNewestFirst(reachable: bool): (r: Option<seq<Note>>)
      reads this
      ensures r.Some? <==> reachable
      ensures r.Some? ==> NewestFirst(r.value) && multiset(r.value) == multiset(notes)
    {
      if reachable then Some(SortNewestFirst(notes)) else None
    }
  }

  /** A note that was stored is among the notes a search returns. */
  lemma StoredNoteIsFound(notes: seq<Note>, n: Note)
    requires n in notes
    ensures n in SortNewestFirst(notes)
  {
    assert n in multiset(notes);
  }
}
