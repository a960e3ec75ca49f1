/** The Note document: a text attached to a ticket by a user. */
module NoteModel {
  import opened Common
  import opened Text
  import opened Sorting
  import opened TicketModel

  /** A stored note. Timestamps are milliseconds. */
  datatype Note = Note(id: Id, ticketId: Id, userId: Id, text: string, createdAt: int, updatedAt: int)

  /** The values handed to `new Note({...})`: the references may be absent. */
  datatype NoteFields = NoteFields(ticketId: Option<Id>, userId: Option<Id>, text: Option<string>)

  /** What every stored note satisfies: its text is trimmed and non-empty. */
  ghost predicate NoteWellFormed(n: Note) {
    IsTrimmed(n.text) && n.text != ""
  }

  /** The `required` rule on a reference path. */
  function RequiredRef(path: string, v: Option<Id>): (r: seq<FieldError>)
    ensures r == [] <==> v.Some?
  {
    if v.Some? then [] else [FieldError(path, "Path `" + path + "` is required.")]
  }

  /** The rules that fail on save, in the schema's path order. */
  function NoteErrors(f: NoteFields): (r: seq<FieldError>)
    ensures r == [] <==> f.ticketId.Some? && f.userId.Some? && f.text.Some? && Trim(f.text.value) != ""
  {
    RequiredRef("ticket_id", f.ticketId)
    + RequiredRef("user_id", f.userId)
    + Required("text", if f.text.Some? then Some(Trim(f.text.value)) else None)
  }

  /** `new Note(fields)` followed by a save. It succeeds exactly when both
      references are present and the text is not blank; the saved note then
      carries the given references, the trimmed text and both timestamps
      `now`, and it is well formed. A failure names at least one rule. */
  function BuildNote(f: NoteFields, id: Id, now: int): (r: Result<Note, seq<FieldError>>)
    ensures r.Success? <==> f.ticketId.Some? && f.userId.Some? && f.text.Some? && Trim(f.text.value) != ""
    ensures r.Success? ==>
      && r.value.id == id
      && r.value.ticketId == f.ticketId.value
      && r.value.userId == f.userId.value
      && r.value.text == Trim(f.text.value)
      && r.value.createdAt == now && r.value.updatedAt == now
      && NoteWellFormed(r.value)
    ensures r.Failure? ==> r.error != []
  {
    var errors := NoteErrors(f);
    if errors != [] then Failure(errors)
    else Success(Note(id, f.ticketId.value, f.userId.value, Trim(f.text.value), now, now))
  }

  /** The notes of one ticket (`find({ ticket_id })`): each such note as
      often as the store holds it, and nothing else. */
  function NotesFor(ns: seq<Note>, ticketId: Id): (r: seq<Note>)
    ensures forall n :: multiset(r)[n] == if n.ticketId == ticketId then multiset(ns)[n] else 0
    ensures forall n :: n in r <==> n in ns && n.ticketId == ticketId
  {
    if ns == [] then []
    else
      assert ns == [ns[0]] + ns[1..];
      (if ns[0].ticketId == ticketId then [ns[0]] else []) + NotesFor(ns[1..], ticketId)
  }

  /** The sort key of `sort({ created_at: -1 })`. */
  function NoteNewestKey(n: Note): int {
    -n.createdAt
  }

  /** The notes in descending `created_at` order, a permutation of `ns`. */
  function NotesNewestFirst(ns: seq<Note>): (r: seq<Note>)
    ensures multiset(r) == multiset(ns)
    ensures forall i, j :: 0 <= i < j < |r| ==> r[i].createdAt >= r[j].createdAt
  {
    var r := SortBy(ns, NoteNewestKey);
    assert forall i, j :: 0 <= i < j < |r| ==> NoteNewestKey(r[i]) <= NoteNewestKey(r[j]);
    r
  }
}
