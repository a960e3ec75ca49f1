/** The ticket handlers' store queries: the list filter, the newest-first
    order and the page window, the visible-by-id lookup, and the partial
    update and soft delete of one ticket. */
module TicketQuery {
  import opened Common
  import opened Constants
  import opened Text
  import opened Sorting
  import opened TicketModel

  /** A list filter: `deleted` must equal the flag; status and priority,
      when set, must be equal; `search`, when set, must occur in the title
      or the address. */
  datatype Filter = Filter(deleted: bool, status: Option<Status>, priority: Option<Priority>, search: Option<string>)

  /** Builds the list filter from the query values. It always requires
      `deleted = false`; a status or priority constrains the list only when it
      is one of the three valid values, and any other value is ignored; a
      search term constrains it only when it is not empty. */
  function BuildFilter(status: Option<string>, priority: Option<string>, search: Option<string>): (f: Filter)
    ensures !f.deleted
    ensures f.status.Some? <==> status.Some? && status.value in StatusValues
    ensures f.status.Some? ==> StatusName(f.status.value) == status.value
    ensures f.priority.Some? <==> priority.Some? && priority.value in PriorityValues
    ensures f.priority.Some? ==> PriorityName(f.priority.value) == priority.value
    ensures f.search.Some? <==> search.Some? && search.value != ""
    ensures f.search.Some? ==> f.search == search
  {
    Filter(
      false,
      if status.Some? && status.value != "" then ParseStatus(status.value) else None,
      if priority.Some? && priority.value != "" then ParsePriority(priority.value) else None,
      if search.Some? && search.value != "" then search else None)
  }

  /** Whether a stored ticket satisfies the filter. A search term is found
      when, lower-cased, it occurs at some position of the lower-cased title
      or address. */
  predicate Matches(f: Filter, t: Ticket)
    ensures f.search.Some? ==>
      (Matches(f, t) <==>
        && t.deleted == f.deleted
        && (f.status.None? || t.status == f.status.value)
        && (f.priority.None? || t.priority == f.priority.value)
        && ((exists i :: OccursAt(ToLower(t.title), ToLower(f.search.value), i))
            || (exists i :: OccursAt(ToLower(t.customerEmail), ToLower(f.search.value), i))))
  {
    var term := if f.search.Some? then f.search.value else "";
    ContainsIffOccurs(ToLower(t.title), ToLower(term));
    ContainsIffOccurs(ToLower(t.customerEmail), ToLower(term));
    && t.deleted == f.deleted
    && (f.status.None? || t.status == f.status.value)
    && (f.priority.None? || t.priority == f.priority.value)
    && (f.search.None? || ContainsIgnoringCase(t.title, f.search.value) || ContainsIgnoringCase(t.customerEmail, f.search.value))
  }

  /** What a built filter accepts: a ticket that is not deleted, has the
      requested status and priority when those are valid, and, for a
      non-empty search term, has it in its title or its address, ignoring case. */
  lemma FilterSemantics(status: Option<string>, priority: Option<string>, search: Option<string>, t: Ticket)
    ensures Matches(BuildFilter(status, priority, search), t) <==>
      && !t.deleted
      && (status.Some? && status.value in StatusValues ==> StatusName(t.status) == status.value)
      && (priority.Some? && priority.value in PriorityValues ==> PriorityName(t.priority) == priority.value)
      && (search.Some? && search.value != "" ==>
            ContainsIgnoringCase(t.title, search.value) || ContainsIgnoringCase(t.customerEmail, search.value))
  {
    EnumValuesDistinct();
  }

  /** An unknown status or priority, such as "archived", builds the same
      filter as no value at all. */
  lemma UnknownValuesIgnored(status: Option<string>, priority: Option<string>, search: Option<string>)
    ensures status.Some? && status.value !in StatusValues ==>
      BuildFilter(status, priority, search) == BuildFilter(None, priority, search)
    ensures priority.Some? && priority.value !in PriorityValues ==>
      BuildFilter(status, priority, search) == BuildFilter(status, None, search)
  {
  }

  /** The tickets the filter accepts (`find(filter)` and `countDocuments(filter)`):
      each accepted ticket as often as the store holds it, and nothing else. */
  function Matching(ts: seq<Ticket>, f: Filter): (r: seq<Ticket>)
    ensures forall t :: multiset(r)[t] == if Matches(f, t) then multiset(ts)[t] else 0
    ensures forall t :: t in r <==> t in ts && Matches(f, t)
    ensures |r| <= |ts|
  {
    if ts == [] then []
    else
      assert ts == [ts[0]] + ts[1..];
      (if Matches(f, ts[0]) then [ts[0]] else []) + Matching(ts[1..], f)
  }

  /** The sort key of `sort({ created_at: -1 })`. */
  function NewestKey(t: Ticket): int {
    -t.createdAt
  }

  /** The tickets in descending `created_at` order, a permutation of `ts`
      (equal timestamps keep their store order). */
  function NewestFirst(ts: seq<Ticket>): (r: seq<Ticket>)
    ensures multiset(r) == multiset(ts)
    ensures forall i, j :: 0 <= i < j < |r| ==> r[i].createdAt >= r[j].createdAt
  {
    var r := SortBy(ts, NewestKey);
    assert forall i, j :: 0 <= i < j < |r| ==> NewestKey(r[i]) <= NewestKey(r[j]);
    r
  }

  /** `skip(skip).limit(n)`: the documents at positions `skip`,
      `skip + 1`, ... of `s`, at most `n` of them. */
  function Window<T>(s: seq<T>, skip: nat, n: nat): (r: seq<T>)
    ensures |r| <= n
    ensures |r| == if skip >= |s| then 0 else if |s| - skip < n then |s| - skip else n
    ensures forall i :: 0 <= i < |r| ==> r[i] == s[skip + i]
  {
    if skip >= |s| then []
    else if |s| - skip < n then s[skip..]
    else s[skip..skip + n]
  }

  /** Strips `deleted` from every ticket of a page. */
  function Views(ts: seq<Ticket>): (r: seq<TicketView>)
    ensures |r| == |ts|
    ensures forall i :: 0 <= i < |ts| ==> r[i] == View(ts[i])
  {
    seq(|ts|, i requires 0 <= i < |ts| => View(ts[i]))
  }

  /** `findOne({ _id: id, deleted: false })`: the position of the first
      ticket with that id that is not soft-deleted, or None when every
      ticket with that id is deleted or there is none. */
  function FindVisible(ts: seq<Ticket>, id: Id): (r: Option<nat>)
    ensures r.Some? ==> r.value < |ts| && ts[r.value].id == id && !ts[r.value].deleted
    ensures r.Some? ==> forall i :: 0 <= i < r.value ==> !(ts[i].id == id && !ts[i].deleted)
    ensures r.None? <==> forall i :: 0 <= i < |ts| ==> !(ts[i].id == id && !ts[i].deleted)
  {
    if ts == [] then None
    else if ts[0].id == id && !ts[0].deleted then Some(0)
    else
      match FindVisible(ts[1..], id)
      case None => None
      case Some(i) => Some(i + 1)
  }

  /** No two stored tickets share an id. */
  ghost predicate UniqueIds(ts: seq<Ticket>) {
    forall i, j :: 0 <= i < j < |ts| ==> ts[i].id != ts[j].id
  }

  /** The partial update of PATCH /tickets/:id: each field, when present,
      replaces the stored one. */
  datatype TicketPatch = TicketPatch(status: Option<Status>, priority: Option<Priority>)

  /** The 500 answer when the update cannot be applied. */
  function UpdateFailed(message: string): ApiError {
    ApiError(500, "Failed to update ticket", Some(message), [])
  }

  /** The update document of `updateTicket`: a status or priority that is
      present and not empty is set (`...(status && { status })`), and the
      update validators then require it to be a valid value; an empty body
      gives the empty patch. */
  function PatchFromBody(status: Option<string>, priority: Option<string>): (r: Result<TicketPatch, ApiError>)
    ensures r.Success? <==>
      && (status.None? || status.value == "" || status.value in StatusValues)
      && (priority.None? || priority.value == "" || priority.value in PriorityValues)
    ensures r.Success? ==>
      && (r.value.status.Some? <==> status.Some? && status.value != "")
      && (r.value.status.Some? ==> StatusName(r.value.status.value) == status.value)
      && (r.value.priority.Some? <==> priority.Some? && priority.value != "")
      && (r.value.priority.Some? ==> PriorityName(r.value.priority.value) == priority.value)
    ensures r.Failure? ==> r.error.status == 500 && r.error.error == "Failed to update ticket"
  {
    var s := if status.Some? && status.value != "" then Some(status.value) else None;
    var p := if priority.Some? && priority.value != "" then Some(priority.value) else None;
    var errors := InEnum("status", s, StatusValues) + InEnum("priority", p, PriorityValues);
    if errors != [] then Failure(UpdateFailed(ValidationMessage("Validation failed", errors)))
    else
      Success(TicketPatch(
        if s.Some? then ParseStatus(s.value) else None,
        if p.Some? then ParsePriority(p.value) else None))
  }

  /** Applies a patch at time `now`: status and priority become the patched
      ones where given, `updated_at` becomes `now`, and nothing else changes. */
  function ApplyPatch(t: Ticket, p: TicketPatch, now: int): (r: Ticket)
    ensures r.status == p.status.GetOr(t.status) && r.priority == p.priority.GetOr(t.priority)
    ensures r.updatedAt == now
    ensures r.(status := t.status, priority := t.priority, updatedAt := t.updatedAt) == t
  {
    t.(status := p.status.GetOr(t.status), priority := p.priority.GetOr(t.priority), updatedAt := now)
  }

  /** The soft delete at time `now`: `deleted` becomes true, `updated_at`
      becomes `now`, and nothing else changes. */
  function MarkDeleted(t: Ticket, now: int): (r: Ticket)
    ensures r.deleted && r.updatedAt == now
    ensures r.(deleted := t.deleted, updatedAt := t.updatedAt) == t
  {
    t.(deleted := true, updatedAt := now)
  }

  /** A patch keeps a ticket well formed: it touches no text field. */
  lemma PatchKeepsWellFormed(t: Ticket, p: TicketPatch, now: int)
    requires WellFormed(t)
    ensures WellFormed(ApplyPatch(t, p, now)) && ApplyPatch(t, p, now).id == t.id
  {
    var r := ApplyPatch(t, p, now);
    assert r.title == t.title && r.description == t.description && r.customerEmail == t.customerEmail;
  }

  /** The soft delete keeps a ticket well formed. */
  lemma MarkKeepsWellFormed(t: Ticket, now: int)
    requires WellFormed(t)
    ensures WellFormed(MarkDeleted(t, now)) && MarkDeleted(t, now).id == t.id
  {
    var r := MarkDeleted(t, now);
    assert r.title == t.title && r.description == t.description && r.customerEmail == t.customerEmail;
  }

  /** Once a ticket is soft-deleted its id is not found any more: with
      unique ids, a second delete or an update of it finds nothing. */
  lemma {:induction false} DeletedIsNotFound(ts: seq<Ticket>, i: nat, now: int)
    requires UniqueIds(ts) && i < |ts|
    ensures FindVisible(ts[i := MarkDeleted(ts[i], now)], ts[i].id).None?
  {
    var after := ts[i := MarkDeleted(ts[i], now)];
    forall j | 0 <= j < |after|
      ensures !(after[j].id == ts[i].id && !after[j].deleted)
    {
      if j != i {
        assert after[j] == ts[j];
        assert ts[j].id != ts[i].id by {
          if j < i { } else { }
        }
      }
    }
  }

  /** A soft-deleted ticket never shows up in a list: nothing a built
      filter accepts is deleted. */
  lemma DeletedNeverListed(ts: seq<Ticket>, status: Option<string>, priority: Option<string>, search: Option<string>)
    ensures forall t :: t in Matching(ts, BuildFilter(status, priority, search)) ==> t in ts && !t.deleted
  {
  }
}
