/** The ticket and note handlers over one document store: the tickets and
    notes collections and the counter that issues identifiers. Each handler
    answers like its controller, catching the failures it catches. */
module Store {
  import opened Common
  import opened Constants
  import opened Text
  import opened Sorting
  import opened TicketModel
  import opened NoteModel
  import opened Pagination
  import opened TicketQuery
  import opened Stats
  import opened Validation

  /** The query of GET /tickets: `page` and `limit` as `parseInt` read them
      (None for NaN), and the three filter strings when given. */
  datatype ListQuery = ListQuery(
    page: Option<int>,
    limit: Option<int>,
    status: Option<string>,
    priority: Option<string>,
    search: Option<string>)

  /** The body of a list answer. */
  datatype TicketList = TicketList(tickets: seq<TicketView>, pagination: PageInfo)

  /** The 500 answer when the list query fails; `message` is the store's. */
  function ListFailed(message: string): ApiError {
    ApiError(500, "Failed to fetch tickets", Some(message), [])
  }

  /** The store's refusal of a negative skip. */
  function NegativeSkipMessage(skip: int): string
    requires skip < 0
  {
    "BSON field 'skip' value must be >= 0, actual value '-" + Decimal(-skip) + "'"
  }

  /** `Math.abs(limit)`: the store treats a negative limit like its magnitude
      (returning a single batch). */
  function LimitSize(limit: int): (n: nat)
    ensures n == limit || n == -limit
    ensures limit != 0 ==> n > 0
  {
    if limit < 0 then -limit else limit
  }

  /** The identifiers of the tickets, in order. */
  function Ids(ts: seq<Ticket>): (r: seq<Id>)
    ensures |r| == |ts| && forall i :: 0 <= i < |ts| ==> r[i] == ts[i].id
  {
    seq(|ts|, i requires 0 <= i < |ts| => ts[i].id)
  }

  /** The values `createTicket` hands to the document: the three text fields
      as received, no status (so the default applies), and the priority
      given or, when it is absent or empty, "medium" (`priority || 'medium'`). */
  function CreateFields(b: TicketCreateBody): (f: TicketFields)
    ensures f.title == b.title && f.description == b.description && f.customerEmail == b.customerEmail
    ensures f.status.None?
    ensures f.priority == Some(if b.priority.None? || b.priority.value == "" then "medium" else b.priority.value)
  {
    TicketFields(b.title, b.description, b.customerEmail, None,
      Some(if b.priority.None? || b.priority.value == "" then "medium" else b.priority.value))
  }

  /** The 500 answer of a create handler whose document failed validation
      on save, carrying the library's summary of the failed rules. */
  function SaveFailed(error: string, model: string, errors: seq<FieldError>): ApiError {
    ApiError(500, error, Some(ValidationMessage(model + " validation failed", errors)), [])
  }

  /** Identifiers are unique within each collection and below the counter;
      every stored document is well formed; every note refers to a stored
      ticket. */
  ghost predicate Consistent(ts: seq<Ticket>, ns: seq<Note>, nextId: nat) {
    && UniqueIds(ts)
    && (forall i :: 0 <= i < |ts| ==> ts[i].id < nextId && WellFormed(ts[i]))
    && (forall i, j :: 0 <= i < j < |ns| ==> ns[i].id != ns[j].id)
    && (forall i :: 0 <= i < |ns| ==> ns[i].id < nextId && NoteWellFormed(ns[i]))
    && (forall i :: 0 <= i < |ns| ==> ns[i].ticketId in Ids(ts))
  }

  /** Replacing a ticket by a well-formed one with the same id keeps the
      store consistent. */
  lemma ReplaceTicketKeepsConsistent(ts: seq<Ticket>, ns: seq<Note>, nextId: nat, i: nat, t: Ticket)
    requires Consistent(ts, ns, nextId) && i < |ts|
    requires t.id == ts[i].id && WellFormed(t)
    ensures Consistent(ts[i := t], ns, nextId)
  {
    ReplaceKeepsIds(ts, i, t);
    var after := ts[i := t];
    forall k | 0 <= k < |after|
      ensures after[k].id < nextId && WellFormed(after[k])
    {
      if k != i {
        assert after[k] == ts[k];
      }
    }
  }

  /** Replacing a ticket by one with the same id keeps every id in place. */
  lemma ReplaceKeepsIds(ts: seq<Ticket>, i: nat, t: Ticket)
    requires i < |ts| && t.id == ts[i].id
    ensures Ids(ts[i := t]) == Ids(ts)
    ensures UniqueIds(ts) ==> UniqueIds(ts[i := t])
  {
    var after := ts[i := t];
    assert forall k :: 0 <= k < |ts| ==> after[k].id == ts[k].id;
  }

  /** Appending a well-formed ticket with the counter's id, and advancing the
      counter, keeps the store consistent. */
  lemma AppendTicketKeepsConsistent(ts: seq<Ticket>, ns: seq<Note>, nextId: nat, t: Ticket)
    requires Consistent(ts, ns, nextId)
    requires t.id == nextId && WellFormed(t)
    ensures Consistent(ts + [t], ns, nextId + 1)
  {
    var after := ts + [t];
    forall k | 0 <= k < |after|
      ensures after[k].id < nextId + 1 && WellFormed(after[k])
      ensures k < |ts| ==> after[k] == ts[k]
    {
    }
    forall a, b | 0 <= a < b < |after|
      ensures after[a].id != after[b].id
    {
      if b == |ts| {
        assert after[a] == ts[a];
      }
    }
    forall k | 0 <= k < |ns|
      ensures ns[k].ticketId in Ids(after)
    {
      assert ns[k].ticketId in Ids(ts);
      var m :| 0 <= m < |ts| && Ids(ts)[m] == ns[k].ticketId;
      assert Ids(after)[m] == ns[k].ticketId;
    }
  }

  /** Appending a well-formed note with the counter's id about a stored
      ticket, and advancing the counter, keeps the store consistent. */
  lemma AppendNoteKeepsConsistent(ts: seq<Ticket>, ns: seq<Note>, nextId: nat, n: Note)
    requires Consistent(ts, ns, nextId)
    requires n.id == nextId && NoteWellFormed(n) && n.ticketId in Ids(ts)
    ensures Consistent(ts, ns + [n], nextId + 1)
  {
  }

  class SupportStore {
    var tickets: seq<Ticket>
    var notes: seq<Note>
    var nextId: nat

    /** The store's invariant, see `Consistent`. */
    ghost predicate Valid()
      reads this
    {
      Consistent(tickets, notes, nextId)
    }

    /** An empty store. */
    constructor ()
      ensures Valid()
      ensures tickets == [] && notes == [] && nextId == 0
    {
      tickets := [];
      notes := [];
      nextId := 0;
    }

    /** GET /tickets. A page and limit that give a negative skip are refused
        by the store, which the handler answers with 500. Otherwise the
        answer lists, newest first, the tickets the filter accepts from
        position `skip` on, at most |limit| of them, without their `deleted`
        flag, and the pagination over all the accepted tickets. */
    method GetAllTickets(q: ListQuery) returns (r: Result<TicketList, ApiError>)
      ensures r.Failure? <==> Skip(EffectivePage(q.page), EffectiveLimit(q.limit)) < 0
      ensures r.Failure? ==> r.error.status == 500 && r.error.error == "Failed to fetch tickets"
      ensures r.Success? ==>
        var filter := BuildFilter(q.status, q.priority, q.search);
        var skip := Skip(EffectivePage(q.page), EffectiveLimit(q.limit));
        && r.value.pagination == Paginate(q.page, q.limit, |Matching(tickets, filter)|)
        && r.value.tickets == Views(Window(NewestFirst(Matching(tickets, filter)), skip, LimitSize(EffectiveLimit(q.limit))))
        && |r.value.tickets| <= LimitSize(r.value.pagination.limit)
        && (forall v :: v in r.value.tickets ==> exists t :: t in tickets && Matches(filter, t) && !t.deleted && View(t) == v)
        && (forall i, j :: 0 <= i < j < |r.value.tickets| ==> r.value.tickets[i].createdAt >= r.value.tickets[j].createdAt)
    {
      var page := EffectivePage(q.page);
      var limit := EffectiveLimit(q.limit);
      var skip := Skip(page, limit);
      var filter := BuildFilter(q.status, q.priority, q.search);
      if skip < 0 {
        r := Failure(ListFailed(NegativeSkipMessage(skip)));
        return;
      }
      var matching := Matching(tickets, filter);
      var window := Window(NewestFirst(matching), skip, LimitSize(limit));
      ListedAreMatching(tickets, filter, skip, LimitSize(limit));
      r := Success(TicketList(Views(window), Paginate(q.page, q.limit, |matching|)));
    }

    /** GET /tickets/:id: the ticket with that id that is not soft-deleted,
        without its flag, or 404 when there is none. */
    method GetTicketById(id: Id) returns (r: Result<TicketView, ApiError>)
      ensures r.Failure? <==> forall t :: t in tickets ==> !(t.id == id && !t.deleted)
      ensures r.Failure? ==> r.error == TicketNotFound
      ensures r.Success? ==> exists t :: t in tickets && t.id == id && !t.deleted && View(t) == r.value
    {
      match FindVisible(tickets, id)
      case None =>
        r := Failure(TicketNotFound);
      case Some(i) =>
        r := Success(View(tickets[i]));
    }

    /** PATCH /tickets/:id at time `now`. The update validators run first, so
        a status or priority that is set and not a valid value answers 500
        whether or not the ticket exists; then a missing or deleted ticket
        answers 404; otherwise that ticket alone gets the patch and the new
        `updated_at`, and the answer is its new state. */
    method UpdateTicket(id: Id, status: Option<string>, priority: Option<string>, now: int) returns (r: Result<TicketView, ApiError>)
      requires Valid()
      modifies this
      ensures Valid()
      ensures notes == old(notes) && nextId == old(nextId)
      ensures PatchFromBody(status, priority).Failure? ==>
        r == Failure(PatchFromBody(status, priority).error) && tickets == old(tickets)
      ensures PatchFromBody(status, priority).Success? && FindVisible(old(tickets), id).None? ==>
        r == Failure(TicketNotFound) && tickets == old(tickets)
      ensures PatchFromBody(status, priority).Success? && FindVisible(old(tickets), id).Some? ==>
        var i := FindVisible(old(tickets), id).value;
        && tickets == old(tickets)[i := ApplyPatch(old(tickets)[i], PatchFromBody(status, priority).value, now)]
        && r == Success(View(tickets[i]))
    {
      var patch := PatchFromBody(status, priority);
      if patch.Failure? {
        r := Failure(patch.error);
        return;
      }
      match FindVisible(tickets, id)
      case None =>
        r := Failure(TicketNotFound);
      case Some(i) =>
        var updated := ApplyPatch(tickets[i], patch.value, now);
        PatchKeepsWellFormed(tickets[i], patch.value, now);
        ReplaceTicket(i, updated);
        r := Success(View(updated));
    }

    /** DELETE /tickets/:id at time `now`: a missing or already deleted
        ticket answers 404; otherwise that ticket alone is marked deleted
        with the new `updated_at`, and from then on its id is not found. */
    method DeleteTicket(id: Id, now: int) returns (r: Result<string, ApiError>)
      requires Valid()
      modifies this
      ensures Valid()
      ensures notes == old(notes) && nextId == old(nextId)
      ensures FindVisible(old(tickets), id).None? ==> r == Failure(TicketNotFound) && tickets == old(tickets)
      ensures FindVisible(old(tickets), id).Some? ==>
        var i := FindVisible(old(tickets), id).value;
        && tickets == old(tickets)[i := MarkDeleted(old(tickets)[i], now)]
        && r == Success("Ticket deleted successfully")
      ensures FindVisible(tickets, id).None?
    {
      match FindVisible(tickets, id)
      case None =>
        r := Failure(TicketNotFound);
      case Some(i) =>
        DeletedIsNotFound(tickets, i, now);
        MarkKeepsWellFormed(tickets[i], now);
        ReplaceTicket(i, MarkDeleted(tickets[i], now));
        r := Success("Ticket deleted successfully");
    }

    /** POST /tickets at time `now` with a body the schema accepted. The
        document gets the next identifier, status `open`, and the given
        priority or `medium`; saving it fails, answering 500, exactly when a
        text field is absent or blank once trimmed, or the priority is not a
        valid value. On success the ticket is appended, found by its id, and
        returned. */
    method CreateTicket(body: TicketCreateBody, now: int) returns (r: Result<Ticket, ApiError>)
      requires Valid()
      modifies this
      ensures Valid()
      ensures notes == old(notes)
      ensures r.Success? <==>
        && body.title.Some? && Trim(body.title.value) != ""
        && body.description.Some? && Trim(body.description.value) != ""
        && body.customerEmail.Some? && Trim(body.customerEmail.value) != ""
        && (body.priority.None? || body.priority.value == "" || body.priority.value in PriorityValues)
      ensures r.Failure? ==>
        && r == Failure(SaveFailed("Failed to create ticket", "Ticket", BuildTicket(CreateFields(body), old(nextId), now).error))
        && tickets == old(tickets) && nextId == old(nextId)
      ensures r.Success? ==>
        && r == Success(BuildTicket(CreateFields(body), old(nextId), now).value)
        && tickets == old(tickets) + [r.value] && nextId == old(nextId) + 1
        && r.value.id == old(nextId) && r.value.status == Open
        && FindVisible(tickets, r.value.id) == Some(|old(tickets)|)
    {
      var built := BuildTicket(CreateFields(body), nextId, now);
      CreateOutcome(body, nextId, now);
      if built.Failure? {
        r := Failure(SaveFailed("Failed to create ticket", "Ticket", built.error));
        return;
      }
      AppendTicket(built.value);
      r := Success(built.value);
    }

    /** Stores a new well-formed ticket under the counter's id and advances
        the counter; the ticket is then found by its id at the end. */
    method AppendTicket(t: Ticket)
      requires Valid() && WellFormed(t) && t.id == nextId && !t.deleted
      modifies this
      ensures Valid()
      ensures tickets == old(tickets) + [t] && notes == old(notes) && nextId == old(nextId) + 1
      ensures FindVisible(tickets, t.id) == Some(|old(tickets)|)
    {
      AppendTicketKeepsConsistent(tickets, notes, nextId, t);
      assert forall i :: 0 <= i < |tickets| ==> tickets[i].id != t.id;
      FindAppended(tickets, t);
      tickets := tickets + [t];
      nextId := nextId + 1;
    }

    /** Replaces the ticket at position `i` by a well-formed one with the
        same id. */
    method ReplaceTicket(i: nat, t: Ticket)
      requires Valid() && i < |tickets| && WellFormed(t) && t.id == tickets[i].id
      modifies this
      ensures Valid()
      ensures tickets == old(tickets)[i := t] && notes == old(notes) && nextId == old(nextId)
    {
      ReplaceTicketKeepsConsistent(tickets, notes, nextId, i, t);
      tickets := tickets[i := t];
    }

    /** Stores a new well-formed note about a stored ticket under the
        counter's id and advances the counter. */
    method AppendNote(n: Note)
      requires Valid() && NoteWellFormed(n) && n.id == nextId && n.ticketId in Ids(tickets)
      modifies this
      ensures Valid()
      ensures notes == old(notes) + [n] && tickets == old(tickets) && nextId == old(nextId) + 1
    {
      AppendNoteKeepsConsistent(tickets, notes, nextId, n);
      notes := notes + [n];
      nextId := nextId + 1;
    }

    /** GET /tickets/:id/notes: 404 when the ticket is missing or deleted;
        otherwise every note of that ticket, newest first. */
    method GetNotesByTicket(id: Id) returns (r: Result<seq<Note>, ApiError>)
      ensures r.Failure? <==> forall t :: t in tickets ==> !(t.id == id && !t.deleted)
      ensures r.Failure? ==> r.error == TicketNotFound
      ensures r.Success? ==>
        && multiset(r.value) == multiset(NotesFor(notes, id))
        && (forall n :: n in r.value <==> n in notes && n.ticketId == id)
        && (forall i, j :: 0 <= i < j < |r.value| ==> r.value[i].createdAt >= r.value[j].createdAt)
    {
      match FindVisible(tickets, id)
      case None =>
        r := Failure(TicketNotFound);
      case Some(_) =>
        r := Success(NotesNewestFirst(NotesFor(notes, id)));
    }

    /** POST /tickets/:id/notes at time `now` by the authenticated user
        `userId`, with the schema-checked text and the HTML sanitiser
        `sanitize`. A missing or deleted ticket answers 404; a sanitised text
        that is blank once trimmed fails on save and answers 500; otherwise the
        note with the trimmed sanitised text and the next identifier is
        appended and returned. Tickets never change. */
    method CreateNote(id: Id, userId: Id, text: string, sanitize: string -> string, now: int) returns (r: Result<Note, ApiError>)
      requires Valid()
      modifies this
      ensures Valid()
      ensures tickets == old(tickets)
      ensures FindVisible(tickets, id).None? ==>
        r == Failure(TicketNotFound) && notes == old(notes) && nextId == old(nextId)
      ensures FindVisible(tickets, id).Some? && Trim(sanitize(text)) == "" ==>
        && r == Failure(SaveFailed("Failed to create note", "Note", BuildNote(NoteFields(Some(id), Some(userId), Some(sanitize(text))), old(nextId), now).error))
        && notes == old(notes) && nextId == old(nextId)
      ensures FindVisible(tickets, id).Some? && Trim(sanitize(text)) != "" ==>
        && r.Success?
        && r.value == Note(old(nextId), id, userId, Trim(sanitize(text)), now, now)
        && notes == old(notes) + [r.value] && nextId == old(nextId) + 1
    {
      match FindVisible(tickets, id)
      case None =>
        r := Failure(TicketNotFound);
      case Some(i) =>
        var fields := NoteFields(Some(id), Some(userId), Some(sanitize(text)));
        match BuildNote(fields, nextId, now)
        case Failure(errors) =>
          r := Failure(SaveFailed("Failed to create note", "Note", errors));
        case Success(n) =>
          assert n.ticketId == Ids(tickets)[i];
          AppendNote(n);
          r := Success(n);
    }

    /** GET /stats at time `now`: the report over the tickets that are not
        deleted, with the day series of the last seven days. */
    method GetStats(now: int) returns (r: Report)
      ensures ReportOf(Aggregate(tickets, WindowStart(now)), r)
      ensures Summarises(tickets, WindowStart(now), r)
    {
      r := AssembleReport(Aggregate(tickets, WindowStart(now)));
      ReportSummarises(tickets, WindowStart(now), r);
    }
  }

  /** What `createTicket` saves: the document built from a body succeeds
      exactly when its text fields are present and not blank and its priority
      is absent, empty or valid; it is then a well-formed open ticket with the
      given id. */
  lemma CreateOutcome(body: TicketCreateBody, id: Id, now: int)
    ensures BuildTicket(CreateFields(body), id, now).Success? <==>
      && body.title.Some? && Trim(body.title.value) != ""
      && body.description.Some? && Trim(body.description.value) != ""
      && body.customerEmail.Some? && Trim(body.customerEmail.value) != ""
      && (body.priority.None? || body.priority.value == "" || body.priority.value in PriorityValues)
    ensures BuildTicket(CreateFields(body), id, now).Success? ==>
      var t := BuildTicket(CreateFields(body), id, now).value;
      && t.id == id && t.status == Open && !t.deleted && WellFormed(t)
      && (if body.priority.None? || body.priority.value == "" then t.priority == Medium
          else PriorityName(t.priority) == body.priority.value)
  {
    assert "medium" in PriorityValues;
  }

  /** A visible ticket appended after tickets with other ids is found at
      its position. */
  lemma {:induction false} FindAppended(ts: seq<Ticket>, t: Ticket)
    requires forall i :: 0 <= i < |ts| ==> ts[i].id != t.id
    requires !t.deleted
    ensures FindVisible(ts + [t], t.id) == Some(|ts|)
  {
    if ts != [] {
      assert (ts + [t])[1..] == ts[1..] + [t];
      FindAppended(ts[1..], t);
    }
  }

  /** Every ticket of a listed page is a stored ticket the filter accepts
      and that is not deleted, and the page is newest first. */
  lemma ListedAreMatching(ts: seq<Ticket>, filter: Filter, skip: nat, n: nat)
    requires !filter.deleted
    ensures var page := Views(Window(NewestFirst(Matching(ts, filter)), skip, n));
      && (forall v :: v in page ==> exists t :: t in ts && Matches(filter, t) && !t.deleted && View(t) == v)
      && (forall i, j :: 0 <= i < j < |page| ==> page[i].createdAt >= page[j].createdAt)
  {
    var sorted := NewestFirst(Matching(ts, filter));
    var window := Window(sorted, skip, n);
    var page := Views(window);
    forall v | v in page
      ensures exists t :: t in ts && Matches(filter, t) && !t.deleted && View(t) == v
    {
      var i :| 0 <= i < |page| && page[i] == v;
      var t := window[i];
      assert t == sorted[skip + i];
      assert t in multiset(sorted);
      assert t in ts && Matches(filter, t);
    }
  }

  /** A body the update schema accepts never reaches the update validators'
      500: behind the route, an update only answers 404 or succeeds. */
  lemma ValidatedUpdateApplies(status: Option<string>, priority: Option<string>)
    requires Validate(TicketUpdateIssues, TicketUpdateBody(status, priority)) == Next
    ensures PatchFromBody(status, priority).Success?
    ensures PatchFromBody(status, priority).value.status.Some? <==> status.Some?
    ensures PatchFromBody(status, priority).value.priority.Some? <==> priority.Some?
  {
    EnumValuesDistinct();
    assert "" !in StatusValues && "" !in PriorityValues;
  }

  /** Behind the route, a creation body the schema accepted is saved exactly
      when its title, description and address are not blank once trimmed. */
  lemma ValidatedCreateOutcome(body: TicketCreateBody, isEmail: string -> bool, id: Id, now: int)
    requires Validate(b => TicketCreateIssues(b, isEmail), body) == Next
    ensures BuildTicket(CreateFields(body), id, now).Success? <==>
      Trim(body.title.value) != "" && Trim(body.description.value) != "" && Trim(body.customerEmail.value) != ""
  {
  }

  /** A title of spaces passes the schema (its length is at least 1) but is
      empty once trimmed, so the save fails and the handler answers 500
      "Failed to create ticket" rather than the schema's 400. */
  lemma BlankTitleAnswers500(isEmail: string -> bool)
    requires isEmail("a@b.co")
    ensures var body := TicketCreateBody(Some("   "), Some("Cannot log in"), Some("a@b.co"), None);
      && Validate(b => TicketCreateIssues(b, isEmail), body) == Next
      && BuildTicket(CreateFields(body), 0, 0).Failure?
  {
    var body := TicketCreateBody(Some("   "), Some("Cannot log in"), Some("a@b.co"), None);
    assert TicketCreateIssues(body, isEmail) == [];
    assert CreateFields(body).title == Some("   ");
    assert Trim("   ") == "";
    assert !BuildTicket(CreateFields(body), 0, 0).Success?;
  }
}
