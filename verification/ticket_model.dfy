/** The Ticket document: its fields, defaults, normalisation and the rules
    checked when it is saved. */
module TicketModel {
  import opened Common
  import opened Constants
  import opened Text

  /** A store-assigned document identifier. */
  type Id = nat

  /** A stored ticket. Timestamps are milliseconds. */
  datatype Ticket = Ticket(
    id: Id,
    title: string,
    description: string,
    customerEmail: string,
    status: Status,
    priority: Priority,
    deleted: bool,
    createdAt: int,
    updatedAt: int)

  /** A ticket as the list, get and update handlers send it: every field but
      `deleted` (`select('-deleted')`). */
  datatype TicketView = TicketView(
    id: Id,
    title: string,
    description: string,
    customerEmail: string,
    status: Status,
    priority: Priority,
    createdAt: int,
    updatedAt: int)

  /** Strips the internal `deleted` flag. */
  function View(t: Ticket): TicketView {
    TicketView(t.id, t.title, t.description, t.customerEmail, t.status, t.priority, t.createdAt, t.updatedAt)
  }

  /** The values handed to `new Ticket({...})`: each one absent or a string. */
  datatype TicketFields = TicketFields(
    title: Option<string>,
    description: Option<string>,
    customerEmail: Option<string>,
    status: Option<string>,
    priority: Option<string>)

  /** The `customer_email` setters: the input with its white-space margins
      dropped, then lower-cased. */
  function NormaliseEmail(s: string): (r: string)
    ensures exists a, b :: Margins(s, a, b) && r == ToLower(s[a..b])
    ensures IsTrimmed(r) && IsLowerCase(r)
    ensures r == [] <==> forall i :: 0 <= i < |s| ==> IsSpace(s[i])
  {
    ToLowerKeepsTrimmed(Trim(s));
    ToLowerMakesLowerCase(Trim(s));
    ToLower(Trim(s))
  }

  /** Normalising an address twice is normalising it once. */
  lemma NormaliseEmailIdempotent(s: string)
    ensures NormaliseEmail(NormaliseEmail(s)) == NormaliseEmail(s)
  {
    var once := NormaliseEmail(s);
    ToLowerKeepsTrimmed(Trim(s));
    assert Trim(once) == once;
    ToLowerIdempotent(Trim(s));
  }

  /** What every stored ticket satisfies: title and description trimmed and
      non-empty, the address trimmed, lower-case and non-empty. */
  ghost predicate WellFormed(t: Ticket) {
    && IsTrimmed(t.title) && t.title != ""
    && IsTrimmed(t.description) && t.description != ""
    && IsTrimmed(t.customerEmail) && IsLowerCase(t.customerEmail) && t.customerEmail != ""
  }

  /** The address of a well-formed ticket is already normalised. */
  lemma WellFormedEmailIsNormal(t: Ticket)
    requires WellFormed(t)
    ensures NormaliseEmail(t.customerEmail) == t.customerEmail
  {
    ToLowerMakesLowerCase(t.customerEmail);
  }

  /** The `required` rule on a string path, checked after its setters ran. */
  function Required(path: string, v: Option<string>): (r: seq<FieldError>)
    ensures r == [] <==> v.Some? && v.value != ""
  {
    if v.Some? && v.value != "" then [] else [FieldError(path, "Path `" + path + "` is required.")]
  }

  /** The `enum` rule on a path without a default value given. */
  function InEnum(path: string, v: Option<string>, values: seq<string>): (r: seq<FieldError>)
    ensures r == [] <==> v.None? || v.value in values
  {
    if v.None? || v.value in values then []
    else [FieldError(path, "`" + v.value + "` is not a valid enum value for path `" + path + "`.")]
  }

  /** The rules that fail on save, in the schema's path order. */
  function TicketErrors(f: TicketFields): (r: seq<FieldError>)
    ensures r == [] <==>
      && f.title.Some? && Trim(f.title.value) != ""
      && f.description.Some? && Trim(f.description.value) != ""
      && f.customerEmail.Some? && Trim(f.customerEmail.value) != ""
      && (f.status.None? || f.status.value in StatusValues)
      && (f.priority.None? || f.priority.value in PriorityValues)
  {
    var title := if f.title.Some? then Some(Trim(f.title.value)) else None;
    var description := if f.description.Some? then Some(Trim(f.description.value)) else None;
    var email := if f.customerEmail.Some? then Some(NormaliseEmail(f.customerEmail.value)) else None;
    assert email.Some? ==> |email.value| == |Trim(f.customerEmail.value)|;
    Required("title", title)
    + Required("description", description)
    + Required("customer_email", email)
    + InEnum("status", f.status, StatusValues)
    + InEnum("priority", f.priority, PriorityValues)
  }

  /** `new Ticket(fields)` followed by a save. It succeeds exactly when title,
      description and address are present and not blank and status and
      priority are absent or valid; the saved ticket then has the trimmed
      title and description, the normalised address, status `open` and
      priority `medium` unless given, `deleted` false, both timestamps `now`,
      and it is well formed. A failure names at least one rule. */
  function BuildTicket(f: TicketFields, id: Id, now: int): (r: Result<Ticket, seq<FieldError>>)
    ensures r.Success? <==>
      && f.title.Some? && Trim(f.title.value) != ""
      && f.description.Some? && Trim(f.description.value) != ""
      && f.customerEmail.Some? && Trim(f.customerEmail.value) != ""
      && (f.status.None? || f.status.value in StatusValues)
      && (f.priority.None? || f.priority.value in PriorityValues)
    ensures r.Success? ==>
      var t := r.value;
      && t.id == id
      && t.title == Trim(f.title.value)
      && t.description == Trim(f.description.value)
      && t.customerEmail == NormaliseEmail(f.customerEmail.value)
      && (if f.status.None? then t.status == Open else StatusName(t.status) == f.status.value)
      && (if f.priority.None? then t.priority == Medium else PriorityName(t.priority) == f.priority.value)
      && !t.deleted && t.createdAt == now && t.updatedAt == now
      && WellFormed(t)
    ensures r.Failure? ==> r.error != []
  {
    var errors := TicketErrors(f);
    if errors != [] then Failure(errors)
    else
      var email := NormaliseEmail(f.customerEmail.value);
      ToLowerKeepsTrimmed(Trim(f.customerEmail.value));
      ToLowerMakesLowerCase(Trim(f.customerEmail.value));
      Success(Ticket(
        id,
        Trim(f.title.value),
        Trim(f.description.value),
        email,
        if f.status.None? then Open else ParseStatus(f.status.value).value,
        if f.priority.None? then Medium else ParsePriority(f.priority.value).value,
        false,
        now,
        now))
  }

  /** The tickets not soft-deleted, in store order: each visible ticket as
      often as the store holds it, and nothing else. */
  function Live(ts: seq<Ticket>): (r: seq<Ticket>)
    ensures forall t :: multiset(r)[t] == if t.deleted then 0 else multiset(ts)[t]
    ensures forall t :: t in r <==> t in ts && !t.deleted
    ensures |r| <= |ts|
  {
    if ts == [] then []
    else
      assert ts == [ts[0]] + ts[1..];
      (if ts[0].deleted then [] else [ts[0]]) + Live(ts[1..])
  }
}
