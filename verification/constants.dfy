/** The ticket status and priority enumerations and the pagination defaults. */
module Constants {
  import opened Common

  /** TICKET_STATUS. */
  datatype Status = Open | Pending | Resolved

  /** TICKET_PRIORITY. */
  datatype Priority = Low | Medium | High

  /** `Object.values(TICKET_STATUS)`, in declaration order. */
  const StatusValues: seq<string> := ["open", "pending", "resolved"]

  /** `Object.values(TICKET_PRIORITY)`, in declaration order. */
  const PriorityValues: seq<string> := ["low", "medium", "high"]

  const DEFAULT_PAGE: int := 1
  const DEFAULT_LIMIT: int := 10
  /** Defined next to the defaults; no handler applies it. */
  const MAX_LIMIT: int := 100

  /** Milliseconds in a day, the unit of every timestamp in the model. */
  const MS_PER_DAY: int := 86400000

  /** The stored string of a status: one of the three values. */
  function StatusName(s: Status): (r: string)
    ensures r in StatusValues
  {
    match s
    case Open => "open"
    case Pending => "pending"
    case Resolved => "resolved"
  }

  /** The stored string of a priority: one of the three values. */
  function PriorityName(p: Priority): (r: string)
    ensures r in PriorityValues
  {
    match p
    case Low => "low"
    case Medium => "medium"
    case High => "high"
  }

  /** `Object.values(TICKET_STATUS).includes(x)`, returning which status `x`
      names: defined exactly on the three values, and inverse to `StatusName`. */
  function ParseStatus(x: string): (r: Option<Status>)
    ensures r.Some? <==> x in StatusValues
    ensures r.Some? ==> x == StatusName(r.value)
  {
    if x == "open" then Some(Open)
    else if x == "pending" then Some(Pending)
    else if x == "resolved" then Some(Resolved)
    else None
  }

  /** `Object.values(TICKET_PRIORITY).includes(x)`, returning which priority
      `x` names: defined exactly on the three values, and inverse to
      `PriorityName`. */
  function ParsePriority(x: string): (r: Option<Priority>)
    ensures r.Some? <==> x in PriorityValues
    ensures r.Some? ==> x == PriorityName(r.value)
  {
    if x == "low" then Some(Low)
    else if x == "medium" then Some(Medium)
    else if x == "high" then Some(High)
    else None
  }

  /** Names and parsing are inverse in both directions. */
  lemma NamesRoundTrip(s: Status, p: Priority, x: string)
    ensures ParseStatus(StatusName(s)) == Some(s) && ParsePriority(PriorityName(p)) == Some(p)
    ensures ParseStatus(x) == Some(s) <==> x == StatusName(s)
    ensures ParsePriority(x) == Some(p) <==> x == PriorityName(p)
  {
  }

  /** The enumerations have exactly three distinct values each, so names
      identify statuses and priorities. */
  lemma EnumValuesDistinct()
    ensures |StatusValues| == 3 && |PriorityValues| == 3
    ensures forall i, j :: 0 <= i < j < 3 ==> StatusValues[i] != StatusValues[j] && PriorityValues[i] != PriorityValues[j]
    ensures forall a: Status, b: Status :: StatusName(a) == StatusName(b) ==> a == b
    ensures forall a: Priority, b: Priority :: PriorityName(a) == PriorityName(b) ==> a == b
  {
  }

  /** The pagination defaults, and the unused maximum is at least the default limit. */
  lemma PaginationConstants()
    ensures DEFAULT_PAGE == 1 && DEFAULT_LIMIT == 10 && MAX_LIMIT == 100
    ensures 0 < DEFAULT_LIMIT <= MAX_LIMIT
  {
  }
}
