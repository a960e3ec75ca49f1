/** The statistics report: one aggregation over the tickets that are not
    soft-deleted, giving the total, the status and priority distributions and
    the per-day creations of the last seven days, reshaped into a report
    whose distributions always show every category. */
module Stats {
  import opened Common
  import opened Constants
  import opened Sorting
  import opened Grouping
  import opened TicketModel

  /** The four facets of the aggregation, as the store returns them. */
  datatype Facets = Facets(
    totalTickets: seq<nat>,
    statusCounts: seq<Group<Status>>,
    priorityCounts: seq<Group<Priority>>,
    last7Days: seq<Group<int>>)

  /** The report sent to the client. A day is identified by its number
      since the epoch, which orders like its "YYYY-MM-DD" string. */
  datatype Report = Report(
    total: nat,
    status: map<Status, nat>,
    priority: map<Priority, nat>,
    last7Days: seq<Group<int>>)

  /** The UTC calendar day of a timestamp (`$dateToString` with `%Y-%m-%d`). */
  function DayKey(time: int): (day: int)
    ensures day * MS_PER_DAY <= time < (day + 1) * MS_PER_DAY
  {
    time / MS_PER_DAY
  }

  /** The start of the window: seven days before `now`. */
  function WindowStart(now: int): (since: int)
    ensures since < now && now - since == 7 * MS_PER_DAY
    ensures DayKey(since) == DayKey(now) - 7
  {
    now - 7 * MS_PER_DAY
  }

  /** The status of each ticket, in order. */
  function Statuses(ts: seq<Ticket>): (r: seq<Status>)
    ensures |r| == |ts| && forall i :: 0 <= i < |ts| ==> r[i] == ts[i].status
  {
    seq(|ts|, i requires 0 <= i < |ts| => ts[i].status)
  }

  /** The priority of each ticket, in order. */
  function Priorities(ts: seq<Ticket>): (r: seq<Priority>)
    ensures |r| == |ts| && forall i :: 0 <= i < |ts| ==> r[i] == ts[i].priority
  {
    seq(|ts|, i requires 0 <= i < |ts| => ts[i].priority)
  }

  /** The creation day of each ticket created at or after `since`, in order:
      a day occurs in it exactly when some such ticket was created on it. */
  function RecentDays(ts: seq<Ticket>, since: int): (r: seq<int>)
    ensures forall d :: d in r <==> exists t :: t in ts && t.createdAt >= since && DayKey(t.createdAt) == d
    ensures |r| <= |ts|
  {
    if ts == [] then []
    else (if ts[0].createdAt >= since then [DayKey(ts[0].createdAt)] else []) + RecentDays(ts[1..], since)
  }

  /** The sort key of the `last7Days` facet's `$sort: { _id: 1 }`. */
  function DayOf(g: Group<int>): int {
    g.key
  }

  /** The `last7Days` facet over the window's creation days: one group per
      day, in ascending day order. */
  function DaySeriesOf(days: seq<int>): seq<Group<int>> {
    SortBy(GroupCounts(days), DayOf)
  }

  /** The aggregation pipeline: `$match: { deleted: false }`, then four
      facets over the same matched tickets. `$count` emits no document when
      nothing matched. */
  function Aggregate(ts: seq<Ticket>, since: int): (r: Facets)
    ensures r.totalTickets == [] <==> forall t :: t in ts ==> t.deleted
    ensures forall n :: n in r.totalTickets ==> n == |Live(ts)| > 0
    ensures DistinctKeys(r.statusCounts) && TotalCount(r.statusCounts) == |Live(ts)|
    ensures DistinctKeys(r.priorityCounts) && TotalCount(r.priorityCounts) == |Live(ts)|
    ensures TotalCount(r.last7Days) == |RecentDays(Live(ts), since)| <= |Live(ts)|
  {
    var live := Live(ts);
    assert live == [] ==> forall t :: t in ts ==> t.deleted;
    assert live != [] ==> live[0] in ts && !live[0].deleted;
    TotalCountSorted(GroupCounts(RecentDays(live, since)));
    Facets(
      if |live| == 0 then [] else [|live|],
      GroupCounts(Statuses(live)),
      GroupCounts(Priorities(live)),
      DaySeriesOf(RecentDays(live, since)))
  }

  /** `r` is the report assembled from the facets: the total is the count
      document's value or 0, each distribution has exactly its three keys with
      the count the grouped facet gives that key and 0 for keys it lacks, and
      the day series is passed through. */
  ghost predicate ReportOf(f: Facets, r: Report) {
    && r.total == (if |f.totalTickets| > 0 then f.totalTickets[0] else 0)
    && r.status.Keys == {Open, Pending, Resolved}
    && (forall s :: s in r.status ==> r.status[s] == Lookup(f.statusCounts, s))
    && r.priority.Keys == {Low, Medium, High}
    && (forall p :: p in r.priority ==> r.priority[p] == Lookup(f.priorityCounts, p))
    && r.last7Days == f.last7Days
  }

  /** Reshapes the facets into the report: the distributions start from
      maps with every key at zero and each grouped count is written over its
      key in turn. */
  method AssembleReport(f: Facets) returns (r: Report)
    ensures ReportOf(f, r)
  {
    var total := if |f.totalTickets| > 0 then f.totalTickets[0] else 0;

    var status := map[Open := 0, Pending := 0, Resolved := 0];
    var i := 0;
    while i < |f.statusCounts|
      invariant 0 <= i <= |f.statusCounts|
      invariant status.Keys == {Open, Pending, Resolved}
      invariant forall s :: s in status ==> status[s] == Lookup(f.statusCounts[..i], s)
    {
      assert f.statusCounts[..i + 1][..i] == f.statusCounts[..i];
      var g := f.statusCounts[i];
      assert g.key == Open || g.key == Pending || g.key == Resolved;
      status := status[g.key := g.count];
      i := i + 1;
    }
    assert f.statusCounts[..i] == f.statusCounts;

    var priority := map[Low := 0, Medium := 0, High := 0];
    var j := 0;
    while j < |f.priorityCounts|
      invariant 0 <= j <= |f.priorityCounts|
      invariant priority.Keys == {Low, Medium, High}
      invariant forall p :: p in priority ==> priority[p] == Lookup(f.priorityCounts[..j], p)
    {
      assert f.priorityCounts[..j + 1][..j] == f.priorityCounts[..j];
      var g := f.priorityCounts[j];
      assert g.key == Low || g.key == Medium || g.key == High;
      priority := priority[g.key := g.count];
      j := j + 1;
    }
    assert f.priorityCounts[..j] == f.priorityCounts;

    r := Report(total, status, priority, f.last7Days);
  }

  /** The 500 answer when the aggregation fails. */
  function StatsFailed(message: string): ApiError {
    ApiError(500, "Failed to fetch stats", Some(message), [])
  }

  /** `getStats` given the store's answer to the aggregation: a failure
      becomes the 500 answer carrying its message and no report; facets
      become the assembled report. */
  method StatsResponse(agg: Result<Facets, string>) returns (r: Result<Report, ApiError>)
    ensures agg.Failure? <==> r.Failure?
    ensures agg.Failure? ==> r.error == StatsFailed(agg.error)
    ensures agg.Success? ==> ReportOf(agg.value, r.value)
  {
    match agg
    case Failure(message) =>
      r := Failure(StatsFailed(message));
    case Success(f) =>
      var report := AssembleReport(f);
      r := Success(report);
  }

  /** What the report says about the stored tickets: only tickets that are
      not deleted count; the total is their number; each status and priority
      key holds the number of such tickets with that value, and each
      distribution adds up to the total; the day series is strictly ascending,
      has an entry for each day on which such a ticket was created since
      `since` and for no other day, each entry counting those creations (at
      least one), and its counts add up to at most the total. */
  ghost predicate Summarises(ts: seq<Ticket>, since: int, r: Report) {
    && CountsSummarise(Live(ts), r)
    && DaysSummarise(RecentDays(Live(ts), since), r)
    && TotalCount(r.last7Days) <= r.total
  }

  /** The total, status and priority part of `Summarises`, over the tickets
      that are not deleted. */
  ghost predicate CountsSummarise(live: seq<Ticket>, r: Report) {
    && r.total == |live|
    && r.status.Keys == {Open, Pending, Resolved}
    && (forall s :: s in r.status ==> r.status[s] == multiset(Statuses(live))[s])
    && r.status[Open] + r.status[Pending] + r.status[Resolved] == r.total
    && r.priority.Keys == {Low, Medium, High}
    && (forall p :: p in r.priority ==> r.priority[p] == multiset(Priorities(live))[p])
    && r.priority[Low] + r.priority[Medium] + r.priority[High] == r.total
  }

  /** The day part of `Summarises`, over the creation days in the window. */
  ghost predicate DaysSummarise(days: seq<int>, r: Report) {
    && (forall i, j :: 0 <= i < j < |r.last7Days| ==> r.last7Days[i].key < r.last7Days[j].key)
    && (forall i :: 0 <= i < |r.last7Days| ==> r.last7Days[i].count == multiset(days)[r.last7Days[i].key] >= 1)
    && (forall d :: d in days ==> exists i :: 0 <= i < |r.last7Days| && r.last7Days[i].key == d)
    && TotalCount(r.last7Days) == |days|
  }

  /** The report assembled from the aggregation summarises the store. */
  lemma ReportSummarises(ts: seq<Ticket>, since: int, r: Report)
    requires ReportOf(Aggregate(ts, since), r)
    ensures Summarises(ts, since, r)
  {
    ReportCounts(ts, since, r);
    ReportDays(ts, since, r);
  }

  /** The total and the two distributions of the report. */
  lemma ReportCounts(ts: seq<Ticket>, since: int, r: Report)
    requires ReportOf(Aggregate(ts, since), r)
    ensures CountsSummarise(Live(ts), r)
  {
    var live := Live(ts);
    StatusTally(Statuses(live));
    PriorityTally(Priorities(live));
  }

  /** The day series of the report. */
  lemma ReportDays(ts: seq<Ticket>, since: int, r: Report)
    requires ReportOf(Aggregate(ts, since), r)
    ensures DaysSummarise(RecentDays(Live(ts), since), r)
  {
    DaySeries(RecentDays(Live(ts), since));
  }

  /** The day facet: strictly ascending, one entry per distinct day
      counting its occurrences, the counts adding up to the number of days. */
  lemma DaySeries(days: seq<int>)
    ensures var series := DaySeriesOf(days);
      && (forall i, j :: 0 <= i < j < |series| ==> series[i].key < series[j].key)
      && (forall i :: 0 <= i < |series| ==> series[i].count == multiset(days)[series[i].key] >= 1)
      && (forall d :: d in days ==> exists i :: 0 <= i < |series| && series[i].key == d)
      && TotalCount(series) == |days|
  {
    DaySeriesAscending(GroupCounts(days));
    DaySeriesCounts(days);
    DaySeriesCovers(days);
    TotalCountSorted(GroupCounts(days));
  }

  /** Groups with distinct days sort into strictly ascending days. */
  lemma DaySeriesAscending(groups: seq<Group<int>>)
    requires DistinctKeys(groups)
    ensures forall i, j :: 0 <= i < j < |SortBy(groups, DayOf)| ==> SortBy(groups, DayOf)[i].key < SortBy(groups, DayOf)[j].key
  {
    assert KeysDistinct(groups, DayOf) by {
      forall i, j | 0 <= i < j < |groups| ensures DayOf(groups[i]) != DayOf(groups[j]) {
        assert groups[i].key != groups[j].key;
      }
    }
    SortStrictlyAscending(groups, DayOf);
  }

  /** Each entry of the sorted series counts the occurrences of its day. */
  lemma DaySeriesCounts(days: seq<int>)
    ensures var series := DaySeriesOf(days);
      forall i :: 0 <= i < |series| ==> series[i].count == multiset(days)[series[i].key] >= 1
  {
    var groups := GroupCounts(days);
    var series := DaySeriesOf(days);
    GroupCountsExact(days);
    forall i | 0 <= i < |series|
      ensures series[i].count == multiset(days)[series[i].key] >= 1
    {
      assert series[i] in multiset(groups);
      var m :| 0 <= m < |groups| && groups[m] == series[i];
    }
  }

  /** Every day occurring in `days` has an entry in the sorted series. */
  lemma DaySeriesCovers(days: seq<int>)
    ensures var series := DaySeriesOf(days);
      forall d :: d in days ==> exists i :: 0 <= i < |series| && series[i].key == d
  {
    var groups := GroupCounts(days);
    var series := DaySeriesOf(days);
    GroupCountsExact(days);
    forall d | d in days
      ensures exists i :: 0 <= i < |series| && series[i].key == d
    {
      var m :| 0 <= m < |groups| && groups[m].key == d;
      assert groups[m] in multiset(series);
      var i :| 0 <= i < |series| && series[i] == groups[m];
    }
  }

  /** Every status is one of three, so the three counts add up to the length. */
  lemma {:induction false} StatusTally(ss: seq<Status>)
    ensures multiset(ss)[Open] + multiset(ss)[Pending] + multiset(ss)[Resolved] == |ss|
  {
    if ss != [] {
      var init, x := ss[..|ss| - 1], ss[|ss| - 1];
      assert ss == init + [x];
      assert multiset(ss) == multiset(init) + multiset{x};
      assert x == Open || x == Pending || x == Resolved;
      StatusTally(init);
    }
  }

  /** Every priority is one of three, so the three counts add up to the length. */
  lemma {:induction false} PriorityTally(ps: seq<Priority>)
    ensures multiset(ps)[Low] + multiset(ps)[Medium] + multiset(ps)[High] == |ps|
  {
    if ps != [] {
      var init, x := ps[..|ps| - 1], ps[|ps| - 1];
      assert ps == init + [x];
      assert multiset(ps) == multiset(init) + multiset{x};
      assert x == Low || x == Medium || x == High;
      PriorityTally(init);
    }
  }

  /** Adding a group in front adds its count. */
  lemma {:induction false} TotalCountCons<K>(g: Group<K>, gs: seq<Group<K>>)
    ensures TotalCount([g] + gs) == g.count + TotalCount(gs)
    decreases |gs|
  {
    if gs != [] {
      var init := gs[..|gs| - 1];
      assert ([g] + gs)[..|gs|] == [g] + init;
      TotalCountCons(g, init);
    }
  }

  /** Inserting a group into the series adds its count. */
  lemma {:induction false} TotalCountInsert(x: Group<int>, gs: seq<Group<int>>)
    ensures TotalCount(Insert(x, gs, DayOf)) == x.count + TotalCount(gs)
  {
    if gs == [] || DayOf(x) <= DayOf(gs[0]) {
      TotalCountCons(x, gs);
    } else {
      TotalCountInsert(x, gs[1..]);
      TotalCountCons(gs[0], Insert(x, gs[1..], DayOf));
      assert gs == [gs[0]] + gs[1..];
      TotalCountCons(gs[0], gs[1..]);
    }
  }

  /** Sorting the groups keeps the sum of their counts. */
  lemma {:induction false} TotalCountSorted(gs: seq<Group<int>>)
    ensures TotalCount(SortBy(gs, DayOf)) == TotalCount(gs)
  {
    if gs != [] {
      TotalCountSorted(gs[1..]);
      TotalCountInsert(gs[0], SortBy(gs[1..], DayOf));
      assert gs == [gs[0]] + gs[1..];
      TotalCountCons(gs[0], gs[1..]);
    }
  }

  /** A visible ticket created inside the window adds its day to the end of
      the window's creation days, so the day series counts it once. */
  lemma RecentTicketCounted(ts: seq<Ticket>, t: Ticket, since: int)
    requires !t.deleted && t.createdAt >= since
    ensures RecentDays(Live(ts + [t]), since) == RecentDays(Live(ts), since) + [DayKey(t.createdAt)]
    ensures multiset(RecentDays(Live(ts + [t]), since)) == multiset(RecentDays(Live(ts), since)) + multiset{DayKey(t.createdAt)}
  {
    LiveAppend(ts, t);
    RecentDaysAppend(Live(ts), t, since);
    assert RecentDays([t], since) == [DayKey(t.createdAt)];
  }

  /** Soft-deleted tickets are dropped by `Live` wherever they stand. */
  lemma {:induction false} LiveAppend(ts: seq<Ticket>, t: Ticket)
    ensures Live(ts + [t]) == Live(ts) + (if t.deleted then [] else [t])
  {
    if ts != [] {
      var head := if ts[0].deleted then [] else [ts[0]];
      var tail := if t.deleted then [] else [t];
      assert (ts + [t])[1..] == ts[1..] + [t];
      LiveAppend(ts[1..], t);
      assert Live(ts) == head + Live(ts[1..]);
      assert Live(ts + [t]) == head + Live(ts[1..] + [t]);
      ConcatAssociative(head, Live(ts[1..]), tail);
    }
  }

  /** Concatenation is associative. */
  lemma ConcatAssociative<T>(a: seq<T>, b: seq<T>, c: seq<T>)
    ensures a + (b + c) == (a + b) + c
  {
  }

  /** Recent days of a concatenation are the recent days of each part. */
  lemma {:induction false} RecentDaysAppend(ts: seq<Ticket>, t: Ticket, since: int)
    ensures RecentDays(ts + [t], since) == RecentDays(ts, since) + RecentDays([t], since)
  {
    if ts != [] {
      assert (ts + [t])[1..] == ts[1..] + [t];
      RecentDaysAppend(ts[1..], t, since);
    }
  }

  /** A soft-deleted ticket changes no figure of the report: the aggregation
      over the store with it equals the aggregation without it. */
  lemma DeletedTicketIgnored(ts: seq<Ticket>, t: Ticket, since: int)
    requires t.deleted
    ensures Aggregate(ts + [t], since) == Aggregate(ts, since)
  {
    LiveAppend(ts, t);
    assert Live(ts + [t]) == Live(ts);
  }

  /** A visible ticket created before the window adds one to the total and
      to its status and priority, and leaves the day series unchanged. */
  lemma OldTicketOnlyInTotals(ts: seq<Ticket>, t: Ticket, since: int)
    requires !t.deleted && t.createdAt < since
    ensures |Live(ts + [t])| == |Live(ts)| + 1
    ensures multiset(Statuses(Live(ts + [t]))) == multiset(Statuses(Live(ts))) + multiset{t.status}
    ensures multiset(Priorities(Live(ts + [t]))) == multiset(Priorities(Live(ts))) + multiset{t.priority}
    ensures RecentDays(Live(ts + [t]), since) == RecentDays(Live(ts), since)
  {
    LiveAppend(ts, t);
    RecentDaysAppend(Live(ts), t, since);
    FieldsAppend(Live(ts), t);
  }

  /** The status and priority sequences of a longer store end with the new
      ticket's values. */
  lemma FieldsAppend(ts: seq<Ticket>, t: Ticket)
    ensures multiset(Statuses(ts + [t])) == multiset(Statuses(ts)) + multiset{t.status}
    ensures multiset(Priorities(ts + [t])) == multiset(Priorities(ts)) + multiset{t.priority}
  {
    assert Statuses(ts + [t]) == Statuses(ts) + [t.status];
    assert Priorities(ts + [t]) == Priorities(ts) + [t.priority];
  }
}
