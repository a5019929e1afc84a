/**
  The retention purge: the batched delete loop, and why nobody can see what it deleted.
*/
module Purge {
  import opened Common
  import opened Endpoints
  import opened Incidents

  function Days(n: nat): Time {
    n * 86_400_000_000
  }

  ghost function Kept(rows: set<CheckRow>, cutoff: Time): set<CheckRow> {
    set r | r in rows && r.at >= cutoff
  }

  function Old(rows: set<CheckRow>, cutoff: Time): set<CheckRow> {
    set r | r in rows && r.at < cutoff
  }

  /** Everything that other transactions inserted after the first k batches. */
  ghost function Arrived(arrivals: nat -> set<CheckRow>, k: nat): set<CheckRow> {
    if k == 0 then {} else Arrived(arrivals, k - 1) + arrivals(k - 1)
  }

  /** A LIMIT without ORDER BY: any rows, as many as there are up to the limit. */
  method PickAny(due: set<CheckRow>, limit: nat) returns (victims: set<CheckRow>)
    ensures victims <= due && |victims| == Min(limit, |due|)
  {
    victims := {};
    var left := due;
    while |victims| < limit && left != {}
      invariant victims !! left && victims + left == due && |victims| <= limit
      decreases left
    {
      var r :| r in left;
      victims, left := victims + {r}, left - {r};
    }
    assert |due| == |victims| + |left|;
  }

  /** Nothing inserted from batch k on is older than any cutoff of the purge. */
  ghost predicate Fresh(arrivals: nat -> set<CheckRow>, clock: nat -> Time, retention: Time, horizon: Time) {
    && (forall k, r :: r in arrivals(k) ==> r.at >= horizon)
    && (forall k :: clock(k) - retention <= horizon)
    && (forall j, k :: j <= k ==> clock(j) <= clock(k))
  }

  lemma {:induction false} ArrivedFresh(arrivals: nat -> set<CheckRow>, clock: nat -> Time, retention: Time, horizon: Time, k: nat)
    requires Fresh(arrivals, clock, retention, horizon)
    ensures forall r :: r in Arrived(arrivals, k) ==> r.at >= horizon
  {
    if k > 0 {
      ArrivedFresh(arrivals, clock, retention, horizon, k - 1);
    }
  }

  lemma {:induction false} FreshBatch(arrivals: nat -> set<CheckRow>, clock: nat -> Time, retention: Time, horizon: Time, k: nat)
    requires Fresh(arrivals, clock, retention, horizon)
    ensures clock(k) - retention <= horizon && clock(k) <= clock(k + 1)
    ensures forall r :: r in Arrived(arrivals, k) + arrivals(k) ==> r.at >= horizon
    ensures Arrived(arrivals, k + 1) == Arrived(arrivals, k) + arrivals(k)
  {
    ArrivedFresh(arrivals, clock, retention, horizon, k);
  }

  /** Between batches: the deleted rows were all old by then, and nothing is deleted in batches of none. */
  ghost predicate Purging(start: set<CheckRow>, rows: set<CheckRow>, deleted: nat, size: nat, cutoff: Time, arrived: set<CheckRow>) {
    && deleted == |start - rows|
    && start - rows <= Old(start, cutoff)
    && rows - start <= arrived <= rows
    && (size == 0 ==> rows == start)
  }

  lemma {:induction false} StartsEmpty(start: set<CheckRow>, size: nat, cutoff: Time, arrivals: nat -> set<CheckRow>)
    ensures Purging(start, start, 0, size, cutoff, Arrived(arrivals, 0))
  {
  }

  /** The effect of one batch: any old rows, as many as there are up to the batch size. */
  ghost predicate Deletes(rows: set<CheckRow>, after: set<CheckRow>, rowcount: nat, size: nat, cutoff: Time) {
    && after <= rows
    && rows - after <= Old(rows, cutoff)
    && rowcount == |rows - after| == Min(size, |Old(rows, cutoff)|)
  }

  lemma {:induction false} BatchStep(start: set<CheckRow>, rows: set<CheckRow>, after: set<CheckRow>, deleted: nat, rowcount: nat,
                                     size: nat, cutoff: Time, later: Time, arrived: set<CheckRow>, added: set<CheckRow>, horizon: Time)
    requires Purging(start, rows, deleted, size, cutoff, arrived) && Deletes(rows, after, rowcount, size, cutoff)
    requires cutoff <= later && cutoff <= horizon && rowcount > 0
    requires forall r :: r in arrived + added ==> r.at >= horizon
    ensures Purging(start, after + added, deleted + rowcount, size, later, arrived + added)
    ensures |Old(after + added, horizon)| < |Old(rows, horizon)|
  {
    var victims := rows - after;
    assert victims !! arrived && victims <= start;
    assert start - (after + added) == (start - rows) + victims && (start - rows) !! victims;
    assert Old(rows, horizon) == Old(after + added, horizon) + victims && Old(after + added, horizon) !! victims;
  }

  lemma {:induction false} LastBatch(start: set<CheckRow>, rows: set<CheckRow>, after: set<CheckRow>, deleted: nat, size: nat, cutoff: Time,
                                     arrived: set<CheckRow>, horizon: Time)
    requires Purging(start, rows, deleted, size, cutoff, arrived) && Deletes(rows, after, 0, size, cutoff)
    requires cutoff <= horizon && forall r :: r in arrived ==> r.at >= horizon
    ensures deleted == |start - after|
    ensures size == 0 ==> after == start
    ensures size > 0 ==> after == Kept(start, cutoff) + arrived
  {
    assert rows - after == {};
    assert after == rows;
    if size > 0 {
      assert Old(rows, cutoff) == {};
      forall r ensures r in rows <==> r in Kept(start, cutoff) + arrived {
        assert r !in Old(rows, cutoff);
        assert r in start && r !in rows ==> r in Old(start, cutoff);
      }
    }
  }

  class Results {
    var rows: set<CheckRow>
    const purgeBatchSize: nat
    const retentionDays: nat

    constructor (purgeBatchSize: nat, retentionDays: nat)
      ensures rows == {} && this.purgeBatchSize == purgeBatchSize && this.retentionDays == retentionDays
    {
      this.rows, this.purgeBatchSize, this.retentionDays := {}, purgeBatchSize, retentionDays;
    }

    /** DELETE of one batch of rows older than the cutoff, and its commit. */
    method DeleteBatch(cutoff: Time) returns (rowcount: nat)
      modifies this`rows
      ensures Deletes(old(rows), rows, rowcount, purgeBatchSize, cutoff)
    {
      var victims := PickAny(Old(rows, cutoff), purgeBatchSize);
      assert rows - (rows - victims) == victims;
      rows := rows - victims;
      rowcount := |victims|;
    }

    /**
      Batch k runs at clock(k), its victims chosen arbitrarily among the old rows; other transactions
      then insert arrivals(k). The argument batchSize is not used, the configured size is. With a
      positive size the loop leaves exactly the rows not older than the last cutoff, and what arrived.
    */
    method PurgeOldResults(batchSize: int, clock: nat -> Time, arrivals: nat -> set<CheckRow>, ghost horizon: Time)
      returns (deleted: nat, ghost last: nat)
      requires Fresh(arrivals, clock, Days(retentionDays), horizon)
      modifies this`rows
      ensures purgeBatchSize > 0 ==> rows == Kept(old(rows), clock(last) - Days(retentionDays)) + Arrived(arrivals, last)
      ensures purgeBatchSize == 0 ==> rows == old(rows)
      ensures deleted == |old(rows) - rows|
    {
      deleted, last := 0, 0;
      var k, retention := 0, Days(retentionDays);
      ghost var start := rows;
      StartsEmpty(start, purgeBatchSize, clock(0) - retention, arrivals);
      hide *;
      while true
        invariant last == k
        invariant Purging(start, rows, deleted, purgeBatchSize, clock(k) - retention, Arrived(arrivals, k))
        decreases |Old(rows, horizon)|
      {
        FreshBatch(arrivals, clock, retention, horizon, k);
        ghost var before := rows;
        var rowcount := DeleteBatch(clock(k) - retention);
        if rowcount == 0 {
          LastBatch(start, before, rows, deleted, purgeBatchSize, clock(k) - retention, Arrived(arrivals, k), horizon);
          break;
        }
        BatchStep(start, before, rows, deleted, rowcount, purgeBatchSize, clock(k) - retention, clock(k + 1) - retention,
                  Arrived(arrivals, k), arrivals(k), horizon);
        deleted := deleted + rowcount;
        rows := rows + arrivals(k);
        k, last := k + 1, last + 1;
      }
    }
  }

  /* ---------- nobody notices ---------- */

  /** One history, stored twice: in a table that is never purged, and in the purged one. */
  datatype Twin = Twin(clock: Time, all: set<CheckRow>, purged: set<CheckRow>)

  datatype Step = Advance(d: nat) | Insert(row: CheckRow) | Delete(victims: set<CheckRow>)

  function Next(w: Twin, s: Step): Twin {
    match s
    case Advance(d) => w.(clock := w.clock + d)
    case Insert(row) => w.(all := w.all + {row}, purged := w.purged + {row})
    case Delete(victims) => w.(purged := w.purged - victims)
  }

  /** A batch of the purge deletes rows past retention only. */
  ghost predicate Enabled(w: Twin, s: Step, retention: Time) {
    s.Delete? ==> s.victims <= Old(w.purged, w.clock - retention)
  }

  function After(w: Twin, steps: seq<Step>, k: nat): Twin
    requires k <= |steps|
  {
    if k == 0 then w else Next(After(w, steps, k - 1), steps[k - 1])
  }

  ghost predicate PurgeRun(w: Twin, steps: seq<Step>, retention: Time) {
    forall k :: 0 <= k < |steps| ==> Enabled(After(w, steps, k), steps[k], retention)
  }

  ghost predicate Trimmed(w: Twin, retention: Time) {
    w.purged <= w.all && forall r :: r in w.all && r !in w.purged ==> r.at < w.clock - retention
  }

  lemma {:induction false} RunTrims(clock: Time, rows: set<CheckRow>, steps: seq<Step>, k: nat, retention: Time)
    requires k <= |steps| && PurgeRun(Twin(clock, rows, rows), steps, retention)
    ensures Trimmed(After(Twin(clock, rows, rows), steps, k), retention)
  {
    if k > 0 {
      RunTrims(clock, rows, steps, k - 1, retention);
    }
  }

  ghost function ResultsOf(rows: set<CheckRow>, endpoint: nat): set<CheckRow> {
    set r | r in rows && r.endpoint == endpoint
  }

  function TimeOf(r: Option<CheckRow>): Option<Time> {
    match r
    case None => None
    case Some(row) => Some(row.at)
  }

  /** is_overdue for an endpoint joined with the row that ORDER BY checked_at DESC LIMIT 1 finds. */
  ghost predicate OverdueIn(rows: set<CheckRow>, id: nat, e: Endpoint, now: Time, grace: nat) {
    exists r :: IsLatest(ResultsOf(rows, id), r) && Overdue(e, TimeOf(r), now, grace)
  }

  /** The lateral join and GREATEST amount to: long enough since monitoring began and since every row. */
  lemma {:induction false} OverdueMeans(rows: set<CheckRow>, id: nat, e: Endpoint, now: Time, grace: nat)
    ensures OverdueIn(rows, id, e, now, grace) <==>
      && e.active
      && now > e.since + Micros(e.interval + grace)
      && forall r :: r in ResultsOf(rows, id) ==> now > r.at + Micros(e.interval + grace)
  {
    var r := LatestExists(ResultsOf(rows, id));
    if e.active && now > e.since + Micros(e.interval + grace) && forall q :: q in ResultsOf(rows, id) ==> now > q.at + Micros(e.interval + grace) {
      assert Overdue(e, TimeOf(r), now, grace);
    }
  }

  ghost function OverdueIds(rows: set<CheckRow>, endpoints: map<nat, Endpoint>, now: Time, grace: nat): set<nat> {
    set id | id in endpoints && OverdueIn(rows, id, endpoints[id], now, grace)
  }

  /** The table joined with the latest results, row by row in some order. */
  ghost predicate Joins(s: seq<Entry>, rows: set<CheckRow>, endpoints: map<nat, Endpoint>) {
    && (forall i, j :: 0 <= i < j < |s| ==> s[i].id != s[j].id)
    && (forall id :: id in endpoints <==> exists i :: 0 <= i < |s| && s[i].id == id)
    && (forall i :: 0 <= i < |s| ==> s[i].id in endpoints && s[i].e == endpoints[s[i].id])
    && (forall i :: 0 <= i < |s| ==> exists r :: IsLatest(ResultsOf(rows, s[i].id), r) && s[i].latest == TimeOf(r))
  }

  lemma {:induction false} EntryIsOverdue(x: Entry, rows: set<CheckRow>, now: Time, grace: nat)
    requires exists r :: IsLatest(ResultsOf(rows, x.id), r) && x.latest == TimeOf(r)
    ensures Late(x, now, grace) <==> OverdueIn(rows, x.id, x.e, now, grace)
  {
    OverdueMeans(rows, x.id, x.e, now, grace);
    var r :| IsLatest(ResultsOf(rows, x.id), r) && x.latest == TimeOf(r);
    hide OverdueIn;
  }

  ghost function LateIds(s: seq<Entry>, k: nat, now: Time, grace: nat): set<nat>
    requires k <= |s|
  {
    set i | 0 <= i < k && Late(s[i], now, grace) :: s[i].id
  }

  lemma {:induction false} NextLateId(s: seq<Entry>, k: nat, now: Time, grace: nat)
    requires 0 < k <= |s| && forall i, j :: 0 <= i < j < |s| ==> s[i].id != s[j].id
    ensures LateIds(s, k, now, grace) == LateIds(s, k - 1, now, grace) + if Late(s[k - 1], now, grace) then {s[k - 1].id} else {}
    ensures s[k - 1].id !in LateIds(s, k - 1, now, grace)
  {
    hide Late;
  }

  lemma {:induction false} FlagsCountIds(s: seq<Entry>, k: nat, now: Time, grace: nat)
    requires k <= |s| && forall i, j :: 0 <= i < j < |s| ==> s[i].id != s[j].id
    ensures Flags(s, 0, k, now, grace) == |LateIds(s, k, now, grace)|
  {
    if k > 0 {
      FlagsCountIds(s, k - 1, now, grace);
      NextLateId(s, k, now, grace);
      hide LateIds;
    }
  }

  /** The gauge over the joined table is the number of overdue endpoints. */
  lemma {:induction false} GaugeIsOverdueCount(s: seq<Entry>, rows: set<CheckRow>, endpoints: map<nat, Endpoint>, now: Time, grace: nat)
    requires Joins(s, rows, endpoints)
    ensures Gauge(s, now, grace) == |OverdueIds(rows, endpoints, now, grace)|
  {
    FlagsCountIds(s, |s|, now, grace);
    hide Late, OverdueIn, Flags;
    forall i | 0 <= i < |s| ensures Late(s[i], now, grace) <==> OverdueIn(rows, s[i].id, endpoints[s[i].id], now, grace) {
      EntryIsOverdue(s[i], rows, now, grace);
    }
    assert OverdueIds(rows, endpoints, now, grace) == LateIds(s, |s|, now, grace);
  }

  lemma {:induction false} SameFlag(w: Twin, retention: Time, id: nat, e: Endpoint, grace: nat)
    requires Trimmed(w, retention) && Micros(e.interval + grace) <= retention
    ensures OverdueIn(w.all, id, e, w.clock, grace) <==> OverdueIn(w.purged, id, e, w.clock, grace)
  {
    OverdueMeans(w.all, id, e, w.clock, grace);
    OverdueMeans(w.purged, id, e, w.clock, grace);
    assert forall r :: r in ResultsOf(w.all, id) && r !in w.purged ==> w.clock > r.at + Micros(e.interval + grace);
    assert forall r :: r in ResultsOf(w.all, id) && r in w.purged ==> r in ResultsOf(w.purged, id);
    assert forall r :: r in ResultsOf(w.purged, id) ==> r in ResultsOf(w.all, id);
  }

  /** The API accepts intervals up to a day. */
  const MAX_INTERVAL: nat := 86_400

  /** The two tables give the same incident and summary rows, overdue flags and overdue count. */
  ghost predicate Unseen(w: Twin, endpoints: map<nat, Endpoint>, grace: nat) {
    && (forall id :: InWindow(w.purged, id, w.clock) == InWindow(w.all, id, w.clock))
    && (forall id :: id in endpoints ==>
          (OverdueIn(w.purged, id, endpoints[id], w.clock, grace) <==> OverdueIn(w.all, id, endpoints[id], w.clock, grace)))
    && |OverdueIds(w.purged, endpoints, w.clock, grace)| == |OverdueIds(w.all, endpoints, w.clock, grace)|
  }

  ghost predicate ValidIntervals(endpoints: map<nat, Endpoint>) {
    forall id :: id in endpoints ==> endpoints[id].interval <= MAX_INTERVAL
  }

  /**
    With at least seven days of retention, and retention at least a day plus the grace period,
    purging is unobservable at every moment of every run, also halfway through a purge: the
    incident query and the summary see the same rows, every endpoint has the same overdue flag, and
    the overdue count is the same.
  */
  lemma {:induction false} PurgeIsUnobservable(clock: Time, rows: set<CheckRow>, steps: seq<Step>, k: nat, days: nat, endpoints: map<nat, Endpoint>, grace: nat)
    requires days >= 7 && Micros(MAX_INTERVAL + grace) <= Days(days)
    requires k <= |steps| && PurgeRun(Twin(clock, rows, rows), steps, Days(days))
    requires ValidIntervals(endpoints)
    ensures Unseen(After(Twin(clock, rows, rows), steps, k), endpoints, grace)
  {
    RunTrims(clock, rows, steps, k, Days(days));
    var w := After(Twin(clock, rows, rows), steps, k);
    hide After, PurgeRun, OverdueIn;
    forall id | id in endpoints
      ensures OverdueIn(w.purged, id, endpoints[id], w.clock, grace) <==> OverdueIn(w.all, id, endpoints[id], w.clock, grace)
    {
      SameFlag(w, Days(days), id, endpoints[id], grace);
    }
    assert OverdueIds(w.purged, endpoints, w.clock, grace) == OverdueIds(w.all, endpoints, w.clock, grace);
    forall id ensures InWindow(w.purged, id, w.clock) == InWindow(w.all, id, w.clock) {
      SameWindow(w, Days(days), id);
    }
  }

  lemma {:induction false} SameWindow(w: Twin, retention: Time, id: nat)
    requires Trimmed(w, retention) && retention >= WINDOW
    ensures InWindow(w.purged, id, w.clock) == InWindow(w.all, id, w.clock)
  {
  }

  /**
    Retention shorter than the window is observable: the purge then removes a row that the incident
    query would still show.
  */
  lemma {:induction false} ShortRetentionShows(id: nat, days: nat) returns (row: CheckRow)
    requires days < 7
    ensures PurgeRun(Twin(0, {row}, {row}), [Delete({row})], Days(days))
    ensures var w := After(Twin(0, {row}, {row}), [Delete({row})], 1);
      InWindow(w.purged, id, w.clock) != InWindow(w.all, id, w.clock)
  {
    row := CheckRow(0, id, -WINDOW, None);
    var w, s := Twin(0, {row}, {row}), [Delete({row})];
    assert After(w, s, 0) == w;
    assert Days(days) < WINDOW;
    assert row in Old(w.purged, w.clock - Days(days));
    assert After(w, s, 1) == Next(w, s[0]);
    assert row in InWindow(w.all, id, 0);
  }

  /**
    Retention shorter than a day plus the grace period is observable: the purge then removes the
    row that kept a slow endpoint from being overdue.
  */
  lemma {:induction false} ShortRetentionAlarms(id: nat, days: nat, grace: nat) returns (row: CheckRow, e: Endpoint)
    requires Days(days) < Micros(MAX_INTERVAL + grace)
    ensures e.interval == MAX_INTERVAL && PurgeRun(Twin(0, {row}, {row}), [Delete({row})], Days(days))
    ensures var w := After(Twin(0, {row}, {row}), [Delete({row})], 1);
      OverdueIn(w.purged, id, e, w.clock, grace) && !OverdueIn(w.all, id, e, w.clock, grace)
  {
    var deadline := Micros(MAX_INTERVAL + grace);
    row := CheckRow(0, id, -Days(days) - 1, None);
    e := Endpoint(0, "", MAX_INTERVAL, true, 0, -deadline - 1);
    var w, s := Twin(0, {row}, {row}), [Delete({row})];
    assert After(w, s, 0) == w;
    assert row in Old(w.purged, w.clock - Days(days));
    assert After(w, s, 1) == Next(w, s[0]);
    OverdueMeans({}, id, e, 0, grace);
    OverdueMeans({row}, id, e, 0, grace);
    assert row in ResultsOf({row}, id);
    assert w.purged - {row} == {};
  }

  /** In no run can anybody tell that rows were purged. */
  ghost predicate NeverSeen(days: nat, grace: nat) {
    forall clock, rows, steps, k, endpoints ::
      0 <= k <= |steps| && PurgeRun(Twin(clock, rows, rows), steps, Days(days)) && ValidIntervals(endpoints) ==>
        Unseen(After(Twin(clock, rows, rows), steps, k), endpoints, grace)
  }

  /** The two conditions on the settings are exact. */
  lemma {:induction false} RetentionIsExact(days: nat, grace: nat)
    ensures NeverSeen(days, grace) <==> days >= 7 && Micros(MAX_INTERVAL + grace) <= Days(days)
  {
    hide PurgeRun, After, Unseen, Days, Micros;
    if days < 7 {
      var row := ShortRetentionShows(0, days);
      SeenOnce(row, 0, map[], grace);
      assert ValidIntervals(map[]);
    } else if Days(days) < Micros(MAX_INTERVAL + grace) {
      var row, e := ShortRetentionAlarms(0, days, grace);
      SeenOnce(row, 0, map[0 := e], grace);
      assert ValidIntervals(map[0 := e]);
    } else {
      forall clock, rows, steps, k, endpoints |
        0 <= k <= |steps| && PurgeRun(Twin(clock, rows, rows), steps, Days(days)) && ValidIntervals(endpoints)
        ensures Unseen(After(Twin(clock, rows, rows), steps, k), endpoints, grace)
      {
        PurgeIsUnobservable(clock, rows, steps, k, days, endpoints, grace);
      }
    }
  }

  lemma {:induction false} SeenOnce(row: CheckRow, id: nat, endpoints: map<nat, Endpoint>, grace: nat)
    ensures var w := After(Twin(0, {row}, {row}), [Delete({row})], 1);
      || InWindow(w.purged, id, w.clock) != InWindow(w.all, id, w.clock)
      || (id in endpoints && OverdueIn(w.purged, id, endpoints[id], w.clock, grace) && !OverdueIn(w.all, id, endpoints[id], w.clock, grace))
      ==> !Unseen(w, endpoints, grace)
  {
  }

  /* ---------- what does change ---------- */

  /**
    The latest status and the previous result of the next check survive a finished purge exactly
    when the endpoint has no row or its newest row is within retention. Otherwise no row is left,
    so the status page shows none and the next check is published like a first one.
  */
  lemma {:induction false} LatestSurvives(rows: set<CheckRow>, id: nat, cutoff: Time, newest: Option<CheckRow>)
    requires IsLatest(ResultsOf(rows, id), newest)
    ensures (forall r :: IsLatest(ResultsOf(Kept(rows, cutoff), id), r) <==> IsLatest(ResultsOf(rows, id), r)) <==>
      newest.None? || newest.value.at >= cutoff
    ensures newest.Some? && newest.value.at < cutoff ==> ResultsOf(Kept(rows, cutoff), id) == {}
  {
    var a, b := ResultsOf(rows, id), ResultsOf(Kept(rows, cutoff), id);
    if newest.None? {
      assert b == a;
    } else if newest.value.at >= cutoff {
      assert newest.value in b;
      forall r ensures IsLatest(b, r) <==> IsLatest(a, r) {
        assert r.None? ==> !IsLatest(a, r) && !IsLatest(b, r);
        assert r.Some? && IsLatest(b, r) ==> r.value.at >= newest.value.at;
      }
    } else {
      assert b == {};
      assert IsLatest(b, None) && !IsLatest(a, None);
    }
  }
}
