/**
  The gaps-and-islands incident query and the summary counts of the analytics page.

  The query is modelled column by column, with NULLs, the row-based lag, the RANGE frame of the
  running count, and hash aggregation. It is then proved equal to the plain list of maximal
  runs of failed checks. Recursions run over the first k rows of one fixed scan order s.
*/
module Incidents {
  import opened Common
  import opened Sql

  const WINDOW_SECONDS: int := 7 * 24 * 60 * 60
  const WINDOW: Time := WINDOW_SECONDS * SECOND

  datatype Incident = Incident(started: Time, ended: Time, duration: int, checks: nat)

  /* ---------- the query ---------- */

  /** WHERE endpoint_id = :endpoint_id AND checked_at >= now() - INTERVAL '7 days' */
  ghost function InWindow(rows: set<CheckRow>, endpoint: nat, now: Time): set<CheckRow> {
    set r | r in rows && r.endpoint == endpoint && r.at >= now - WINDOW
  }

  /** An order in which the window functions may see the in-window rows. */
  ghost predicate WindowOrder(rows: set<CheckRow>, endpoint: nat, now: Time, s: seq<CheckRow>) {
    Ordered(s) && Enumerates(s, InWindow(rows, endpoint, now))
  }

  /** status_code IS NOT NULL AND status_code BETWEEN 200 AND 399 */
  function IsUpExpr(code: Option<int>): Bool3 {
    And3(Some(code.Some?), Between(code, 200, 399))
  }

  /** The column prev_is_up: lag() looks one row back and is NULL on the first row. */
  function PrevIsUp(s: seq<CheckRow>, i: nat): Bool3
    requires i < |s|
  {
    if i == 0 then None else IsUpExpr(s[i - 1].code)
  }

  /** is_up IS DISTINCT FROM prev_is_up */
  predicate Changed(s: seq<CheckRow>, i: nat)
    requires i < |s|
  {
    IsDistinctFrom(IsUpExpr(s[i].code), PrevIsUp(s, i))
  }

  /** count(*) FILTER (WHERE is_up IS DISTINCT FROM prev_is_up) over those of the first k rows with checked_at <= t. */
  function CountChanges(s: seq<CheckRow>, k: nat, t: Time): nat
    requires k <= |s|
  {
    if k == 0 then 0
    else CountChanges(s, k - 1, t) + if s[k - 1].at <= t && Changed(s, k - 1) then 1 else 0
  }

  /** The column run_id: the default frame is RANGE, so it ends with the last peer of row i. */
  function RunId(s: seq<CheckRow>, i: nat): nat
    requires i < |s|
  {
    CountChanges(s, |s|, s[i].at)
  }

  datatype Group = Group(runId: nat, started: Time, ended: Time, checks: nat)

  function Widen(g: Group, at: Time): Group {
    Group(g.runId, Min(g.started, at), Max(g.ended, at), g.checks + 1)
  }

  /** One row enters the hash table: it joins the group of its run_id or opens a new one. */
  function Absorb(groups: seq<Group>, runId: nat, at: Time): seq<Group> {
    if groups == [] then [Group(runId, at, at, 1)]
    else if groups[0].runId == runId then [Widen(groups[0], at)] + groups[1..]
    else [groups[0]] + Absorb(groups[1..], runId, at)
  }

  /** WHERE NOT is_up GROUP BY run_id, with min(checked_at), max(checked_at) and count(*), over the first k rows. */
  function GroupBy(s: seq<CheckRow>, k: nat): seq<Group>
    requires k <= |s|
  {
    if k == 0 then []
    else if Holds(Not3(IsUpExpr(s[k - 1].code))) then Absorb(GroupBy(s, k - 1), RunId(s, k - 1), s[k - 1].at)
    else GroupBy(s, k - 1)
  }

  /** ORDER BY started_at DESC */
  function SortDesc(groups: seq<Group>): seq<Group> {
    if groups == [] then [] else InsertDesc(groups[0], SortDesc(groups[1..]))
  }

  function InsertDesc(x: Group, groups: seq<Group>): seq<Group> {
    if groups == [] then [x]
    else if x.started >= groups[0].started then [x] + groups
    else [groups[0]] + InsertDesc(x, groups[1..])
  }

  function ToIncident(g: Group): Incident {
    Incident(g.started, g.ended, Seconds(g.ended - g.started), g.checks)
  }

  function ToIncidents(groups: seq<Group>): (r: seq<Incident>)
    ensures |r| == |groups|
    ensures forall i :: 0 <= i < |r| ==> r[i] == ToIncident(groups[i])
  {
    if groups == [] then [] else [ToIncident(groups[0])] + ToIncidents(groups[1..])
  }

  /** get_endpoint_incidents, given the order s in which the in-window rows are scanned. */
  function IncidentQuery(s: seq<CheckRow>): seq<Incident> {
    ToIncidents(SortDesc(GroupBy(s, |s|)))
  }

  /** The forced boolean agrees with the dispatcher's notion of health and is never NULL. */
  lemma {:induction false} IsUpExprIsUp(r: CheckRow)
    ensures IsUpExpr(r.code) == Some(Up(r))
    ensures Holds(Not3(IsUpExpr(r.code))) <==> !Up(r)
    ensures Holds(Between(r.code, 200, 399)) <==> Up(r)
  {
  }

  /* ---------- the reference: maximal runs of failed checks ---------- */

  datatype Run = Run(lo: nat, hi: nat)

  /** Among the first k checks, lo to hi-1 all failed and the run cannot be extended on either side. */
  ghost predicate MaximalDownRun(s: seq<CheckRow>, k: nat, run: Run) {
    && run.lo < run.hi <= k <= |s|
    && (forall i :: run.lo <= i < run.hi ==> !Up(s[i]))
    && (run.lo == 0 || Up(s[run.lo - 1]))
    && (run.hi == k || Up(s[run.hi]))
  }

  /** One pass over the first k checks, oldest first. */
  function DownRuns(s: seq<CheckRow>, k: nat): seq<Run>
    requires k <= |s|
  {
    if k == 0 then [] else Extend(DownRuns(s, k - 1), k - 1, Up(s[k - 1]))
  }

  /** Check n continues the newest run, opens a new one, or leaves the runs alone. */
  function Extend(runs: seq<Run>, n: nat, up: bool): seq<Run> {
    if up then runs
    else if runs != [] && runs[|runs| - 1].hi == n then runs[|runs| - 1 := Run(runs[|runs| - 1].lo, n + 1)]
    else runs + [Run(n, n + 1)]
  }

  ghost predicate Bounded(runs: seq<Run>, k: nat) {
    forall a :: 0 <= a < |runs| ==> runs[a].lo < runs[a].hi <= k
  }

  ghost predicate InOrder(runs: seq<Run>) {
    forall a, b :: 0 <= a < b < |runs| ==> runs[a].hi < runs[b].lo
  }

  ghost predicate AllMaximal(s: seq<CheckRow>, k: nat, runs: seq<Run>) {
    forall a :: 0 <= a < |runs| ==> MaximalDownRun(s, k, runs[a])
  }

  /** The newest run reaches the present exactly when the newest check failed. */
  ghost predicate Reaches(s: seq<CheckRow>, k: nat, runs: seq<Run>) {
    k <= |s| && (runs != [] && runs[|runs| - 1].hi == k <==> k > 0 && !Up(s[k - 1]))
  }

  lemma {:induction false} DownRunsSound(s: seq<CheckRow>, k: nat)
    requires k <= |s|
    ensures AllMaximal(s, k, DownRuns(s, k)) && InOrder(DownRuns(s, k)) && Reaches(s, k, DownRuns(s, k))
  {
    if k > 0 {
      DownRunsSound(s, k - 1);
      ExtendSound(s, k, DownRuns(s, k - 1));
    }
  }

  lemma {:induction false} RunGrows(s: seq<CheckRow>, k: nat, run: Run)
    requires 0 < k <= |s| && MaximalDownRun(s, k - 1, run)
    ensures MaximalDownRun(s, k, if !Up(s[k - 1]) && run.hi == k - 1 then Run(run.lo, k) else run)
  {
  }

  lemma {:induction false} MaximalBounded(s: seq<CheckRow>, k: nat, runs: seq<Run>)
    requires AllMaximal(s, k, runs)
    ensures Bounded(runs, k)
  {
  }

  lemma {:induction false} ExtendSound(s: seq<CheckRow>, k: nat, runs: seq<Run>)
    requires 0 < k <= |s|
    requires AllMaximal(s, k - 1, runs) && InOrder(runs) && Reaches(s, k - 1, runs)
    ensures var all := Extend(runs, k - 1, Up(s[k - 1]));
      AllMaximal(s, k, all) && InOrder(all) && Reaches(s, k, all)
  {
    var all := Extend(runs, k - 1, Up(s[k - 1]));
    MaximalBounded(s, k - 1, runs);
    forall a | 0 <= a < |all| ensures MaximalDownRun(s, k, all[a]) {
      if a < |runs| {
        RunGrows(s, k, runs[a]);
      } else {
        assert MaximalDownRun(s, k, Run(k - 1, k));
      }
      hide MaximalDownRun;
    }
  }

  lemma {:induction false} DownRunsCover(s: seq<CheckRow>, k: nat, i: nat)
    requires i < k <= |s| && !Up(s[i])
    ensures exists a :: 0 <= a < |DownRuns(s, k)| && DownRuns(s, k)[a].lo <= i < DownRuns(s, k)[a].hi
  {
    var runs, all := DownRuns(s, k - 1), DownRuns(s, k);
    if i < k - 1 {
      DownRunsCover(s, k - 1, i);
      var a :| 0 <= a < |runs| && runs[a].lo <= i < runs[a].hi;
      assert all[a].lo <= i < all[a].hi;
    } else {
      DownRunsSound(s, k);
      assert MaximalDownRun(s, k, all[|all| - 1]);
    }
  }

  lemma {:induction false} SharedMaximal(s: seq<CheckRow>, k: nat, r: Run, q: Run, i: nat)
    requires MaximalDownRun(s, k, r) && MaximalDownRun(s, k, q)
    requires r.lo <= i < r.hi && q.lo <= i < q.hi
    ensures r == q
  {
  }

  /** The scan finds every maximal run of failed checks, finds nothing else, and lists them oldest first. */
  lemma {:induction false} DownRunsAreMaximal(s: seq<CheckRow>)
    ensures forall run :: run in DownRuns(s, |s|) <==> MaximalDownRun(s, |s|, run)
    ensures forall a, b :: 0 <= a < b < |DownRuns(s, |s|)| ==> DownRuns(s, |s|)[a].hi < DownRuns(s, |s|)[b].lo
  {
    var runs := DownRuns(s, |s|);
    DownRunsSound(s, |s|);
    forall run | MaximalDownRun(s, |s|, run) ensures run in runs {
      DownRunsCover(s, |s|, run.lo);
      var a :| 0 <= a < |runs| && runs[a].lo <= run.lo < runs[a].hi;
      SharedMaximal(s, |s|, run, runs[a], run.lo);
    }
  }

  function RunIncident(s: seq<CheckRow>, run: Run): Incident
    requires run.lo < run.hi <= |s|
  {
    var started, ended := s[run.lo].at, s[run.hi - 1].at;
    Incident(started, ended, Seconds(ended - started), run.hi - run.lo)
  }

  function RunIncidents(s: seq<CheckRow>, runs: seq<Run>): (r: seq<Incident>)
    requires Bounded(runs, |s|)
    ensures |r| == |runs|
    ensures forall a :: 0 <= a < |runs| ==> r[a] == RunIncident(s, runs[a])
  {
    if runs == [] then [] else [RunIncident(s, runs[0])] + RunIncidents(s, runs[1..])
  }

  /* ---------- any scan order: groups are separated in time ---------- */

  lemma {:induction false} CountChangesGrows(s: seq<CheckRow>, k: nat, t: Time, u: Time)
    requires k <= |s| && t <= u
    ensures CountChanges(s, k, t) <= CountChanges(s, k, u)
  {
    if k > 0 {
      CountChangesGrows(s, k - 1, t, u);
    }
  }

  /** Groups in order of run_id whose time ranges are pairwise disjoint and in the same order. */
  ghost predicate Separated(groups: seq<Group>) {
    && (forall a :: 0 <= a < |groups| ==> groups[a].started <= groups[a].ended && groups[a].checks >= 1)
    && (forall a, b :: 0 <= a < b < |groups| ==>
          groups[a].runId < groups[b].runId && groups[a].ended < groups[b].started)
  }

  lemma {:induction false} AbsorbAtEnd(groups: seq<Group>, runId: nat, at: Time)
    requires forall a :: 0 <= a < |groups| - 1 ==> groups[a].runId != runId
    ensures Absorb(groups, runId, at) == AddNewest(groups, runId, at)
  {
    if |groups| > 1 {
      AbsorbAtEnd(groups[1..], runId, at);
    }
  }

  /** Grouping rows in time order only ever touches the newest group. */
  function AddNewest(groups: seq<Group>, runId: nat, at: Time): seq<Group> {
    var k := |groups| - 1;
    if groups != [] && groups[k].runId == runId then groups[k := Widen(groups[k], at)]
    else groups + [Group(runId, at, at, 1)]
  }

  /** The newest group is no younger than row i, and shares its run_id if it ends at the same time. */
  ghost predicate Precedes(s: seq<CheckRow>, groups: seq<Group>, i: nat) {
    groups != [] && i < |s| ==>
      var g := groups[|groups| - 1];
      g.runId <= RunId(s, i) && g.ended <= s[i].at && (g.ended == s[i].at ==> g.runId == RunId(s, i))
  }

  lemma {:induction false} AddNewestSeparates(groups: seq<Group>, runId: nat, at: Time)
    requires Separated(groups)
    requires groups != [] ==>
      && groups[|groups| - 1].runId <= runId
      && groups[|groups| - 1].ended <= at
      && (groups[|groups| - 1].ended == at ==> groups[|groups| - 1].runId == runId)
    ensures Absorb(groups, runId, at) == AddNewest(groups, runId, at)
    ensures Separated(AddNewest(groups, runId, at))
    ensures var all := AddNewest(groups, runId, at);
      all != [] && all[|all| - 1].runId == runId && all[|all| - 1].ended == at && all[|all| - 1].started <= at
  {
    AbsorbAtEnd(groups, runId, at);
  }

  /** With rows in time order the hash table is a list of groups that only grows at its end. */
  lemma {:induction false} GroupBySeparates(s: seq<CheckRow>, k: nat)
    requires Ordered(s) && k <= |s|
    ensures Separated(GroupBy(s, k)) && Precedes(s, GroupBy(s, k), k)
    ensures k > 0 ==> GroupBy(s, k) == GroupStep(s, k - 1, GroupBy(s, k - 1))
  {
    if k > 0 {
      GroupBySeparates(s, k - 1);
      GroupStepSeparates(s, k - 1, GroupBy(s, k - 1));
      IsUpExprIsUp(s[k - 1]);
    }
  }

  function GroupStep(s: seq<CheckRow>, i: nat, groups: seq<Group>): seq<Group>
    requires i < |s|
  {
    if Up(s[i]) then groups else AddNewest(groups, RunId(s, i), s[i].at)
  }

  lemma {:induction false} PrecedesNext(s: seq<CheckRow>, groups: seq<Group>, i: nat)
    requires Ordered(s) && i < |s| && Precedes(s, groups, i)
    ensures Precedes(s, groups, i + 1)
  {
    if i + 1 < |s| {
      CountChangesGrows(s, |s|, s[i].at, s[i + 1].at);
    }
  }

  lemma {:induction false} GroupStepSeparates(s: seq<CheckRow>, i: nat, groups: seq<Group>)
    requires Ordered(s) && i < |s|
    requires Separated(groups) && Precedes(s, groups, i)
    ensures Separated(GroupStep(s, i, groups)) && Precedes(s, GroupStep(s, i, groups), i + 1)
    ensures !Up(s[i]) ==> Absorb(groups, RunId(s, i), s[i].at) == GroupStep(s, i, groups)
  {
    hide Up, RunId, Separated, Absorb, AddNewest;
    if !Up(s[i]) {
      AddNewestSeparates(groups, RunId(s, i), s[i].at);
    }
    PrecedesNext(s, GroupStep(s, i, groups), i);
  }

  /** ORDER BY started_at DESC simply reverses groups that were found oldest first. */
  lemma {:induction false} SortDescReverses(groups: seq<Group>)
    requires Separated(groups)
    ensures SortDesc(groups) == Reversed(groups)
  {
    if groups != [] {
      SortDescReverses(groups[1..]);
      InsertAtEnd(groups[0], Reversed(groups[1..]));
    }
  }

  lemma {:induction false} InsertAtEnd(x: Group, groups: seq<Group>)
    requires forall a :: 0 <= a < |groups| ==> x.started < groups[a].started
    ensures InsertDesc(x, groups) == groups + [x]
  {
    if groups != [] {
      InsertAtEnd(x, groups[1..]);
    }
  }

  lemma {:induction false} QueryReversesGroups(s: seq<CheckRow>)
    requires Ordered(s)
    ensures Separated(GroupBy(s, |s|))
    ensures IncidentQuery(s) == ToIncidents(Reversed(GroupBy(s, |s|)))
  {
    GroupBySeparates(s, |s|);
    SortDescReverses(GroupBy(s, |s|));
  }

  /* ---------- harmless ties: the query is the list of maximal runs ---------- */

  /** Rows with equal timestamps have equal health. */
  ghost predicate TiesAgree(s: seq<CheckRow>) {
    forall i, j :: 0 <= i < j < |s| && s[i].at == s[j].at ==> Up(s[i]) == Up(s[j])
  }

  /**
    If the success that ends a run is tied with the run's last failure, all of the run lies at that
    timestamp and no later failure does.
  */
  ghost predicate HarmlessEnd(s: seq<CheckRow>, run: Run)
    requires run.lo < run.hi <= |s|
  {
    run.hi < |s| && s[run.hi].at == s[run.hi - 1].at ==>
      && s[run.lo].at == s[run.hi].at
      && forall j :: run.hi < j < |s| && s[j].at == s[run.hi].at ==> Up(s[j])
  }

  ghost predicate TiesHarmless(s: seq<CheckRow>) {
    forall run :: MaximalDownRun(s, |s|, run) ==> HarmlessEnd(s, run)
  }

  lemma {:induction false} AgreeingTiesAreHarmless(s: seq<CheckRow>)
    requires TiesAgree(s)
    ensures TiesHarmless(s)
  {
    forall run | MaximalDownRun(s, |s|, run) ensures HarmlessEnd(s, run) {
      assert run.hi < |s| ==> Up(s[run.hi]) != Up(s[run.hi - 1]);
    }
  }

  /** Rows after time t lie outside its frame. */
  lemma {:induction false} FrameEnds(s: seq<CheckRow>, k: nat, m: nat, t: Time)
    requires k <= m <= |s| && forall i :: k <= i < m ==> s[i].at > t
    ensures CountChanges(s, m, t) == CountChanges(s, k, t)
  {
    if m > k {
      FrameEnds(s, k, m - 1, t);
    }
  }

  lemma {:induction false} FrameHolds(s: seq<CheckRow>, k: nat, t: Time, u: Time)
    requires k <= |s| && forall i :: 0 <= i < k ==> s[i].at <= t && s[i].at <= u
    ensures CountChanges(s, k, t) == CountChanges(s, k, u)
  {
    if k > 0 {
      FrameHolds(s, k - 1, t, u);
    }
  }

  lemma {:induction false} ChangedMeans(s: seq<CheckRow>, i: nat)
    requires i < |s|
    ensures Changed(s, i) <==> i == 0 || Up(s[i]) != Up(s[i - 1])
  {
    IsUpExprIsUp(s[i]);
    if i > 0 {
      IsUpExprIsUp(s[i - 1]);
    }
  }

  lemma {:induction false} NothingChanges(s: seq<CheckRow>, k: nat, m: nat, t: Time)
    requires k <= m <= |s| && forall i :: k <= i < m ==> !Changed(s, i)
    ensures CountChanges(s, m, t) == CountChanges(s, k, t)
  {
    if m > k {
      NothingChanges(s, k, m - 1, t);
    }
  }

  /** A change between two times separates their counts. */
  lemma {:induction false} ChangeSeparates(s: seq<CheckRow>, k: nat, t: Time, u: Time, i: nat)
    requires i < k <= |s| && Changed(s, i) && t < s[i].at <= u
    ensures CountChanges(s, k, t) < CountChanges(s, k, u)
  {
    hide Changed;
    if i < k - 1 {
      ChangeSeparates(s, k - 1, t, u, i);
    } else {
      CountChangesGrows(s, k - 1, t, u);
    }
  }

  lemma {:induction false} PeersChangeNothing(s: seq<CheckRow>, i: nat, k: nat)
    requires Ordered(s) && TiesAgree(s) && i < k <= |s|
    ensures CountChanges(s, k, s[i].at) == CountChanges(s, i + 1, s[i].at)
  {
    if k > i + 1 {
      PeersChangeNothing(s, i, k - 1);
      ChangedMeans(s, k - 1);
      hide Up, Changed;
      assert s[i].at <= s[k - 2].at <= s[k - 1].at;
    }
  }

  /** Row i starts a new run_id exactly when its health differs from that of the row before it. */
  lemma {:induction false} RunIdStep(s: seq<CheckRow>, i: nat)
    requires Ordered(s) && TiesAgree(s) && i < |s|
    ensures i == 0 ==> RunId(s, i) == 1
    ensures i > 0 ==> RunId(s, i) == RunId(s, i - 1) + if Up(s[i - 1]) == Up(s[i]) then 0 else 1
  {
    PeersChangeNothing(s, i, |s|);
    ChangedMeans(s, i);
    if i > 0 {
      PeersChangeNothing(s, i - 1, |s|);
      hide Up, Changed;
      if s[i - 1].at < s[i].at {
        FrameHolds(s, i, s[i - 1].at, s[i].at);
      }
    }
  }

  /** All rows of a run share its run_id. */
  lemma {:induction false} RunShares(s: seq<CheckRow>, run: Run, i: nat)
    requires Ordered(s) && MaximalDownRun(s, |s|, run) && HarmlessEnd(s, run) && run.lo <= i < run.hi
    ensures RunId(s, i) == RunId(s, run.lo)
  {
    assert s[run.lo].at <= s[i].at <= s[run.hi - 1].at;
    if s[run.lo].at != s[i].at {
      RunIdAtStart(s, run, i);
      RunIdAtStart(s, run, run.lo);
      FrameHolds(s, run.lo + 1, s[i].at, s[run.lo].at);
    }
  }

  lemma {:induction false} RunIdAtStart(s: seq<CheckRow>, run: Run, i: nat)
    requires Ordered(s) && MaximalDownRun(s, |s|, run) && run.lo <= i < run.hi
    requires run.hi < |s| ==> s[run.hi].at > s[i].at
    ensures RunId(s, i) == CountChanges(s, run.lo + 1, s[i].at)
  {
    forall m | run.lo + 1 <= m < run.hi ensures !Changed(s, m) {
      ChangedMeans(s, m);
    }
    hide Changed, Up;
    FrameEnds(s, run.hi, |s|, s[i].at);
    NothingChanges(s, run.lo + 1, run.hi, s[i].at);
  }

  lemma {:induction false} RunOf(s: seq<CheckRow>, i: nat) returns (run: Run)
    requires i < |s| && !Up(s[i])
    ensures MaximalDownRun(s, |s|, run) && run.lo <= i < run.hi && run in DownRuns(s, |s|)
  {
    var runs := DownRuns(s, |s|);
    DownRunsCover(s, |s|, i);
    DownRunsSound(s, |s|);
    var a :| 0 <= a < |runs| && runs[a].lo <= i < runs[a].hi;
    return runs[a];
  }

  /** Failures with a success between them differ in run_id. */
  lemma {:induction false} RunsDiffer(s: seq<CheckRow>, i: nat, m: nat, j: nat)
    requires Ordered(s) && TiesHarmless(s) && i < m < j < |s| && !Up(s[i]) && Up(s[m]) && !Up(s[j])
    ensures RunId(s, i) < RunId(s, j)
  {
    var run := RunOf(s, i);
    var later := RunOf(s, j);
    RunShares(s, run, i);
    RunShares(s, run, run.hi - 1);
    assert run.hi <= m < later.lo;
    var e := if s[run.hi - 1].at < s[run.hi].at then run.hi else later.lo;
    ChangedMeans(s, e);
    assert Changed(s, e);
    assert s[run.hi - 1].at < s[e].at <= s[j].at;
    hide Changed, Up, MaximalDownRun;
    ChangeSeparates(s, |s|, s[run.hi - 1].at, s[j].at, e);
  }

  /** Failures carry the same run_id exactly when they belong to the same run. */
  ghost predicate RunIdsTellRuns(s: seq<CheckRow>) {
    && (forall i :: 0 < i < |s| && !Up(s[i - 1]) && !Up(s[i]) ==> RunId(s, i - 1) == RunId(s, i))
    && (forall i, m, j :: 0 <= i < m < j < |s| && !Up(s[i]) && Up(s[m]) && !Up(s[j]) ==> RunId(s, i) < RunId(s, j))
  }

  lemma {:induction false} HarmlessTells(s: seq<CheckRow>)
    requires Ordered(s) && TiesHarmless(s)
    ensures RunIdsTellRuns(s)
  {
    hide RunId;
    forall i | 0 < i < |s| && !Up(s[i - 1]) && !Up(s[i]) ensures RunId(s, i - 1) == RunId(s, i) {
      var run := RunOf(s, i);
      assert run.lo <= i - 1;
      RunShares(s, run, i - 1);
      RunShares(s, run, i);
    }
    forall i, m, j | 0 <= i < m < j < |s| && !Up(s[i]) && Up(s[m]) && !Up(s[j]) ensures RunId(s, i) < RunId(s, j) {
      RunsDiffer(s, i, m, j);
    }
  }

  /** A group and a run describe the same incident. */
  predicate SameIncident(s: seq<CheckRow>, g: Group, run: Run) {
    && run.lo < run.hi <= |s|
    && g.started == s[run.lo].at
    && g.ended == s[run.hi - 1].at
    && g.checks == run.hi - run.lo
  }

  ghost predicate Matches(s: seq<CheckRow>, groups: seq<Group>, runs: seq<Run>) {
    && |groups| == |runs|
    && (forall a :: 0 <= a < |runs| ==> SameIncident(s, groups[a], runs[a]))
  }

  /** The newest group carries the run_id of the newest failure. */
  ghost predicate Current(s: seq<CheckRow>, groups: seq<Group>, runs: seq<Run>) {
    groups != [] && |groups| == |runs| && Bounded(runs, |s|) ==>
      groups[|groups| - 1].runId == RunId(s, runs[|runs| - 1].hi - 1)
  }

  lemma {:induction false} GroupsMatchRuns(s: seq<CheckRow>, k: nat)
    requires Ordered(s) && RunIdsTellRuns(s) && k <= |s|
    ensures Matches(s, GroupBy(s, k), DownRuns(s, k)) && Current(s, GroupBy(s, k), DownRuns(s, k))
  {
    hide *;
    if k == 0 {
      NothingMatches(s);
    } else {
      GroupsMatchRuns(s, k - 1);
      GroupBySeparates(s, k);
      DownRunsSound(s, k - 1);
      MaximalBounded(s, k - 1, DownRuns(s, k - 1));
      LastRun(s, k);
      MatchStep(s, k - 1, GroupBy(s, k - 1), DownRuns(s, k - 1));
    }
  }

  lemma {:induction false} LastRun(s: seq<CheckRow>, k: nat)
    requires 0 < k <= |s|
    ensures DownRuns(s, k) == Extend(DownRuns(s, k - 1), k - 1, Up(s[k - 1]))
  {
  }

  lemma {:induction false} NothingMatches(s: seq<CheckRow>)
    ensures Matches(s, GroupBy(s, 0), DownRuns(s, 0)) && Current(s, GroupBy(s, 0), DownRuns(s, 0))
  {
  }

  lemma {:induction false} RunBounds(s: seq<CheckRow>, k: nat)
    requires k <= |s|
    ensures Bounded(DownRuns(s, k), k)
  {
    DownRunsSound(s, k);
    MaximalBounded(s, k, DownRuns(s, k));
  }

  lemma {:induction false} MatchStep(s: seq<CheckRow>, i: nat, groups: seq<Group>, runs: seq<Run>)
    requires Ordered(s) && RunIdsTellRuns(s) && i < |s|
    requires Matches(s, groups, runs) && Current(s, groups, runs) && AllMaximal(s, i, runs) && Bounded(runs, i)
    ensures Matches(s, GroupStep(s, i, groups), Extend(runs, i, Up(s[i])))
    ensures Current(s, GroupStep(s, i, groups), Extend(runs, i, Up(s[i])))
  {
    if !Up(s[i]) && runs != [] {
      var run := runs[|runs| - 1];
      NewestRunId(s, i, run);
      hide RunIdsTellRuns, RunId, MaximalDownRun, Up, AllMaximal;
      if run.hi == i {
        ContinueMatch(s, i, groups, runs);
      } else {
        OpenMatch(s, i, groups, runs);
      }
    } else if !Up(s[i]) {
      OpenMatch(s, i, groups, runs);
    }
  }

  lemma {:induction false} NewestRunId(s: seq<CheckRow>, i: nat, run: Run)
    requires RunIdsTellRuns(s) && i < |s| && !Up(s[i]) && MaximalDownRun(s, i, run)
    ensures run.hi == i <==> RunId(s, run.hi - 1) == RunId(s, i)
  {
    hide RunId;
  }

  lemma {:induction false} ContinueMatch(s: seq<CheckRow>, i: nat, groups: seq<Group>, runs: seq<Run>)
    requires Ordered(s) && i < |s| && Matches(s, groups, runs) && Bounded(runs, i)
    requires runs != [] && runs[|runs| - 1].hi == i && groups[|groups| - 1].runId == RunId(s, i)
    ensures Matches(s, AddNewest(groups, RunId(s, i), s[i].at), Extend(runs, i, false))
    ensures Current(s, AddNewest(groups, RunId(s, i), s[i].at), Extend(runs, i, false))
  {
    hide RunId;
  }

  lemma {:induction false} OpenMatch(s: seq<CheckRow>, i: nat, groups: seq<Group>, runs: seq<Run>)
    requires i < |s| && Matches(s, groups, runs) && Bounded(runs, i)
    requires runs != [] ==> runs[|runs| - 1].hi != i && groups[|groups| - 1].runId != RunId(s, i)
    ensures Matches(s, AddNewest(groups, RunId(s, i), s[i].at), Extend(runs, i, false))
    ensures Current(s, AddNewest(groups, RunId(s, i), s[i].at), Extend(runs, i, false))
  {
    hide RunId;
  }

  /* ---------- the order of tied rows ---------- */

  lemma {:induction false} PrefixSize(s: seq<CheckRow>, k: nat)
    requires k <= |s| && forall i, j :: 0 <= i < j < |s| ==> s[i] != s[j]
    ensures |Contents(s[..k])| == k
  {
    EnumerationSize(s[..k], Contents(s[..k]));
  }

  /** In every order that ORDER BY permits, row i has the same timestamp. */
  lemma {:induction false} SameTimes(s: seq<CheckRow>, h: seq<CheckRow>, rows: set<CheckRow>, i: nat)
    requires Ordered(s) && Ordered(h) && Enumerates(s, rows) && Enumerates(h, rows) && i < |s| && i < |h|
    ensures s[i].at <= h[i].at
  {
    if h[i].at < s[i].at {
      forall r | r in Contents(h[..i + 1]) ensures r in Contents(s[..i]) {
        var j :| 0 <= j < i + 1 && h[j] == r;
        assert r in rows && r in s;
        var k :| 0 <= k < |s| && s[k] == r;
        assert h[j].at <= h[i].at;
        assert s[..i][k] == r;
      }
      SubsetSize(Contents(h[..i + 1]), Contents(s[..i]));
      PrefixSize(h, i + 1);
      PrefixSize(s, i);
    }
  }

  /** Two orders of the same rows agree in length, timestamps and health. */
  ghost predicate SameColumns(s: seq<CheckRow>, h: seq<CheckRow>) {
    |s| == |h| && forall i :: 0 <= i < |s| ==> s[i].at == h[i].at && Up(s[i]) == Up(h[i])
  }

  /** Rows of the set with equal timestamps have equal health. */
  ghost predicate TiesAgreeIn(rows: set<CheckRow>) {
    forall r, q :: r in rows && q in rows && r.at == q.at ==> Up(r) == Up(q)
  }

  lemma {:induction false} OrdersAgree(s: seq<CheckRow>, h: seq<CheckRow>, rows: set<CheckRow>)
    requires Ordered(s) && Ordered(h) && Enumerates(s, rows) && Enumerates(h, rows) && TiesAgreeIn(rows)
    ensures SameColumns(s, h) && TiesAgree(s)
  {
    EnumerationSize(s, rows);
    EnumerationSize(h, rows);
    forall i | 0 <= i < |s| ensures s[i].at == h[i].at && Up(s[i]) == Up(h[i]) {
      hide *;
      SameTimes(s, h, rows, i);
      SameTimes(h, s, rows, i);
      SameHealth(s, h, rows, i, i);
    }
    forall i, j | 0 <= i < j < |s| && s[i].at == s[j].at ensures Up(s[i]) == Up(s[j]) {
      hide *;
      SameHealth(s, s, rows, i, j);
    }
  }

  lemma {:induction false} SameHealth(s: seq<CheckRow>, h: seq<CheckRow>, rows: set<CheckRow>, i: nat, j: nat)
    requires Enumerates(s, rows) && Enumerates(h, rows) && TiesAgreeIn(rows) && i < |s| && j < |h| && s[i].at == h[j].at
    ensures Up(s[i]) == Up(h[j])
  {
    hide Up;
    assert s[i] in s && h[j] in h;
  }

  lemma {:induction false} SameRuns(s: seq<CheckRow>, h: seq<CheckRow>, k: nat)
    requires SameColumns(s, h) && k <= |s|
    ensures DownRuns(s, k) == DownRuns(h, k)
  {
    if k > 0 {
      SameRuns(s, h, k - 1);
      hide Up;
    }
  }

  lemma {:induction false} SameIncidents(s: seq<CheckRow>, h: seq<CheckRow>, runs: seq<Run>)
    requires SameColumns(s, h) && Bounded(runs, |s|)
    ensures RunIncidents(s, runs) == RunIncidents(h, runs)
  {
    var a, b := RunIncidents(s, runs), RunIncidents(h, runs);
    hide Up, RunIncidents;
    assert forall i :: 0 <= i < |runs| ==> a[i] == b[i];
  }

  /**
    Main result: if rows with equal timestamps have equal health (in particular if timestamps are
    distinct), the SQL pipeline returns exactly the maximal runs of failed checks (NULL status
    included), newest first, with their first and last timestamp, truncated duration and length,
    in whatever order the database scans tied rows.
  */
  lemma {:induction false} QueryListsMaximalRuns(rows: set<CheckRow>, endpoint: nat, now: Time, s: seq<CheckRow>, history: seq<CheckRow>)
    requires WindowOrder(rows, endpoint, now, s) && WindowOrder(rows, endpoint, now, history)
    requires TiesAgreeIn(InWindow(rows, endpoint, now))
    ensures AllMaximal(history, |history|, DownRuns(history, |history|))
    ensures IncidentQuery(s) == Reversed(RunIncidents(history, DownRuns(history, |history|)))
  {
    OrdersAgree(s, history, InWindow(rows, endpoint, now));
    SameRuns(s, history, |s|);
    RunBounds(s, |s|);
    SameIncidents(s, history, DownRuns(s, |s|));
    DownRunsSound(history, |history|);
    AgreeingTiesAreHarmless(s);
    QueryReversesRuns(s);
  }

  lemma {:induction false} DistinctTimesAgree(s: seq<CheckRow>)
    requires StrictlyOrdered(s)
    ensures Ordered(s) && TiesAgree(s)
  {
  }

  lemma {:induction false} QueryReversesRuns(s: seq<CheckRow>)
    requires Ordered(s) && TiesHarmless(s)
    ensures Bounded(DownRuns(s, |s|), |s|)
    ensures IncidentQuery(s) == Reversed(RunIncidents(s, DownRuns(s, |s|)))
  {
    hide *;
    HarmlessTells(s);
    QueryReversesGroups(s);
    GroupsMatchRuns(s, |s|);
    RunBounds(s, |s|);
    ReverseMatches(s, GroupBy(s, |s|), DownRuns(s, |s|));
  }

  lemma {:induction false} SameReport(s: seq<CheckRow>, g: Group, run: Run)
    requires SameIncident(s, g, run)
    ensures ToIncident(g) == RunIncident(s, run)
  {
  }

  lemma {:induction false} ReverseMatches(s: seq<CheckRow>, groups: seq<Group>, runs: seq<Run>)
    requires Matches(s, groups, runs)
    requires Bounded(runs, |s|)
    ensures ToIncidents(Reversed(groups)) == Reversed(RunIncidents(s, runs))
  {
    hide SameIncident, ToIncident, RunIncident, Reversed, ToIncidents, RunIncidents;
    var x, y, n := ToIncidents(Reversed(groups)), Reversed(RunIncidents(s, runs)), |runs|;
    forall i | 0 <= i < n ensures x[i] == y[i] {
      SameReport(s, groups[n - 1 - i], runs[n - 1 - i]);
    }
  }

  /* ---------- any row order, ties included ---------- */

  function DownCount(s: seq<CheckRow>, k: nat): nat
    requires k <= |s|
  {
    if k == 0 then 0 else DownCount(s, k - 1) + if Up(s[k - 1]) then 0 else 1
  }

  function SumChecks(incidents: seq<Incident>): nat {
    if incidents == [] then 0 else incidents[0].checks + SumChecks(incidents[1..])
  }

  function SumDurations(incidents: seq<Incident>): int {
    if incidents == [] then 0 else incidents[0].duration + SumDurations(incidents[1..])
  }

  function GroupChecks(groups: seq<Group>): nat {
    if groups == [] then 0 else groups[|groups| - 1].checks + GroupChecks(groups[..|groups| - 1])
  }

  lemma {:induction false} ReversedChecks(groups: seq<Group>)
    ensures SumChecks(ToIncidents(Reversed(groups))) == GroupChecks(groups)
  {
    if groups != [] {
      var n := |groups| - 1;
      ReversedChecks(groups[..n]);
      assert Reversed(groups) == [groups[n]] + Reversed(groups[..n]);
    }
  }

  lemma {:induction false} GroupChecksCount(s: seq<CheckRow>, k: nat)
    requires Ordered(s) && k <= |s|
    ensures GroupChecks(GroupBy(s, k)) == DownCount(s, k)
  {
    if k > 0 {
      GroupChecksCount(s, k - 1);
      GroupBySeparates(s, k);
      var prior := GroupBy(s, k - 1);
      if !Up(s[k - 1]) {
        var all := AddNewest(prior, RunId(s, k - 1), s[k - 1].at);
        assert all[..|all| - 1] == if |all| == |prior| then prior[..|prior| - 1] else prior;
      }
    }
  }

  /** Row i is counted in group g. */
  predicate Covers(s: seq<CheckRow>, i: nat, g: Group)
    requires i < |s|
  {
    g.runId == RunId(s, i) && g.started <= s[i].at <= g.ended
  }

  ghost predicate Covered(s: seq<CheckRow>, i: nat, groups: seq<Group>) {
    i < |s| && exists a :: 0 <= a < |groups| && Covers(s, i, groups[a])
  }

  lemma {:induction false} AddNewestCovers(s: seq<CheckRow>, i: nat, groups: seq<Group>, runId: nat, at: Time)
    requires i < |s|
    requires Covered(s, i, groups) || (runId == RunId(s, i) && at == s[i].at)
    ensures Covered(s, i, AddNewest(groups, runId, at))
  {
    hide RunId;
    var all := AddNewest(groups, runId, at);
    if Covered(s, i, groups) {
      var a :| 0 <= a < |groups| && Covers(s, i, groups[a]);
      assert Covers(s, i, all[a]);
    } else {
      assert Covers(s, i, all[|all| - 1]);
    }
  }

  lemma {:induction false} GroupByCovers(s: seq<CheckRow>, k: nat, i: nat)
    requires Ordered(s) && i < k <= |s| && !Up(s[i])
    ensures Covered(s, i, GroupBy(s, k))
  {
    GroupBySeparates(s, k);
    if i < k - 1 {
      GroupByCovers(s, k - 1, i);
    }
    hide Covered, GroupBy, RunId, Up, Separated, Precedes, AddNewest;
    if !Up(s[k - 1]) {
      AddNewestCovers(s, i, GroupBy(s, k - 1), RunId(s, k - 1), s[k - 1].at);
    }
  }

  ghost predicate Within(groups: seq<Group>, lo: Time, hi: Time) {
    forall a :: 0 <= a < |groups| ==> lo <= groups[a].started && groups[a].ended <= hi
  }

  lemma {:induction false} GroupByWithin(s: seq<CheckRow>, k: nat, lo: Time, hi: Time)
    requires Ordered(s) && k <= |s|
    requires forall r :: r in s ==> lo <= r.at <= hi
    ensures Within(GroupBy(s, k), lo, hi)
  {
    hide *;
    if k == 0 {
      NothingWithin(s, lo, hi);
    } else {
      GroupByWithin(s, k - 1, lo, hi);
      GroupBySeparates(s, k);
      assert s[k - 1] in s;
      StepWithin(s, k - 1, GroupBy(s, k - 1), lo, hi);
    }
  }

  lemma {:induction false} NothingWithin(s: seq<CheckRow>, lo: Time, hi: Time)
    ensures Within(GroupBy(s, 0), lo, hi)
  {
  }

  lemma {:induction false} StepWithin(s: seq<CheckRow>, i: nat, groups: seq<Group>, lo: Time, hi: Time)
    requires i < |s| && Within(groups, lo, hi) && lo <= s[i].at <= hi
    ensures Within(GroupStep(s, i, groups), lo, hi)
  {
    hide RunId, Up;
  }

  predicate WellFormed(i: Incident) {
    i.started <= i.ended && i.checks >= 1 && i.duration == Seconds(i.ended - i.started)
  }

  /** Incidents newest first, with pairwise disjoint time ranges. */
  ghost predicate DisjointNewestFirst(q: seq<Incident>) {
    && (forall i :: 0 <= i < |q| ==> WellFormed(q[i]))
    && (forall i, j :: 0 <= i < j < |q| ==> q[j].ended < q[i].started)
  }

  predicate During(t: Time, i: Incident) {
    i.started <= t <= i.ended
  }

  ghost predicate InExactlyOne(t: Time, q: seq<Incident>) {
    exists i :: 0 <= i < |q| && During(t, q[i]) && forall j :: 0 <= j < |q| && During(t, q[j]) ==> j == i
  }

  lemma {:induction false} ReversedSeparated(groups: seq<Group>)
    requires Separated(groups)
    ensures DisjointNewestFirst(ToIncidents(Reversed(groups)))
  {
  }

  /**
    For every scan order that ORDER BY checked_at permits, ties included: incidents have pairwise
    disjoint time ranges, newest first, and every failed check falls into exactly one of them.
  */
  lemma {:induction false} IncidentsPartitionFailures(rows: set<CheckRow>, endpoint: nat, now: Time, s: seq<CheckRow>)
    requires WindowOrder(rows, endpoint, now, s)
    ensures DisjointNewestFirst(IncidentQuery(s))
    ensures forall r :: r in InWindow(rows, endpoint, now) && !Up(r) ==> InExactlyOne(r.at, IncidentQuery(s))
  {
    QueryReversesGroups(s);
    ReversedSeparated(GroupBy(s, |s|));
    forall r | r in InWindow(rows, endpoint, now) && !Up(r) ensures InExactlyOne(r.at, IncidentQuery(s)) {
      assert r in s;
      var k :| 0 <= k < |s| && s[k] == r;
      FailureInOne(s, k);
    }
  }

  lemma {:induction false} GroupListed(s: seq<CheckRow>, a: nat)
    requires Ordered(s) && a < |GroupBy(s, |s|)|
    ensures |IncidentQuery(s)| == |GroupBy(s, |s|)|
    ensures IncidentQuery(s)[|IncidentQuery(s)| - 1 - a] == ToIncident(GroupBy(s, |s|)[a])
  {
    QueryReversesGroups(s);
    hide GroupBy, IncidentQuery;
  }

  lemma {:induction false} CoveringGroup(s: seq<CheckRow>, k: nat, groups: seq<Group>) returns (a: nat)
    requires k < |s| && Covered(s, k, groups)
    ensures a < |groups| && groups[a].runId == RunId(s, k) && During(s[k].at, ToIncident(groups[a]))
  {
    hide RunId;
    a :| 0 <= a < |groups| && Covers(s, k, groups[a]);
  }

  /** The incident that counts failure k. */
  lemma {:induction false} CountedIn(s: seq<CheckRow>, k: nat) returns (b: nat)
    requires Ordered(s) && k < |s| && !Up(s[k])
    ensures b < |IncidentQuery(s)| == |GroupBy(s, |s|)| && During(s[k].at, IncidentQuery(s)[b])
    ensures GroupBy(s, |s|)[|GroupBy(s, |s|)| - 1 - b].runId == RunId(s, k)
  {
    hide *;
    GroupByCovers(s, |s|, k);
    var a := CoveringGroup(s, k, GroupBy(s, |s|));
    GroupListed(s, a);
    b := |IncidentQuery(s)| - 1 - a;
  }

  lemma {:induction false} FailureInOne(s: seq<CheckRow>, k: nat)
    requires Ordered(s) && k < |s| && !Up(s[k]) && DisjointNewestFirst(IncidentQuery(s))
    ensures InExactlyOne(s[k].at, IncidentQuery(s))
  {
    hide IncidentQuery, GroupBy;
    var b := CountedIn(s, k);
    forall j | 0 <= j < |IncidentQuery(s)| && During(s[k].at, IncidentQuery(s)[j]) ensures j == b {
      AtMostOne(IncidentQuery(s), s[k].at, b, j);
    }
  }

  lemma {:induction false} AtMostOne(q: seq<Incident>, t: Time, i: nat, j: nat)
    requires DisjointNewestFirst(q) && i < |q| && j < |q| && During(t, q[i]) && During(t, q[j])
    ensures i == j
  {
  }

  /** The incident reported for a run of the list, if the query lists the runs. */
  lemma {:induction false} ListedRun(s: seq<CheckRow>, run: Run) returns (i: nat)
    requires Bounded(DownRuns(s, |s|), |s|) && IncidentQuery(s) == Reversed(RunIncidents(s, DownRuns(s, |s|)))
    requires run in DownRuns(s, |s|)
    ensures i < |IncidentQuery(s)| == |DownRuns(s, |s|)| && DownRuns(s, |s|)[|DownRuns(s, |s|)| - 1 - i] == run
    ensures IncidentQuery(s)[i] == RunIncident(s, run)
  {
    var runs := DownRuns(s, |s|);
    var a :| 0 <= a < |runs| && runs[a] == run;
    hide IncidentQuery, DownRuns;
    return |runs| - 1 - a;
  }

  lemma {:induction false} QueryIsDisjoint(s: seq<CheckRow>)
    requires Ordered(s)
    ensures DisjointNewestFirst(IncidentQuery(s))
  {
    QueryReversesGroups(s);
    ReversedSeparated(GroupBy(s, |s|));
  }

  lemma {:induction false} RunIsFound(s: seq<CheckRow>, run: Run)
    requires Ordered(s) && MaximalDownRun(s, |s|, run)
    ensures run in DownRuns(s, |s|) && !Up(s[run.lo]) && !Up(s[run.hi - 1])
    ensures forall k :: run.lo <= k < run.hi ==> During(s[k].at, RunIncident(s, run))
  {
    DownRunsAreMaximal(s);
  }

  lemma {:induction false} StraddlingRunHasTwoIds(s: seq<CheckRow>, run: Run)
    requires Ordered(s) && MaximalDownRun(s, |s|, run) && run.hi < |s|
    requires s[run.lo].at < s[run.hi - 1].at == s[run.hi].at
    ensures RunId(s, run.lo) != RunId(s, run.hi - 1)
  {
    ChangedMeans(s, run.hi);
    ChangeSeparates(s, |s|, s[run.lo].at, s[run.hi - 1].at, run.hi);
  }

  lemma {:induction false} BothInOne(q: seq<Incident>, t: Time, u: Time, i: nat, b: nat, c: nat)
    requires DisjointNewestFirst(q) && i < |q| && b < |q| && c < |q|
    requires During(t, q[i]) && During(u, q[i]) && During(t, q[b]) && During(u, q[c])
    ensures b == c
  {
    AtMostOne(q, t, i, b);
    AtMostOne(q, u, i, c);
  }

  /** A run that straddles the tie at its end is split. */
  lemma {:induction false} StraddlingRunIsSplit(s: seq<CheckRow>, run: Run)
    requires Ordered(s) && MaximalDownRun(s, |s|, run) && run.lo < run.hi < |s|
    requires s[run.lo].at < s[run.hi - 1].at == s[run.hi].at
    requires Bounded(DownRuns(s, |s|), |s|)
    ensures IncidentQuery(s) != Reversed(RunIncidents(s, DownRuns(s, |s|)))
  {
    hide *;
    if IncidentQuery(s) == Reversed(RunIncidents(s, DownRuns(s, |s|))) {
      QueryIsDisjoint(s);
      RunIsFound(s, run);
      StraddlingRunHasTwoIds(s, run);
      var i := ListedRun(s, run);
      var b := CountedIn(s, run.lo);
      var c := CountedIn(s, run.hi - 1);
      BothInOne(IncidentQuery(s), s[run.lo].at, s[run.hi - 1].at, i, b, c);
    }
  }

  /** Two runs at one timestamp are merged. */
  lemma {:induction false} TiedRunsAreMerged(s: seq<CheckRow>, run: Run, j: nat)
    requires Ordered(s) && MaximalDownRun(s, |s|, run) && run.lo < run.hi < j < |s|
    requires s[run.lo].at == s[run.hi].at == s[j].at && !Up(s[j])
    requires Bounded(DownRuns(s, |s|), |s|)
    ensures IncidentQuery(s) != Reversed(RunIncidents(s, DownRuns(s, |s|)))
  {
    hide *;
    if IncidentQuery(s) == Reversed(RunIncidents(s, DownRuns(s, |s|))) {
      var later := RunOf(s, j);
      QueryIsDisjoint(s);
      RunIsFound(s, run);
      RunIsFound(s, later);
      var i := ListedRun(s, run);
      var k := ListedRun(s, later);
      AtMostOne(IncidentQuery(s), s[j].at, i, k);
    }
  }

  /**
    The exact condition, for every scan order: the query lists the maximal runs if and only if
    every tie between the end of a run and the success after it is harmless.
  */
  lemma {:induction false} QueryIsRunsExactly(s: seq<CheckRow>)
    requires Ordered(s)
    ensures Bounded(DownRuns(s, |s|), |s|)
    ensures IncidentQuery(s) == Reversed(RunIncidents(s, DownRuns(s, |s|))) <==> TiesHarmless(s)
  {
    RunBounds(s, |s|);
    if TiesHarmless(s) {
      QueryReversesRuns(s);
    } else {
      var run :| MaximalDownRun(s, |s|, run) && !HarmlessEnd(s, run);
      hide DownRuns, IncidentQuery, Reversed, RunIncidents;
      assert s[run.lo].at <= s[run.hi - 1].at;
      if s[run.lo].at == s[run.hi].at {
        var j :| run.hi < j < |s| && s[j].at == s[run.hi].at && !Up(s[j]);
        TiedRunsAreMerged(s, run, j);
      } else {
        StraddlingRunIsSplit(s, run);
      }
    }
  }

  /**
    A harmful tie: a success tied with the second of two failures splits their run in two.
  */
  lemma {:induction false} TieSplitsRun() returns (s: seq<CheckRow>)
    ensures Ordered(s) && !TiesHarmless(s) && |DownRuns(s, |s|)| == 1 && |IncidentQuery(s)| == 2
  {
    s := [CheckRow(0, 0, 0, None), CheckRow(1, 0, 1, None), CheckRow(2, 0, 1, Some(200))];
    TieIsHarmful(s);
    TieGroups(s);
    QueryReversesGroups(s);
    hide GroupBy, IncidentQuery, DownRuns, TiesHarmless;
  }

  lemma {:induction false} TieIsHarmful(s: seq<CheckRow>)
    requires s == [CheckRow(0, 0, 0, None), CheckRow(1, 0, 1, None), CheckRow(2, 0, 1, Some(200))]
    ensures |DownRuns(s, 3)| == 1 && !TiesHarmless(s)
  {
    assert DownRuns(s, 0) == [] && DownRuns(s, 1) == [Run(0, 1)] && DownRuns(s, 2) == [Run(0, 2)];
    assert MaximalDownRun(s, |s|, Run(0, 2)) && !HarmlessEnd(s, Run(0, 2));
  }

  lemma {:induction false} TieGroups(s: seq<CheckRow>)
    requires s == [CheckRow(0, 0, 0, None), CheckRow(1, 0, 1, None), CheckRow(2, 0, 1, Some(200))]
    ensures |GroupBy(s, 3)| == 2
  {
    ChangedMeans(s, 0);
    ChangedMeans(s, 1);
    ChangedMeans(s, 2);
    hide Changed;
    assert CountChanges(s, 0, 0) == 0 && CountChanges(s, 0, 1) == 0;
    assert CountChanges(s, 1, 0) == 1 && CountChanges(s, 1, 1) == 1;
    assert CountChanges(s, 2, 0) == 1 && CountChanges(s, 2, 1) == 1;
    assert RunId(s, 0) == 1 && RunId(s, 1) == 2;
    hide RunId, CountChanges;
    assert GroupBy(s, 0) == [];
    assert GroupBy(s, 1) == [Group(1, 0, 0, 1)];
    AbsorbAtEnd(GroupBy(s, 1), 2, 1);
    assert GroupBy(s, 2) == [Group(1, 0, 0, 1), Group(2, 1, 1, 1)];
  }

  /** count(*) of the summary query. */
  ghost function TotalChecks(rows: set<CheckRow>, endpoint: nat, now: Time): nat {
    |InWindow(rows, endpoint, now)|
  }

  /** count(*) FILTER (WHERE status_code BETWEEN 200 AND 399), where a NULL status makes the condition NULL. */
  ghost function UpChecks(rows: set<CheckRow>, endpoint: nat, now: Time): nat {
    |set r | r in InWindow(rows, endpoint, now) && Holds(Between(r.code, 200, 399))|
  }

  lemma {:induction false} DownCountIsSize(s: seq<CheckRow>, k: nat)
    requires k <= |s| && forall i, j :: 0 <= i < j < |s| ==> s[i] != s[j]
    ensures |set i | 0 <= i < k && !Up(s[i]) :: s[i]| == DownCount(s, k)
  {
    if k > 0 {
      DownCountIsSize(s, k - 1);
      var before := set i | 0 <= i < k - 1 && !Up(s[i]) :: s[i];
      var after := set i | 0 <= i < k && !Up(s[i]) :: s[i];
      if Up(s[k - 1]) {
        assert after == before;
      } else {
        assert after == before + {s[k - 1]};
      }
    }
  }

  lemma {:induction false} QueryChecks(s: seq<CheckRow>)
    requires Ordered(s)
    ensures SumChecks(IncidentQuery(s)) == DownCount(s, |s|)
  {
    QueryReversesGroups(s);
    ReversedChecks(GroupBy(s, |s|));
    GroupChecksCount(s, |s|);
  }

  /**
    The two analytics queries account for every check: although one tests a possibly NULL BETWEEN
    in a FILTER and the other a forced boolean, successes plus the checks of all incidents add up
    to the total.
  */
  lemma {:induction false} AnalyticsAddUp(rows: set<CheckRow>, endpoint: nat, now: Time, s: seq<CheckRow>)
    requires WindowOrder(rows, endpoint, now, s)
    ensures UpChecks(rows, endpoint, now) + SumChecks(IncidentQuery(s)) == TotalChecks(rows, endpoint, now)
  {
    QueryChecks(s);
    DownCountIsSize(s, |s|);
    var all := InWindow(rows, endpoint, now);
    var ups := set r | r in all && Holds(Between(r.code, 200, 399));
    var downs := set i | 0 <= i < |s| && !Up(s[i]) :: s[i];
    assert downs == set r | r in all && !Up(r) by {
      forall r | r in all && !Up(r) ensures r in downs {
        assert r in s;
      }
      forall r | r in downs ensures r in all {
        assert r in s;
      }
    }
    forall r | r in all ensures r in ups <==> !(r in downs) {
      IsUpExprIsUp(r);
    }
    assert all == ups + downs && ups !! downs;
  }

  lemma {:induction false} DurationsFit(q: seq<Incident>)
    requires DisjointNewestFirst(q) && q != []
    ensures SumDurations(q) * SECOND <= q[0].ended - q[|q| - 1].started
  {
    var rest := q[1..];
    assert Seconds(q[0].ended - q[0].started) * SECOND <= q[0].ended - q[0].started;
    if rest != [] {
      DurationsFit(rest);
      assert rest[0] == q[1] && rest[|rest| - 1] == q[|q| - 1];
    }
  }

  /** With no check stamped in the future, reported outage time never exceeds the seven-day window. */
  lemma {:induction false} OutageFitsWindow(rows: set<CheckRow>, endpoint: nat, now: Time, s: seq<CheckRow>)
    requires WindowOrder(rows, endpoint, now, s)
    requires forall r :: r in InWindow(rows, endpoint, now) ==> r.at <= now
    ensures 0 <= SumDurations(IncidentQuery(s)) <= WINDOW_SECONDS == 604800
  {
    var groups, q := GroupBy(s, |s|), IncidentQuery(s);
    QueryReversesGroups(s);
    ReversedSeparated(groups);
    DurationsNonNegative(q);
    if q != [] {
      DurationsFit(q);
      assert forall r :: r in s ==> r in InWindow(rows, endpoint, now);
      GroupByWithin(s, |s|, now - WINDOW, now);
      var n := |groups|;
      assert q[0] == ToIncident(groups[n - 1]) && q[n - 1] == ToIncident(groups[0]);
    }
  }

  lemma {:induction false} DurationsNonNegative(q: seq<Incident>)
    requires forall i :: 0 <= i < |q| ==> WellFormed(q[i])
    ensures SumDurations(q) >= 0
  {
    if q != [] {
      DurationsNonNegative(q[1..]);
    }
  }
}
