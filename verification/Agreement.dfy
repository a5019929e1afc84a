/**
  The online alert machine and the offline incident query tell the same story: the alerts queued by
  committed checks are exactly those that the SQL incident list, run afterwards, accounts for. What
  aborted attempts queued comes on top.
*/
module Agreement {
  import opened Common
  import opened Incidents
  import opened AlertMachine
  import opened Checks
  import opened AlertRuns

  /* ---------- counting ---------- */

  /** A later successful check exists in the history. */
  ghost predicate Recovered(s: seq<CheckRow>, incident: Incident) {
    exists r :: r in s && Up(r) && r.at > incident.ended
  }

  /** Incidents of at least the threshold, or only those of them that have been recovered from. */
  ghost function CountIncidents(q: seq<Incident>, threshold: int, s: seq<CheckRow>, recovered: bool): nat {
    if q == [] then 0 else
      CountIncidents(q[1..], threshold, s, recovered) +
      if q[0].checks >= threshold && (recovered ==> Recovered(s, q[0])) then 1 else 0
  }

  lemma {:induction false} RunRecovered(s: seq<CheckRow>, run: Run)
    requires StrictlyOrdered(s) && MaximalDownRun(s, |s|, run)
    ensures Recovered(s, RunIncident(s, run)) <==> run.hi < |s|
  {
    if run.hi < |s| {
      assert s[run.hi] in s && Up(s[run.hi]);
    } else {
      forall r | r in s ensures r.at <= s[run.hi - 1].at {
        var i :| 0 <= i < |s| && s[i] == r;
      }
    }
  }

  /** The notices owed for one outage, against the one incident that reports it. */
  lemma {:induction false} RunCounts(s: seq<CheckRow>, threshold: int, run: Run, recovered: bool)
    requires StrictlyOrdered(s) && MaximalDownRun(s, |s|, run)
    ensures var incident := RunIncident(s, run);
      Count(RunNotices(s, |s|, threshold, run), recovered) ==
      if incident.checks >= threshold && (recovered ==> Recovered(s, incident)) then 1 else 0
  {
    RunRecovered(s, run);
    hide Recovered, MaximalDownRun;
    if run.hi - run.lo >= Needed(threshold) {
      LongRunCounts(s, threshold, run, recovered);
    }
  }

  lemma {:induction false} LongRunCounts(s: seq<CheckRow>, threshold: int, run: Run, recovered: bool)
    requires run.lo + Needed(threshold) <= run.hi <= |s|
    ensures Count(RunNotices(s, |s|, threshold, run), recovered) == if recovered then (if run.hi < |s| then 1 else 0) else 1
  {
    var down := [Notice(false, s[run.lo + Needed(threshold) - 1].at)];
    assert Count(down, recovered) == if recovered then 0 else 1;
    if run.hi < |s| {
      var up := [Notice(true, s[run.hi].at)];
      CountConcat(down, up, recovered);
      assert Count(up, recovered) == if recovered then 1 else 0;
    } else {
      assert down + [] == down;
    }
  }

  lemma {:induction false} OwedCounts(s: seq<CheckRow>, threshold: int, runs: seq<Run>, m: nat, q: seq<Incident>, recovered: bool)
    requires StrictlyOrdered(s) && AllMaximal(s, |s|, runs) && Bounded(runs, |s|) && m <= |runs| && |q| == m
    requires forall i :: 0 <= i < m ==> q[i] == RunIncident(s, runs[m - 1 - i])
    ensures CountIncidents(q, threshold, s, recovered) == Count(Owed(s, |s|, threshold, runs, m), recovered)
  {
    if m > 0 {
      OwedCounts(s, threshold, runs, m - 1, q[1..], recovered);
      CountConcat(Owed(s, |s|, threshold, runs, m - 1), RunNotices(s, |s|, threshold, runs[m - 1]), recovered);
      RunCounts(s, threshold, runs[m - 1], recovered);
      assert q[0] == RunIncident(s, runs[m - 1]);
      hide Count, RunNotices, Recovered, RunIncident, AllMaximal, StrictlyOrdered;
    }
  }

  /**
    For every integer threshold: down notices are as many as the listed incidents with at least
    that many checks, and recovery notices as many as those of them already followed by a
    successful check.
  */
  lemma {:induction false} NoticesMatchIncidents(s: seq<CheckRow>, threshold: int, recovered: bool)
    requires StrictlyOrdered(s)
    ensures CountIncidents(IncidentQuery(s), threshold, s, recovered) ==
      Count(Notices(Observed(s, threshold, |s|), |s|), recovered)
  {
    hide *;
    NoticesAreOwedForRuns(s, threshold);
    DownRunsSound(s, |s|);
    QueryByRun(s);
    OwedCounts(s, threshold, DownRuns(s, |s|), |DownRuns(s, |s|)|, IncidentQuery(s), recovered);
  }

  lemma {:induction false} QueryByRun(s: seq<CheckRow>)
    requires StrictlyOrdered(s)
    ensures var q, runs := IncidentQuery(s), DownRuns(s, |s|);
      && Bounded(runs, |s|)
      && |q| == |runs|
      && (forall i :: 0 <= i < |q| ==> q[i] == RunIncident(s, runs[|runs| - 1 - i]))
  {
    DistinctTimesAgree(s);
    AgreeingTiesAreHarmless(s);
    QueryReversesRuns(s);
  }

  /** The exact log: which alerts are queued, in which order, and for which checks. */
  lemma {:induction false} NoticesAreOwedForRuns(s: seq<CheckRow>, threshold: int)
    ensures Bounded(DownRuns(s, |s|), |s|)
    ensures Notices(Observed(s, threshold, |s|), |s|) == Owed(s, |s|, threshold, DownRuns(s, |s|), |DownRuns(s, |s|)|)
  {
    NoticesAreOwed(s, threshold, |s|);
  }

  /* ---------- whole runs of the system ---------- */

  /** The results of one endpoint among the first n, in commit order. */
  function HistoryOf(results: seq<CheckRow>, n: nat, endpoint: nat): seq<CheckRow>
    requires n <= |results|
  {
    if n == 0 then []
    else if results[n - 1].endpoint == endpoint then HistoryOf(results, n - 1, endpoint) + [results[n - 1]]
    else HistoryOf(results, n - 1, endpoint)
  }

  lemma {:induction false} HistoryPrefix(results: seq<CheckRow>, more: seq<CheckRow>, n: nat, endpoint: nat)
    requires n <= |results| <= |more| && forall i :: 0 <= i < n ==> results[i] == more[i]
    ensures HistoryOf(results, n, endpoint) == HistoryOf(more, n, endpoint)
  {
    if n > 0 {
      HistoryPrefix(results, more, n - 1, endpoint);
    }
  }

  lemma {:induction false} HistoryMembers(results: seq<CheckRow>, n: nat, endpoint: nat)
    requires n <= |results|
    ensures forall r :: r in HistoryOf(results, n, endpoint) <==> r.endpoint == endpoint && r in results[..n]
  {
    if n > 0 {
      HistoryMembers(results, n - 1, endpoint);
      assert results[..n] == results[..n - 1] + [results[n - 1]];
    }
  }

  function History(w: World, endpoint: nat): seq<CheckRow> {
    HistoryOf(w.results, |w.results|, endpoint)
  }

  lemma {:induction false} HistoryAppend(w: World, v: World, row: CheckRow, endpoint: nat)
    requires v.results == w.results + [row]
    ensures History(v, endpoint) == History(w, endpoint) + if row.endpoint == endpoint then [row] else []
  {
    HistoryPrefix(w.results, v.results, |w.results|, endpoint);
  }

  /** The configuration is active on the endpoint with this threshold. */
  predicate Watches(w: World, c: nat, endpoint: nat, threshold: int) {
    c in w.configs && w.configs[c].active && w.configs[c].endpoint == endpoint && w.configs[c].threshold == threshold
  }

  /**
    The event leaves c active with the same threshold, is not an exhausted down notice of c, and
    does not store a row of the endpoint without an alert pass.
  */
  predicate Steady(e: Event, c: nat, endpoint: nat, threshold: int) {
    match e
    case Checked(_, _) => true
    case Added(_) => true
    case Updated(d, p) => d == c ==> p.active != Some(false) && (p.threshold.Some? ==> p.threshold.value == threshold)
    case Deleted(d) => d != c
    case Exhausted(a) => a.config == c ==> a.notice.isRecovery
    case Stored(x, _, _) => x != endpoint
  }

  lemma {:induction false} SteadyStep(w: World, e: Event, c: nat, endpoint: nat, threshold: int)
    requires Possible(w, e) && Steady(e, c, endpoint, threshold) && Watches(w, c, endpoint, threshold) && c < w.nextConfig
    ensures Watches(Apply(w, e), c, endpoint, threshold) && c < Apply(w, e).nextConfig
    ensures Observation(w, e, c) ==
      if e.Checked? && e.choices.failAt.None? && e.p.endpoint == endpoint
      then [Saw(UpFor(e.p.code), e.p.at, threshold)] else []
    ensures History(Apply(w, e), endpoint) == History(w, endpoint) +
      if e.Checked? && e.choices.failAt.None? && e.p.endpoint == endpoint then [NewRow(w, e.p)] else []
  {
    hide VisitAll;
    HistoryPrefix(w.results, Apply(w, e).results, |w.results|, endpoint);
  }

  lemma {:induction false} ObservedAppend(h: seq<CheckRow>, r: CheckRow, threshold: int)
    ensures Observed(h + [r], threshold, |h| + 1) == Observed(h, threshold, |h|) + [Saw(Up(r), r.at, threshold)]
  {
  }

  /** The configuration has observed exactly the endpoint's result rows. */
  ghost predicate SawHistory(w: World, c: nat, endpoint: nat, threshold: int, t: seq<Obs>) {
    && Watches(w, c, endpoint, threshold) && c < w.nextConfig
    && t == Observed(History(w, endpoint), threshold, |History(w, endpoint)|)
  }

  lemma {:induction false} SteadySees(w: World, e: Event, c: nat, endpoint: nat, threshold: int, t: seq<Obs>)
    requires Possible(w, e) && Steady(e, c, endpoint, threshold) && SawHistory(w, c, endpoint, threshold, t)
    ensures SawHistory(Apply(w, e), c, endpoint, threshold, t + Observation(w, e, c))
  {
    var h := History(w, endpoint);
    SteadyStep(w, e, c, endpoint, threshold);
    if e.Checked? && e.choices.failAt.None? && e.p.endpoint == endpoint {
      ObservedAppend(h, NewRow(w, e.p), threshold);
    }
    hide Observed, History, Watches, Possible, Apply, Observation;
    assert h + [] == h && t + [] == t;
  }

  lemma {:induction false} SteadyStart(w: World, events: seq<Event>, c: nat, endpoint: nat, threshold: int)
    requires Fresh(w) && Watches(w, c, endpoint, threshold) && History(w, endpoint) == []
    ensures SawHistory(After(w, events, 0), c, endpoint, threshold, Trace(w, events, 0, c))
  {
  }

  lemma {:induction false} SteadyTrace(w: World, events: seq<Event>, k: nat, c: nat, endpoint: nat, threshold: int)
    requires Fresh(w) && PossibleRun(w, events) && k <= |events|
    requires forall i :: 0 <= i < k ==> Steady(events[i], c, endpoint, threshold)
    requires Watches(w, c, endpoint, threshold) && History(w, endpoint) == []
    ensures SawHistory(After(w, events, k), c, endpoint, threshold, Trace(w, events, k, c))
  {
    hide *;
    if k == 0 {
      SteadyStart(w, events, c, endpoint, threshold);
    } else {
      LastStep(w, events, k, c);
      SteadyTrace(w, events, k - 1, c, endpoint, threshold);
      SteadySees(After(w, events, k - 1), events[k - 1], c, endpoint, threshold, Trace(w, events, k - 1, c));
    }
  }

  lemma {:induction false} HistoryIsWindow(w: World, endpoint: nat, now: Time)
    requires StrictlyOrdered(History(w, endpoint))
    requires forall r :: r in History(w, endpoint) ==> r.at >= now - WINDOW
    ensures Enumerates(History(w, endpoint), InWindow(Contents(w.results), endpoint, now))
  {
    HistoryMembers(w.results, |w.results|, endpoint);
    assert w.results[..|w.results|] == w.results;
  }

  /** A run from a fresh state throughout which the configuration watches the endpoint and loses no notice. */
  ghost predicate SteadyRun(w: World, events: seq<Event>, c: nat, endpoint: nat, threshold: int) {
    && Fresh(w) && PossibleRun(w, events)
    && Watches(w, c, endpoint, threshold) && History(w, endpoint) == []
    && (forall i :: 0 <= i < |events| ==> Steady(events[i], c, endpoint, threshold))
  }

  /** The endpoint's rows were committed in increasing order within the window, and s is a scan order of them. */
  ghost predicate Visible(w: World, endpoint: nat, now: Time, s: seq<CheckRow>) {
    && StrictlyOrdered(History(w, endpoint))
    && (forall r :: r in History(w, endpoint) ==> r.at >= now - WINDOW)
    && WindowOrder(Contents(w.results), endpoint, now, s)
  }

  lemma {:induction false} VisibleIsHistory(w: World, endpoint: nat, now: Time, s: seq<CheckRow>)
    requires Visible(w, endpoint, now, s)
    ensures s == History(w, endpoint) && StrictlyOrdered(s)
  {
    HistoryIsWindow(w, endpoint, now);
    assert Contents(History(w, endpoint)) == InWindow(Contents(w.results), endpoint, now);
    StrictOrderIsUnique(History(w, endpoint), s);
  }

  lemma {:induction false} SteadyNotices(w: World, events: seq<Event>, c: nat, endpoint: nat, threshold: int, recovered: bool)
    requires SteadyRun(w, events, c, endpoint, threshold)
    ensures var h := History(After(w, events, |events|), endpoint);
      CountFor(KeptBy(w, events, |events|), c, recovered) == Count(Notices(Observed(h, threshold, |h|), |h|), recovered)
  {
    SteadyTrace(w, events, |events|, c, endpoint, threshold);
    RunRefines(w, events, |events|, c);
    hide After, KeptBy, History, Observed, NoticesFor, Count, Notices, Trace, CellAfter, PossibleRun;
  }

  /**
    In any run of the system (other endpoints, other configurations, aborted attempts and edits
    interleaved at will), for a configuration that stays active with a constant threshold, whose
    endpoint's rows all come from checks committed in increasing order of checked_at within the
    window, and none of whose down notices is given up on: committed attempts have queued exactly
    one down alert per incident that the SQL query lists with at least threshold checks, and one
    recovery per such incident that a successful check has already followed. The threshold is any
    integer.
  */
  lemma {:induction false} KeptAgreesWithOffline(
    w: World, events: seq<Event>, c: nat, endpoint: nat, threshold: int, now: Time, s: seq<CheckRow>, recovered: bool)
    requires SteadyRun(w, events, c, endpoint, threshold) && Visible(After(w, events, |events|), endpoint, now, s)
    ensures CountFor(KeptBy(w, events, |events|), c, recovered) == CountIncidents(IncidentQuery(s), threshold, s, recovered)
  {
    hide *;
    SteadyNotices(w, events, c, endpoint, threshold, recovered);
    VisibleIsHistory(After(w, events, |events|), endpoint, now, s);
    NoticesMatchIncidents(s, threshold, recovered);
  }

  /**
    Headline, over everything the broker received: queued alerts exceed the SQL incident count by
    exactly those of aborted attempts. So online and offline agree if and only if no attempt that
    failed had already queued such an alert for the configuration.
  */
  lemma {:induction false} OnlineAgreesWithOffline(
    w: World, events: seq<Event>, c: nat, endpoint: nat, threshold: int, now: Time, s: seq<CheckRow>, recovered: bool)
    requires SteadyRun(w, events, c, endpoint, threshold) && Visible(After(w, events, |events|), endpoint, now, s)
    ensures var n := |events|;
      var queued := CountFor(After(w, events, n).broker, c, recovered) - CountFor(w.broker, c, recovered);
      var listed := CountIncidents(IncidentQuery(s), threshold, s, recovered);
      && queued == listed + CountFor(AbortedBy(w, events, n), c, recovered)
      && (queued == listed <==> QueuedNone(AbortedBy(w, events, n), c, recovered))
  {
    hide *;
    KeptAgreesWithOffline(w, events, c, endpoint, threshold, now, s, recovered);
    BrokerCounts(w, events, |events|, c, recovered);
    NoneCounted(AbortedBy(w, events, |events|), c, recovered);
  }

  /** One configuration with threshold one on an endpoint without results. */
  function Watched(endpoint: nat): World {
    World(map[0 := Config(endpoint, Email, "", 1, true)], 1, map[0 := State(0, false, None)], [], [], [])
  }

  function FailedCheck(endpoint: nat, failAt: Option<nat>): Event {
    Checked(Probe(endpoint, "", 0, None), Choices([0], None, Some(0), 0, failAt, true))
  }

  lemma {:induction false} FailedCheckAllowed(w: World, endpoint: nat, failAt: Option<nat>)
    requires w.configs == Watched(endpoint).configs && w.results == []
    ensures Possible(w, FailedCheck(endpoint, failAt))
  {
    assert AlertRows(w.configs, endpoint) == {0};
    assert ResultsFor(w.results, endpoint) == {};
  }

  /**
    The condition is needed: an attempt that fails at its commit and the retry that succeeds queue
    two down alerts for what the query lists as one incident.
  */
  lemma {:induction false} AbortDuplicatesAlert(endpoint: nat)
    ensures var w, events, s := Watched(endpoint), [FailedCheck(endpoint, Some(1)), FailedCheck(endpoint, None)], [CheckRow(0, endpoint, 0, None)];
      && SteadyRun(w, events, 0, endpoint, 1)
      && History(After(w, events, 2), endpoint) == s
      && CountFor(After(w, events, 2).broker, 0, false) == 2
      && CountIncidents(IncidentQuery(s), 1, s, false) == 1
  {
    hide *;
    TwoChecksRun(endpoint);
    TwoQueued(endpoint);
    OneIncident(endpoint);
  }

  lemma {:induction false} TwoChecksRun(endpoint: nat)
    ensures var w, events := Watched(endpoint), [FailedCheck(endpoint, Some(1)), FailedCheck(endpoint, None)];
      && SteadyRun(w, events, 0, endpoint, 1)
      && History(After(w, events, 2), endpoint) == [CheckRow(0, endpoint, 0, None)]
  {
    var w, events := Watched(endpoint), [FailedCheck(endpoint, Some(1)), FailedCheck(endpoint, None)];
    var v := Apply(w, events[0]);
    hide VisitAll;
    AbortKeepsDatabase(w, events[0].p, events[0].choices);
    FailedCheckAllowed(w, endpoint, Some(1));
    FailedCheckAllowed(v, endpoint, None);
    NoStep(w, events, 0);
    LastStep(w, events, 1, 0);
    LastStep(w, events, 2, 0);
    assert Apply(v, events[1]).results == [CheckRow(0, endpoint, 0, None)];
    OneRowHistory(Apply(v, events[1]), CheckRow(0, endpoint, 0, None));
    hide Apply, Possible, History, After, FailedCheck;
  }

  lemma {:induction false} TwoQueued(endpoint: nat)
    ensures var w, events := Watched(endpoint), [FailedCheck(endpoint, Some(1)), FailedCheck(endpoint, None)];
      CountFor(After(w, events, 2).broker, 0, false) == 2
  {
    var w, events := Watched(endpoint), [FailedCheck(endpoint, Some(1)), FailedCheck(endpoint, None)];
    var v := Apply(w, events[0]);
    AbortKeepsDatabase(w, events[0].p, events[0].choices);
    StepQueues(w, events[0]);
    StepQueues(v, events[1]);
    QueuesOne(w, endpoint, Some(1));
    QueuesOne(v, endpoint, None);
    NoStep(w, events, 0);
    LastStep(w, events, 1, 0);
    LastStep(w, events, 2, 0);
    CountForNothing(0, false);
    var a, b := Kept(w, events[0]) + Aborted(w, events[0]), Kept(v, events[1]) + Aborted(v, events[1]);
    assert v.broker == a by {
      assert w.broker == [];
    }
    assert After(w, events, 2).broker == a + b;
    CountForConcat(a, b, 0, false);
    CountForConcat(Kept(w, events[0]), Aborted(w, events[0]), 0, false);
    CountForConcat(Kept(v, events[1]), Aborted(v, events[1]), 0, false);
  }

  lemma {:induction false} OneRowHistory(w: World, row: CheckRow)
    requires w.results == [row]
    ensures History(w, row.endpoint) == [row]
  {
    assert HistoryOf(w.results, 0, row.endpoint) == [];
  }

  lemma {:induction false} OneIncident(endpoint: nat)
    ensures var s := [CheckRow(0, endpoint, 0, None)]; CountIncidents(IncidentQuery(s), 1, s, false) == 1
  {
    var s := [CheckRow(0, endpoint, 0, None)];
    var t := Observed(s, 1, 1);
    NoticesMatchIncidents(s, 1, false);
    assert CellAfter(t, 0) == FRESH && Notices(t, 0) == [];
    assert Notices(t, 1) == [Notice(false, 0)];
    CountAppend([], Notices(t, 1), false);
    assert [] + Notices(t, 1) == Notices(t, 1);
  }

  /** The first failed check of a fresh configuration queues one down alert, whether or not it commits. */
  lemma {:induction false} QueuesOne(w: World, endpoint: nat, failAt: Option<nat>)
    requires w.configs == Watched(endpoint).configs && w.states == Watched(endpoint).states && w.results == []
    requires failAt.None? || failAt == Some(1)
    ensures var e := FailedCheck(endpoint, failAt);
      CountFor(Kept(w, e), 0, false) + CountFor(Aborted(w, e), 0, false) == 1
  {
    var e := FailedCheck(endpoint, failAt);
    FailedCheckAllowed(w, endpoint, failAt);
    VisitAllEffect(w, e.p, e.choices, 1, 0);
    assert e.choices.order[0] == 0;
    assert Visited(e.choices.order, 1, 0);
    var q := [Notice(false, 0)];
    assert NoticesFor(VisitAll(w, e.p, e.choices, 1).alerts, 0) == q;
    CountAppend([], q, false);
    assert [] + q == q;
  }

  /**
    A failed probe whose row the other dispatcher stores is listed as an incident although no
    notice was ever queued, so rows of the endpoint have to come from checks with an alert pass.
  */
  lemma {:induction false} StoredRowHasNoNotice(endpoint: nat)
    ensures var w, events, s := Watched(endpoint), [Stored(endpoint, 0, None)], [CheckRow(0, endpoint, 0, None)];
      && Fresh(w) && PossibleRun(w, events) && Watches(w, 0, endpoint, 1)
      && History(After(w, events, 1), endpoint) == s
      && After(w, events, 1).broker == []
      && CountIncidents(IncidentQuery(s), 1, s, false) == 1
  {
    var w, events := Watched(endpoint), [Stored(endpoint, 0, None)];
    NoStep(w, events, 0);
    LastStep(w, events, 1, 0);
    OneRowHistory(After(w, events, 1), CheckRow(0, endpoint, 0, None));
    OneIncident(endpoint);
  }

  /** When no attempt aborts, the alerts kept are all the alerts the broker ever received. */
  lemma {:induction false} WithoutAbortsKeptIsBroker(w: World, events: seq<Event>, k: nat)
    requires k <= |events|
    requires forall i :: 0 <= i < k && events[i].Checked? ==> events[i].choices.failAt.None?
    ensures After(w, events, k).broker == w.broker + KeptBy(w, events, k)
  {
    hide *;
    if k == 0 {
      NoStep(w, events, 0);
    } else {
      WithoutAbortsKeptIsBroker(w, events, k - 1);
      LastStep(w, events, k, 0);
      StepQueues(After(w, events, k - 1), events[k - 1]);
      NoAbort(After(w, events, k - 1), events[k - 1]);
    }
  }

  lemma {:induction false} NoAbort(w: World, e: Event)
    ensures !(e.Checked? && e.choices.failAt.Some?) ==> Aborted(w, e) == []
  {
  }
}
