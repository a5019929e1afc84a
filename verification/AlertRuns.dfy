/**
  Whole runs: every interleaving of check attempts (committed or aborted), rows stored by the other
  dispatcher, delivery failures and edits of alert configurations. Each configuration's part of a
  run is exactly a run of the alert machine, so the machine's ledger, streak and notice properties
  hold of the whole system.
*/
module AlertRuns {
  import opened Common
  import opened AlertMachine
  import opened Checks

  datatype Event =
    | Checked(p: Probe, choices: Choices)
    | Exhausted(alert: Alert)
    | Added(cfg: Config)
    | Updated(config: nat, patch: AlertPatch)
    | Deleted(config: nat)
    | Stored(endpoint: nat, at: Time, code: Option<int>)

  ghost predicate Possible(w: World, e: Event) {
    e.Checked? ==> Allowed(w, e.p, e.choices)
  }

  function Apply(w: World, e: Event): World {
    match e
    case Checked(p, ch) => Attempt(w, p, ch)
    case Exhausted(a) => if a.notice.isRecovery then w else Undeliver(w, a.config)
    case Added(cfg) => AddConfig(w, cfg)
    case Updated(c, patch) => UpdateConfig(w, c, patch)
    case Deleted(c) => w.(configs := w.configs - {c}, states := w.states - {c})
    case Stored(endpoint, at, code) => StoreRow(w, endpoint, at, code)
  }

  /** Every event but a check is one call of the monitor; a check is one attempt. */
  method Perform(m: Monitor, e: Event)
    requires Possible(m.Value(), e)
    modifies m
    ensures m.Value() == Apply(old(m.Value()), e)
  {
    match e
    case Checked(p, ch) => var _ := m.PerformCheck(p, ch);
    case Exhausted(alert) => m.HandleAlertExhausted(alert);
    case Added(cfg) => var _ := m.AddAlert(cfg, true);
    case Updated(c, patch) => var _ := m.UpdateAlert(c, patch);
    case Deleted(c) => m.DeleteAlert(c);
    case Stored(endpoint, at, code) => m.InsertResult(endpoint, at, code, true);
  }

  function After(w: World, events: seq<Event>, k: nat): World
    requires k <= |events|
  {
    if k == 0 then w else Apply(After(w, events, k - 1), events[k - 1])
  }

  ghost predicate PossibleRun(w: World, events: seq<Event>) {
    forall k :: 0 <= k < |events| ==> Possible(After(w, events, k), events[k])
  }

  lemma {:induction false} NoStep(w: World, events: seq<Event>, c: nat)
    ensures After(w, events, 0) == w && Trace(w, events, 0, c) == [] && KeptBy(w, events, 0) == [] && AbortedBy(w, events, 0) == []
  {
  }

  /** The last step of a run. */
  lemma {:induction false} LastStep(w: World, events: seq<Event>, k: nat, c: nat)
    requires 0 < k <= |events|
    ensures var v, e := After(w, events, k - 1), events[k - 1];
      && After(w, events, k) == Apply(v, e)
      && Trace(w, events, k, c) == Trace(w, events, k - 1, c) + Observation(v, e, c)
      && KeptBy(w, events, k) == KeptBy(w, events, k - 1) + Kept(v, e)
      && AbortedBy(w, events, k) == AbortedBy(w, events, k - 1) + Aborted(v, e)
      && (PossibleRun(w, events) ==> Possible(v, e))
  {
  }

  /** No configuration has seen a check yet; identifiers are handed out in sequence. State rows may be missing. */
  ghost predicate Fresh(w: World) {
    && (forall c :: c in w.configs || c in w.states ==> c < w.nextConfig)
    && (forall c :: c in w.states ==> CellOf(w.states, c) == FRESH)
  }

  /* ---------- one configuration's share of a run ---------- */

  /** What an event makes configuration c observe: only committed checks of its endpoint count. */
  function Observation(w: World, e: Event, c: nat): seq<Obs> {
    match e
    case Checked(p, ch) =>
      if ch.failAt.None? && c in AlertRows(w.configs, p.endpoint) then [ObsOf(w.configs, p, c)] else []
    case Exhausted(a) =>
      if !a.notice.isRecovery && a.config == c && c in w.configs then [Undelivered] else []
    case Added(_) => []
    case Updated(_, _) => []
    case Deleted(_) => []
    case Stored(_, _, _) => []
  }

  function Trace(w: World, events: seq<Event>, k: nat, c: nat): seq<Obs>
    requires k <= |events|
  {
    if k == 0 then [] else Trace(w, events, k - 1, c) + Observation(After(w, events, k - 1), events[k - 1], c)
  }

  /** The alerts queued by attempts that went on to commit. */
  function Kept(w: World, e: Event): seq<Alert> {
    if e.Checked? && e.choices.failAt.None? then VisitAll(w, e.p, e.choices, |e.choices.order|).alerts else []
  }

  function KeptBy(w: World, events: seq<Event>, k: nat): seq<Alert>
    requires k <= |events|
  {
    if k == 0 then [] else KeptBy(w, events, k - 1) + Kept(After(w, events, k - 1), events[k - 1])
  }

  /** The alerts queued by attempts that then failed: they stay in the broker although nothing was stored. */
  function Aborted(w: World, e: Event): seq<Alert> {
    if e.Checked? && e.choices.failAt.Some?
    then VisitAll(w, e.p, e.choices, Min(e.choices.failAt.value, |e.choices.order|)).alerts else []
  }

  function AbortedBy(w: World, events: seq<Event>, k: nat): seq<Alert>
    requires k <= |events|
  {
    if k == 0 then [] else AbortedBy(w, events, k - 1) + Aborted(After(w, events, k - 1), events[k - 1])
  }

  /** The notices of configuration c within a list of alerts. */
  function NoticesFor(alerts: seq<Alert>, c: nat): seq<Notice> {
    if alerts == [] then [] else
      var last := alerts[|alerts| - 1];
      NoticesFor(alerts[..|alerts| - 1], c) + if last.config == c then [last.notice] else []
  }

  lemma {:induction false} NoticesForConcat(a: seq<Alert>, b: seq<Alert>, c: nat)
    ensures NoticesFor(a + b, c) == NoticesFor(a, c) + NoticesFor(b, c)
  {
    if b == [] {
      assert a + b == a;
    } else {
      assert (a + b)[..|a + b| - 1] == a + b[..|b| - 1];
      NoticesForConcat(a, b[..|b| - 1], c);
    }
  }

  /* ---------- one pass over the alert rows ---------- */

  /** One visit moves the visited configuration's machine by one step and leaves all others alone. */
  lemma {:induction false} VisitEffect(configs: map<nat, Config>, p: Probe, now: Time, pass: Pass, d: nat, c: nat)
    requires d in configs
    ensures var after, cell := Visit(configs, p, now, pass, d), CellOf(pass.states, c);
      && CellOf(after.states, c) == (if c == d then Next(cell, ObsOf(configs, p, c)) else cell)
      && NoticesFor(after.alerts, c) == NoticesFor(pass.alerts, c) + (if c == d then Queued(cell, ObsOf(configs, p, c)) else [])
  {
  }

  ghost predicate Visited(order: seq<nat>, n: nat, c: nat) {
    exists i :: 0 <= i < n && i < |order| && order[i] == c
  }

  lemma {:induction false} VisitedAreRows(order: seq<nat>, ids: set<nat>, c: nat)
    requires Lists(order, ids)
    ensures Visited(order, |order|, c) <==> c in ids
  {
  }

  lemma {:induction false} VisitAllEffect(w: World, p: Probe, ch: Choices, n: nat, c: nat)
    requires n <= |ch.order| && Lists(ch.order, AlertRows(w.configs, p.endpoint))
    ensures var pass, cell := VisitAll(w, p, ch, n), CellOf(w.states, c);
      if Visited(ch.order, n, c)
      then c in w.configs && CellOf(pass.states, c) == Next(cell, ObsOf(w.configs, p, c))
           && NoticesFor(pass.alerts, c) == Queued(cell, ObsOf(w.configs, p, c))
      else CellOf(pass.states, c) == cell && NoticesFor(pass.alerts, c) == []
  {
    hide Visit, VisitAll, Next, Queued, NoticesFor, AlertRows, CellOf, ObsOf;
    if n == 0 {
      NoVisit(w, p, ch, c);
    } else {
      var d := ch.order[n - 1];
      VisitAllEffect(w, p, ch, n - 1, c);
      LastVisit(w, p, ch, n);
      VisitEffect(w.configs, p, ch.now, VisitAll(w, p, ch, n - 1), d, c);
      if c == d {
        assert Visited(ch.order, n, c) && !Visited(ch.order, n - 1, c);
      } else {
        assert Visited(ch.order, n, c) <==> Visited(ch.order, n - 1, c);
      }
    }
  }

  lemma {:induction false} NoVisit(w: World, p: Probe, ch: Choices, c: nat)
    ensures VisitAll(w, p, ch, 0).states == w.states && NoticesFor(VisitAll(w, p, ch, 0).alerts, c) == []
  {
  }

  lemma {:induction false} LastVisit(w: World, p: Probe, ch: Choices, n: nat)
    requires 0 < n <= |ch.order| && Lists(ch.order, AlertRows(w.configs, p.endpoint))
    ensures VisitAll(w, p, ch, n) == Visit(w.configs, p, ch.now, VisitAll(w, p, ch, n - 1), ch.order[n - 1])
    ensures ch.order[n - 1] in w.configs
  {
    assert ch.order[n - 1] in ch.order;
    hide Visit;
  }

  /* ---------- refinement ---------- */

  /** The state rows and the kept alerts of every configuration are those of its own machine run. */
  ghost predicate Refines(w: World, kept: seq<Alert>, c: nat, t: seq<Obs>) {
    && (c in w.configs ==> CellOf(w.states, c) == CellAfter(t, |t|))
    && NoticesFor(kept, c) == Notices(t, |t|)
    && (c >= w.nextConfig ==> t == [] && c !in w.configs && c !in w.states)
  }

  lemma {:induction false} ExtendTrace(t: seq<Obs>, o: Obs)
    ensures CellAfter(t + [o], |t| + 1) == Next(CellAfter(t, |t|), o)
    ensures Notices(t + [o], |t| + 1) == Notices(t, |t|) + Queued(CellAfter(t, |t|), o)
  {
    PrefixDecides(t, t + [o], |t|);
  }

  /** What one event does to configuration c: at most one step of its machine, and the notice that goes with it. */
  ghost predicate Moves(w: World, v: World, more: seq<Alert>, c: nat, o: seq<Obs>) {
    && |o| <= 1
    && (o != [] ==> c in w.configs && CellOf(v.states, c) == Next(CellOf(w.states, c), o[0]))
    && (o == [] && c in w.configs ==> CellOf(v.states, c) == CellOf(w.states, c))
    && NoticesFor(more, c) == (if o != [] then Queued(CellOf(w.states, c), o[0]) else [])
    && v.configs == w.configs && v.nextConfig == w.nextConfig
    && (c in v.states ==> c in w.states || c in w.configs)
  }

  lemma {:induction false} CheckMoves(w: World, p: Probe, ch: Choices, c: nat)
    requires Allowed(w, p, ch) && ch.failAt.None?
    ensures Moves(w, Attempt(w, p, ch), Kept(w, Checked(p, ch)), c, Observation(w, Checked(p, ch), c))
  {
    VisitAllEffect(w, p, ch, |ch.order|, c);
    VisitAllKeys(w, p, ch, |ch.order|);
    VisitedAreRows(ch.order, AlertRows(w.configs, p.endpoint), c);
    hide Visit, VisitAll, Next, Queued, NoticesFor, AlertRows, Visited, ObsOf, Lists;
  }

  lemma {:induction false} MovesRefine(w: World, v: World, kept: seq<Alert>, more: seq<Alert>, c: nat, t: seq<Obs>, o: seq<Obs>)
    requires Refines(w, kept, c, t) && Moves(w, v, more, c, o)
    ensures Refines(v, kept + more, c, t + o)
  {
    NoticesForConcat(kept, more, c);
    hide NoticesFor, CellAfter, Notices, Next, Queued, CellOf;
    if o != [] {
      assert o == [o[0]];
      ExtendTrace(t, o[0]);
    } else {
      assert t + [] == t && Notices(t, |t|) + [] == Notices(t, |t|);
    }
  }

  lemma {:induction false} CheckRefines(w: World, p: Probe, ch: Choices, kept: seq<Alert>, c: nat, t: seq<Obs>)
    requires Allowed(w, p, ch) && ch.failAt.None? && Refines(w, kept, c, t)
    ensures Refines(Attempt(w, p, ch), kept + Kept(w, Checked(p, ch)), c, t + Observation(w, Checked(p, ch), c))
  {
    hide *;
    CheckMoves(w, p, ch, c);
    MovesRefine(w, Attempt(w, p, ch), kept, Kept(w, Checked(p, ch)), c, t, Observation(w, Checked(p, ch), c));
  }

  lemma {:induction false} VisitAllKeys(w: World, p: Probe, ch: Choices, n: nat)
    requires n <= |ch.order|
    ensures VisitAll(w, p, ch, n).states.Keys <= w.states.Keys + w.configs.Keys
  {
    if n > 0 {
      VisitAllKeys(w, p, ch, n - 1);
    }
  }

  lemma {:induction false} StepRefines(w: World, e: Event, kept: seq<Alert>, c: nat, t: seq<Obs>)
    requires Possible(w, e) && Refines(w, kept, c, t)
    ensures Refines(Apply(w, e), kept + Kept(w, e), c, t + Observation(w, e, c))
  {
    hide *;
    if e.Checked? && e.choices.failAt.None? {
      CommittedIsAllowed(w, e);
      CheckRefines(w, e.p, e.choices, kept, c, t);
    } else if e.Exhausted? && Observation(w, e, c) != [] {
      ResetRefines(w, e, kept, c, t);
    } else {
      QuietRefines(w, e, kept, c, t);
    }
  }

  lemma {:induction false} CommittedIsAllowed(w: World, e: Event)
    requires Possible(w, e) && e.Checked?
    ensures Allowed(w, e.p, e.choices) && Apply(w, e) == Attempt(w, e.p, e.choices)
  {
  }

  /** A down notice that is given up on is one step of its configuration's machine. */
  lemma {:induction false} ResetRefines(w: World, e: Event, kept: seq<Alert>, c: nat, t: seq<Obs>)
    requires Refines(w, kept, c, t) && e.Exhausted? && Observation(w, e, c) != []
    ensures Refines(Apply(w, e), kept + Kept(w, e), c, t + Observation(w, e, c))
  {
    assert kept + [] == kept;
    ExtendTrace(t, Undelivered);
    hide NoticesFor, CellAfter, Notices;
    assert Notices(t, |t|) + [] == Notices(t, |t|);
  }

  /** Everything else that c does not observe leaves its state and its kept alerts alone. */
  lemma {:induction false} QuietRefines(w: World, e: Event, kept: seq<Alert>, c: nat, t: seq<Obs>)
    requires Refines(w, kept, c, t) && !(e.Checked? && e.choices.failAt.None?) && !(e.Exhausted? && Observation(w, e, c) != [])
    ensures Refines(Apply(w, e), kept + Kept(w, e), c, t + Observation(w, e, c))
  {
    assert kept + [] == kept && t + [] == t;
    hide NoticesFor, CellAfter, Notices, VisitAll;
  }

  /**
    Main result: in every run, whatever is interleaved, each configuration's streak, its flag and its
    notices from committed checks are exactly those of the alert machine run on what that
    configuration observed.
  */
  lemma {:induction false} RunRefines(w: World, events: seq<Event>, k: nat, c: nat)
    requires Fresh(w) && PossibleRun(w, events) && k <= |events|
    ensures Refines(After(w, events, k), KeptBy(w, events, k), c, Trace(w, events, k, c))
  {
    if k > 0 {
      LastStep(w, events, k, c);
      hide *;
      RunRefines(w, events, k - 1, c);
      StepRefines(After(w, events, k - 1), events[k - 1], KeptBy(w, events, k - 1), c, Trace(w, events, k - 1, c));
    }
  }

  /** The streak counter and flag of every configuration in every reachable state. */
  lemma {:induction false} RunStreak(w: World, events: seq<Event>, k: nat, c: nat)
    requires Fresh(w) && PossibleRun(w, events) && k <= |events|
    requires c in After(w, events, k).configs
    ensures var t, cell := Trace(w, events, k, c), CellOf(After(w, events, k).states, c);
      && cell.streak == FailuresIn(t, SinceUp(t, |t|), |t|)
      && (cell.sent ==> cell.streak >= 1)
      && (t != [] && t[|t| - 1].Saw? && !t[|t| - 1].up ==> cell.sent || cell.streak < t[|t| - 1].threshold)
  {
    RunRefines(w, events, k, c);
    var t := Trace(w, events, k, c);
    StreakMeaning(t, |t|);
  }

  /** An event that is not about configuration c leaves its state row and its notices alone. */
  lemma {:induction false} Isolation(w: World, e: Event, c: nat)
    requires Possible(w, e) && c in w.configs && c < w.nextConfig && Observation(w, e, c) == [] && e != Deleted(c)
    ensures c in Apply(w, e).configs && CellOf(Apply(w, e).states, c) == CellOf(w.states, c)
    ensures NoticesFor(Kept(w, e), c) == []
    ensures !e.Updated? || e.config != c ==> Apply(w, e).configs[c] == w.configs[c]
  {
    if e.Checked? && e.choices.failAt.None? {
      VisitAllEffect(w, e.p, e.choices, |e.choices.order|, c);
      VisitedAreRows(e.choices.order, AlertRows(w.configs, e.p.endpoint), c);
    }
  }

  /* ---------- aborted attempts ---------- */

  /** An attempt that fails leaves the database and the publish channel untouched; alerts it queued stay queued. */
  lemma {:induction false} AbortKeepsDatabase(w: World, p: Probe, ch: Choices)
    requires ch.failAt.Some?
    ensures var w' := Attempt(w, p, ch);
      w'.configs == w.configs && w'.states == w.states && w'.results == w.results && w'.published == w.published
      && w.broker <= w'.broker
  {
  }

  /** The broker holds the alerts of committed attempts, those of aborted attempts, and nothing else. */
  lemma {:induction false} BrokerSplits(w: World, events: seq<Event>, k: nat)
    requires k <= |events|
    ensures multiset(After(w, events, k).broker) ==
      multiset(w.broker) + multiset(KeptBy(w, events, k)) + multiset(AbortedBy(w, events, k))
  {
    hide *;
    if k == 0 {
      NoStep(w, events, 0);
    } else {
      LastStep(w, events, k, 0);
      BrokerSplits(w, events, k - 1);
      StepQueues(After(w, events, k - 1), events[k - 1]);
    }
  }

  /** One of the two lists is empty. */
  lemma {:induction false} StepQueues(w: World, e: Event)
    ensures Apply(w, e).broker == w.broker + Kept(w, e) + Aborted(w, e)
  {
    hide VisitAll;
  }

  function CountFor(alerts: seq<Alert>, c: nat, isRecovery: bool): nat {
    Count(NoticesFor(alerts, c), isRecovery)
  }

  lemma {:induction false} CountForConcat(a: seq<Alert>, b: seq<Alert>, c: nat, isRecovery: bool)
    ensures CountFor(a + b, c, isRecovery) == CountFor(a, c, isRecovery) + CountFor(b, c, isRecovery)
  {
    NoticesForConcat(a, b, c);
    CountConcat(NoticesFor(a, c), NoticesFor(b, c), isRecovery);
  }

  lemma {:induction false} BrokerCounts(w: World, events: seq<Event>, k: nat, c: nat, isRecovery: bool)
    requires k <= |events|
    ensures CountFor(After(w, events, k).broker, c, isRecovery) ==
      CountFor(w.broker, c, isRecovery) + CountFor(KeptBy(w, events, k), c, isRecovery) + CountFor(AbortedBy(w, events, k), c, isRecovery)
  {
    hide *;
    if k == 0 {
      NoStep(w, events, c);
      CountForNothing(c, isRecovery);
    } else {
      var v, e := After(w, events, k - 1), events[k - 1];
      BrokerCounts(w, events, k - 1, c, isRecovery);
      LastStep(w, events, k, c);
      StepQueues(v, e);
      CountForConcat(v.broker + Kept(v, e), Aborted(v, e), c, isRecovery);
      CountForConcat(v.broker, Kept(v, e), c, isRecovery);
      CountForConcat(KeptBy(w, events, k - 1), Kept(v, e), c, isRecovery);
      CountForConcat(AbortedBy(w, events, k - 1), Aborted(v, e), c, isRecovery);
    }
  }

  lemma {:induction false} CountForNothing(c: nat, isRecovery: bool)
    ensures CountFor([], c, isRecovery) == 0
  {
  }

  /**
    An attempt that fails has queued a notice for c exactly when it visited c before the failure and
    c's machine had one to queue.
  */
  lemma {:induction false} AbortQueues(w: World, p: Probe, ch: Choices, c: nat)
    requires Allowed(w, p, ch) && ch.failAt.Some?
    ensures NoticesFor(Aborted(w, Checked(p, ch)), c) ==
      if Visited(ch.order, Min(ch.failAt.value, |ch.order|), c) && c in w.configs
      then Queued(CellOf(w.states, c), ObsOf(w.configs, p, c)) else []
  {
    VisitAllEffect(w, p, ch, Min(ch.failAt.value, |ch.order|), c);
  }

  ghost predicate QueuedNone(alerts: seq<Alert>, c: nat, isRecovery: bool) {
    forall a :: a in alerts ==> !(a.config == c && a.notice.isRecovery == isRecovery)
  }

  lemma {:induction false} NoneCounted(alerts: seq<Alert>, c: nat, isRecovery: bool)
    ensures CountFor(alerts, c, isRecovery) == 0 <==> QueuedNone(alerts, c, isRecovery)
  {
    if alerts != [] {
      var n := |alerts| - 1;
      assert alerts == alerts[..n] + [alerts[n]];
      NoneCounted(alerts[..n], c, isRecovery);
      CountForConcat(alerts[..n], [alerts[n]], c, isRecovery);
      OneCounted(alerts[n], c, isRecovery);
      hide CountFor;
    }
  }

  lemma {:induction false} OneCounted(a: Alert, c: nat, isRecovery: bool)
    ensures CountFor([a], c, isRecovery) == if a.config == c && a.notice.isRecovery == isRecovery then 1 else 0
  {
    assert NoticesFor([a], c) == if a.config == c then [a.notice] else [];
    CountAppend([], NoticesFor([a], c), isRecovery);
    assert [] + NoticesFor([a], c) == NoticesFor([a], c);
  }

  /**
    The ledger of every configuration in every reachable state, over the alerts of committed
    attempts.
  */
  lemma {:induction false} RunLedger(w: World, events: seq<Event>, k: nat, c: nat)
    requires Fresh(w) && PossibleRun(w, events) && k <= |events|
    requires c in After(w, events, k).configs
    ensures var t, n := Trace(w, events, k, c), NoticesFor(KeptBy(w, events, k), c);
      && Count(n, false) == Count(n, true) + Resets(t, |t|) + (if CellOf(After(w, events, k).states, c).sent then 1 else 0)
      && RecoveriesAnswerDowns(n)
  {
    RunRefines(w, events, k, c);
    var t := Trace(w, events, k, c);
    Ledger(t, |t|);
    RecoveriesFollowDowns(t, |t|);
  }

  /**
    The ledger over everything the broker received during the run: the alerts of aborted attempts,
    which no stored state accounts for, are the only difference.
  */
  lemma {:induction false} BrokerLedger(w: World, events: seq<Event>, k: nat, c: nat)
    requires Fresh(w) && PossibleRun(w, events) && k <= |events|
    requires c in After(w, events, k).configs
    ensures var v, aborted, t := After(w, events, k), AbortedBy(w, events, k), Trace(w, events, k, c);
      CountFor(v.broker, c, false) - CountFor(w.broker, c, false) - CountFor(aborted, c, false) ==
      CountFor(v.broker, c, true) - CountFor(w.broker, c, true) - CountFor(aborted, c, true)
      + Resets(t, |t|) + if CellOf(v.states, c).sent then 1 else 0
  {
    RunLedger(w, events, k, c);
    BrokerCounts(w, events, k, c, false);
    BrokerCounts(w, events, k, c, true);
    hide After, AbortedBy, Trace, NoticesFor, Count, Resets, KeptBy;
  }

  /**
    A committed attempt flips a flag from false to true exactly when it queues a down alert for
    that configuration, and from true to false exactly when it queues a recovery.
  */
  lemma {:induction false} FlipsAreQueued(w: World, p: Probe, ch: Choices, c: nat)
    requires Allowed(w, p, ch) && ch.failAt.None?
    ensures var before, after := CellOf(w.states, c).sent, CellOf(Attempt(w, p, ch).states, c).sent;
      var n := NoticesFor(Kept(w, Checked(p, ch)), c);
      && (!before && after <==> n == [Notice(false, p.at)])
      && (before && !after <==> n == [Notice(true, p.at)])
      && (before == after <==> n == [])
  {
    VisitAllEffect(w, p, ch, |ch.order|, c);
  }

  /** The task runner may execute a check four times; at most one execution leaves a row, and it is the last one. */
  lemma {:induction false} TaskPersistsOnce(w: World, p: Probe, tries: seq<Try>, i: nat)
    requires i <= MAX_RETRIES < |tries|
    ensures var w' := Task(w, p, tries, i);
      && w'.configs == w.configs
      && w.broker <= w'.broker
      && ((w'.results == w.results && w'.states == w.states && w'.published == w.published)
          || exists j :: i <= j <= MAX_RETRIES && tries[j].choices.failAt.None?
               && w'.results == w.results + [NewRow(w, p.(code := tries[j].code))]
               && w'.states == VisitAll(w, p.(code := tries[j].code), tries[j].choices, |tries[j].choices.order|).states)
    decreases MAX_RETRIES - i
  {
    var t := tries[i];
    var w' := Attempt(w, p.(code := t.code), t.choices);
    if t.choices.failAt.Some? && t.operational && i < MAX_RETRIES {
      TaskPersistsOnce(w', p, tries, i + 1);
      if Task(w, p, tries, i).results != w.results {
        var j :| i + 1 <= j <= MAX_RETRIES && tries[j].choices.failAt.None?
          && Task(w', p, tries, i + 1).results == w'.results + [NewRow(w', p.(code := tries[j].code))]
          && Task(w', p, tries, i + 1).states == VisitAll(w', p.(code := tries[j].code), tries[j].choices, |tries[j].choices.order|).states;
        SameVisits(w, w', p.(code := tries[j].code), tries[j].choices, |tries[j].choices.order|);
      }
    }
  }

  lemma {:induction false} SameVisits(w: World, v: World, p: Probe, ch: Choices, n: nat)
    requires n <= |ch.order| && w.configs == v.configs && w.states == v.states
    ensures VisitAll(w, p, ch, n) == VisitAll(v, p, ch, n)
  {
    if n > 0 {
      SameVisits(w, v, p, ch, n - 1);
    }
  }

  /** All that the task's attempts i to j queue: they start from the same state as long as none commits. */
  function AlertsOf(w: World, p: Probe, tries: seq<Try>, i: nat, j: nat): seq<Alert>
    requires i <= j < |tries|
    decreases j - i
  {
    var t := tries[i];
    var n := if t.choices.failAt.Some? then Min(t.choices.failAt.value, |t.choices.order|) else |t.choices.order|;
    VisitAll(w, p.(code := t.code), t.choices, n).alerts + if i == j then [] else AlertsOf(w, p, tries, i + 1, j)
  }

  /** Attempt j is the last: all before it failed operationally, and it commits, fails otherwise, or is the fourth. */
  ghost predicate EndsAt(tries: seq<Try>, i: nat, j: nat) {
    && i <= j <= 3 && j < |tries|
    && (forall k :: i <= k < j ==> tries[k].choices.failAt.Some? && tries[k].operational)
    && (tries[j].choices.failAt.None? || !tries[j].operational || j == 3)
  }

  /**
    A task probes again after each operational failure, up to three times, and stops there: its row
    is that of the last attempt if that one commits, and the broker holds what all attempts queued.
  */
  lemma {:induction false} TaskEnds(w: World, p: Probe, tries: seq<Try>, i: nat, j: nat)
    requires i <= MAX_RETRIES < |tries| && EndsAt(tries, i, j)
    ensures var v, t := Task(w, p, tries, i), tries[j];
      && v.broker == w.broker + AlertsOf(w, p, tries, i, j)
      && (t.choices.failAt.Some? ==> v.results == w.results && v.states == w.states && v.published == w.published)
      && (t.choices.failAt.None? ==> v.results == w.results + [CheckRow(|w.results|, p.endpoint, p.at, t.code)])
    decreases j - i
  {
    hide VisitAll;
    if i < j {
      var v := Attempt(w, p.(code := tries[i].code), tries[i].choices);
      TaskEnds(v, p, tries, i + 1, j);
      SameAlerts(w, v, p, tries, i + 1, j);
    }
  }

  lemma {:induction false} SameAlerts(w: World, v: World, p: Probe, tries: seq<Try>, i: nat, j: nat)
    requires i <= j < |tries| && w.configs == v.configs && w.states == v.states
    ensures AlertsOf(w, p, tries, i, j) == AlertsOf(v, p, tries, i, j)
    decreases j - i
  {
    var t := tries[i];
    SameVisits(w, v, p.(code := t.code), t.choices, if t.choices.failAt.Some? then Min(t.choices.failAt.value, |t.choices.order|) else |t.choices.order|);
    hide VisitAll;
    if i < j {
      SameAlerts(w, v, p, tries, i + 1, j);
    }
  }

  /* ---------- recipients ---------- */

  /** Event i queued the alert, to the channel and target that its configuration had at that moment. */
  ghost predicate QueuedBy(w: World, events: seq<Event>, i: nat, a: Alert, committed: bool)
    requires i < |events|
  {
    && events[i].Checked? && (events[i].choices.failAt.None? <==> committed)
    && Addressed(a, After(w, events, i).configs, events[i].p)
  }

  ghost predicate AllQueued(w: World, events: seq<Event>, k: nat, alerts: seq<Alert>, committed: bool) {
    k <= |events| && forall a :: a in alerts ==> exists i :: 0 <= i < k && QueuedBy(w, events, i, a, committed)
  }

  lemma {:induction false} MoreQueued(w: World, events: seq<Event>, k: nat, alerts: seq<Alert>, more: seq<Alert>, committed: bool)
    requires 0 < k <= |events| && AllQueued(w, events, k - 1, alerts, committed)
    requires forall a :: a in more ==> QueuedBy(w, events, k - 1, a, committed)
    ensures AllQueued(w, events, k, alerts + more, committed)
  {
    hide QueuedBy;
    forall a | a in alerts + more ensures exists i :: 0 <= i < k && QueuedBy(w, events, i, a, committed) {
      if a in alerts {
        var i :| 0 <= i < k - 1 && QueuedBy(w, events, i, a, committed);
      }
    }
  }

  lemma {:induction false} StepAddresses(w: World, events: seq<Event>, i: nat, a: Alert)
    requires i < |events| && Possible(After(w, events, i), events[i])
    ensures a in Kept(After(w, events, i), events[i]) ==> QueuedBy(w, events, i, a, true)
    ensures a in Aborted(After(w, events, i), events[i]) ==> QueuedBy(w, events, i, a, false)
  {
    var v, e := After(w, events, i), events[i];
    hide VisitAll, After, Addressed;
    if e.Checked? {
      var n := if e.choices.failAt.Some? then Min(e.choices.failAt.value, |e.choices.order|) else |e.choices.order|;
      VisitAllAddressed(v, e.p, e.choices, n);
    }
  }

  /**
    Every alert queued in a run, by a committed or by an aborted attempt, went to the channel and
    target that its configuration had when the check ran, was active for the checked endpoint, and
    carries that check's endpoint, URL, timestamp and health.
  */
  lemma {:induction false} AlertsAreAddressed(w: World, events: seq<Event>, k: nat)
    requires PossibleRun(w, events) && k <= |events|
    ensures AllQueued(w, events, k, KeptBy(w, events, k), true)
    ensures AllQueued(w, events, k, AbortedBy(w, events, k), false)
  {
    hide *;
    if k == 0 {
      NoStep(w, events, 0);
      NoneQueued(w, events, true);
      NoneQueued(w, events, false);
    } else {
      var v, e := After(w, events, k - 1), events[k - 1];
      AlertsAreAddressed(w, events, k - 1);
      LastStep(w, events, k, 0);
      forall a ensures a in Kept(v, e) ==> QueuedBy(w, events, k - 1, a, true) {
        StepAddresses(w, events, k - 1, a);
      }
      forall a ensures a in Aborted(v, e) ==> QueuedBy(w, events, k - 1, a, false) {
        StepAddresses(w, events, k - 1, a);
      }
      MoreQueued(w, events, k, KeptBy(w, events, k - 1), Kept(v, e), true);
      MoreQueued(w, events, k, AbortedBy(w, events, k - 1), Aborted(v, e), false);
    }
  }

  lemma {:induction false} NoneQueued(w: World, events: seq<Event>, committed: bool)
    ensures AllQueued(w, events, 0, [], committed)
  {
  }

  function LastAlert(states: map<nat, State>, c: nat): Option<Time> {
    if c in states then states[c].lastAlertAt else None
  }

  lemma {:induction false} VisitStamps(configs: map<nat, Config>, p: Probe, now: Time, pass: Pass, d: nat, c: nat)
    requires d in configs
    ensures LastAlert(Visit(configs, p, now, pass, d).states, c) ==
      if c == d && Queued(CellOf(pass.states, c), ObsOf(configs, p, c)) == [Notice(false, p.at)] then Some(now)
      else LastAlert(pass.states, c)
  {
  }

  /** last_alert_at is the clock of the check that queued the configuration's newest down alert. */
  lemma {:induction false} AlertTimeIsKept(w: World, p: Probe, ch: Choices, n: nat, c: nat)
    requires n <= |ch.order| && Lists(ch.order, AlertRows(w.configs, p.endpoint))
    ensures var pass := VisitAll(w, p, ch, n);
      LastAlert(pass.states, c) ==
        if NoticesFor(pass.alerts, c) == [Notice(false, p.at)] then Some(ch.now) else LastAlert(w.states, c)
  {
    hide Visit, VisitAll, Next, Queued, NoticesFor, AlertRows, CellOf, ObsOf, LastAlert, Lists;
    if n == 0 {
      NoVisit(w, p, ch, c);
    } else {
      var d := ch.order[n - 1];
      AlertTimeIsKept(w, p, ch, n - 1, c);
      VisitAllEffect(w, p, ch, n - 1, c);
      VisitAllEffect(w, p, ch, n, c);
      LastVisit(w, p, ch, n);
      VisitStamps(w.configs, p, ch.now, VisitAll(w, p, ch, n - 1), d, c);
      OncePerPass(ch.order, AlertRows(w.configs, p.endpoint), n, c);
    }
  }

  lemma {:induction false} OncePerPass(order: seq<nat>, rows: set<nat>, n: nat, c: nat)
    requires 0 < n <= |order| && Lists(order, rows)
    ensures Visited(order, n, c) <==> Visited(order, n - 1, c) || c == order[n - 1]
    ensures c == order[n - 1] ==> !Visited(order, n - 1, c)
  {
    if c == order[n - 1] {
      assert Visited(order, n, c);
    }
  }

  /** A pause, a new channel and a new target take effect with the next check. */
  lemma {:induction false} EditsTakeEffect(w: World, c: nat, patch: AlertPatch, p: Probe, ch: Choices, a: Alert)
    requires c in w.configs && Allowed(UpdateConfig(w, c, patch), p, ch)
    requires a in VisitAll(UpdateConfig(w, c, patch), p, ch, |ch.order|).alerts && a.config == c
    ensures patch.active != Some(false) && (patch.active.None? ==> w.configs[c].active)
    ensures a.target == if patch.target.Some? then patch.target.value else w.configs[c].target
    ensures a.channel == if patch.channel.Some? then patch.channel.value else w.configs[c].channel
  {
    VisitAllAddressed(UpdateConfig(w, c, patch), p, ch, |ch.order|);
    hide VisitAll;
  }

  /* ---------- publishing ---------- */

  predicate Describes(m: Message, r: CheckRow) {
    m.endpoint == r.endpoint && m.at == r.at && m.code == r.code && m.up == Up(r)
  }

  ghost predicate PublishedAreCommitted(w: World) {
    forall m :: m in w.published ==> exists r :: r in w.results && Describes(m, r)
  }

  /** Nothing is ever published that the database does not hold, aborted attempts included. */
  lemma {:induction false} OnlyCommittedIsPublished(w: World, events: seq<Event>, k: nat)
    requires PublishedAreCommitted(w) && k <= |events|
    ensures PublishedAreCommitted(After(w, events, k))
  {
    if k > 0 {
      OnlyCommittedIsPublished(w, events, k - 1);
      var v, v' := After(w, events, k - 1), After(w, events, k);
      forall m | m in v'.published ensures exists r :: r in v'.results && Describes(m, r) {
        if m in v.published {
          var r :| r in v.results && Describes(m, r);
          assert r in v'.results;
        } else {
          var r := NewRow(v, events[k - 1].p);
          assert v'.results[|v.results|] == r;
          assert r in v'.results && Describes(m, r);
        }
      }
    }
  }
}
