/**
  perform_check and the writers of the alert tables, as steps over one database, one message
  broker and one publish channel.

  Transactions are serialised. What the database, the broker and the network decide (row order,
  ties, failures, delivery) arrives as a parameter.
*/
module Checks {
  import opened Common
  import opened AlertMachine

  datatype Channel = Email | Webhook

  /** A row of alertconfig. */
  datatype Config = Config(endpoint: nat, channel: Channel, target: string, threshold: int, active: bool)

  /** A row of alertstate. */
  datatype State = State(streak: nat, sent: bool, lastAlertAt: Option<Time>)

  /** A task queued for the mail or webhook sender. */
  datatype Alert = Alert(config: nat, channel: Channel, target: string, endpoint: nat, url: string, notice: Notice)

  /** A status change on the publish channel. */
  datatype Message = Message(endpoint: nat, owner: nat, code: Option<int>, at: Time, up: bool)

  datatype World = World(
    configs: map<nat, Config>, nextConfig: nat, states: map<nat, State>,
    results: seq<CheckRow>, broker: seq<Alert>, published: seq<Message>)

  /** One execution of a check: what was probed, when it was due, and what came back. */
  datatype Probe = Probe(endpoint: nat, url: string, at: Time, code: Option<int>)

  /**
    Everything around the check that the code does not decide: the order in which the database
    returns the alert rows, the latest earlier result, the owner, the clock, the alert row before
    which the transaction fails (any number past the last row: the commit fails), and whether the
    publish call gets through.
  */
  datatype Choices = Choices(
    order: seq<nat>, prev: Option<CheckRow>, owner: Option<nat>, now: Time, failAt: Option<nat>, publishOk: bool)

  function CellOf(states: map<nat, State>, c: nat): Cell {
    if c in states then Cell(states[c].streak, states[c].sent) else FRESH
  }

  /** The active configurations of an endpoint. */
  function AlertRows(configs: map<nat, Config>, endpoint: nat): set<nat> {
    set c | c in configs && configs[c].endpoint == endpoint && configs[c].active
  }

  ghost predicate Lists(order: seq<nat>, ids: set<nat>) {
    && (forall c :: c in order <==> c in ids)
    && (forall i, j :: 0 <= i < j < |order| ==> order[i] != order[j])
  }

  ghost function ResultsFor(results: seq<CheckRow>, endpoint: nat): set<CheckRow> {
    set r | r in results && r.endpoint == endpoint
  }

  ghost predicate Allowed(w: World, p: Probe, ch: Choices) {
    Lists(ch.order, AlertRows(w.configs, p.endpoint)) && IsLatest(ResultsFor(w.results, p.endpoint), ch.prev)
  }

  /* ---------- specification of one attempt ---------- */

  datatype Pass = Pass(states: map<nat, State>, alerts: seq<Alert>)

  function ObsOf(configs: map<nat, Config>, p: Probe, c: nat): Obs
    requires c in configs
  {
    Saw(UpFor(p.code), p.at, configs[c].threshold)
  }

  function Visit(configs: map<nat, Config>, p: Probe, now: Time, pass: Pass, c: nat): Pass {
    if c !in configs then pass else
      var cell, o := CellOf(pass.states, c), ObsOf(configs, p, c);
      var next, q := Next(cell, o), Queued(cell, o);
      var last := if q != [] && !q[0].isRecovery then Some(now)
                  else if c in pass.states then pass.states[c].lastAlertAt else None;
      Pass(pass.states[c := State(next.streak, next.sent, last)],
           if q == [] then pass.alerts
           else pass.alerts + [Alert(c, configs[c].channel, configs[c].target, p.endpoint, p.url, q[0])])
  }

  /** The session's pending changes and the queued alerts after the first n alert rows. */
  function VisitAll(w: World, p: Probe, ch: Choices, n: nat): Pass
    requires n <= |ch.order|
  {
    if n == 0 then Pass(w.states, []) else Visit(w.configs, p, ch.now, VisitAll(w, p, ch, n - 1), ch.order[n - 1])
  }

  /** An alert goes to the channel and target of its active configuration and reports this check. */
  predicate Addressed(a: Alert, configs: map<nat, Config>, p: Probe) {
    && a.config in configs
    && configs[a.config].endpoint == p.endpoint && configs[a.config].active
    && a.channel == configs[a.config].channel && a.target == configs[a.config].target
    && a.endpoint == p.endpoint && a.url == p.url
    && a.notice == Notice(UpFor(p.code), p.at)
  }

  ghost predicate AllAddressed(alerts: seq<Alert>, configs: map<nat, Config>, p: Probe) {
    forall i :: 0 <= i < |alerts| ==> Addressed(alerts[i], configs, p)
  }

  lemma {:induction false} VisitAllAddressed(w: World, p: Probe, ch: Choices, n: nat)
    requires n <= |ch.order| && Lists(ch.order, AlertRows(w.configs, p.endpoint))
    ensures AllAddressed(VisitAll(w, p, ch, n).alerts, w.configs, p)
  {
    if n > 0 {
      VisitAllAddressed(w, p, ch, n - 1);
      assert ch.order[n - 1] in AlertRows(w.configs, p.endpoint);
    }
  }

  function NewRow(w: World, p: Probe): CheckRow {
    CheckRow(|w.results|, p.endpoint, p.at, p.code)
  }

  /** A first check publishes; later ones publish when health changed. */
  predicate ShouldPublish(prev: Option<CheckRow>, p: Probe) {
    prev.None? || Up(prev.value) != UpFor(p.code)
  }

  function Announcement(p: Probe, ch: Choices): seq<Message> {
    if ShouldPublish(ch.prev, p) && ch.owner.Some? && ch.publishOk
    then [Message(p.endpoint, ch.owner.value, p.code, p.at, UpFor(p.code))] else []
  }

  /** A failed attempt leaves nothing in the database, but alerts already queued stay queued. */
  function Attempt(w: World, p: Probe, ch: Choices): World {
    match ch.failAt
    case Some(n) =>
      w.(broker := w.broker + VisitAll(w, p, ch, Min(n, |ch.order|)).alerts)
    case None =>
      var pass := VisitAll(w, p, ch, |ch.order|);
      w.(states := pass.states,
         results := w.results + [NewRow(w, p)],
         broker := w.broker + pass.alerts,
         published := w.published + Announcement(p, ch))
  }

  /**
    What an attempt leaves behind, column by column: alerts to the right recipients; and, only when
    it commits, one row with the probe's result and at most one message to the endpoint's owner.
  */
  ghost predicate Leaves(w: World, v: World, p: Probe, ch: Choices) {
    && v.configs == w.configs && v.nextConfig == w.nextConfig
    && w.broker <= v.broker && AllAddressed(v.broker[|w.broker|..], w.configs, p)
    && (ch.failAt.Some? ==> v.states == w.states && v.results == w.results && v.published == w.published)
    && (ch.failAt.None? ==> v.results == w.results + [CheckRow(|w.results|, p.endpoint, p.at, p.code)])
    && (ch.failAt.None? && Speaks(p, ch) ==>
          v.published == w.published + [Message(p.endpoint, ch.owner.value, p.code, p.at, UpFor(p.code))])
    && (ch.failAt.None? && !Speaks(p, ch) ==> v.published == w.published)
  }

  /** The endpoint has an owner, the publish gets through, and health changed or was not known before. */
  predicate Speaks(p: Probe, ch: Choices) {
    ch.owner.Some? && ch.publishOk && (ch.prev.None? || UpFor(ch.prev.value.code) != UpFor(p.code))
  }

  lemma {:induction false} AttemptLeaves(w: World, p: Probe, ch: Choices)
    requires Allowed(w, p, ch)
    ensures Leaves(w, Attempt(w, p, ch), p, ch)
  {
    var n := if ch.failAt.Some? then Min(ch.failAt.value, |ch.order|) else |ch.order|;
    VisitAllAddressed(w, p, ch, n);
    hide VisitAll, AllAddressed;
    assert (w.broker + VisitAll(w, p, ch, n).alerts)[|w.broker|..] == VisitAll(w, p, ch, n).alerts;
  }

  /** What an attempt's outcome tells the task runner: retry only after a database OperationalError. */
  datatype Try = Try(code: Option<int>, choices: Choices, operational: bool)

  const MAX_RETRIES: nat := 3

  /** The task from its i-th attempt on. Every attempt probes anew but keeps the original timestamp. */
  function Task(w: World, p: Probe, tries: seq<Try>, i: nat): World
    requires i <= MAX_RETRIES < |tries|
    decreases MAX_RETRIES - i
  {
    var t := tries[i];
    var w' := Attempt(w, p.(code := t.code), t.choices);
    if t.choices.failAt.None? || !t.operational || i == MAX_RETRIES then w' else Task(w', p, tries, i + 1)
  }

  /** Clears the flag of a configuration whose down notice was given up on, if it is still set. */
  function Undeliver(w: World, c: nat): World {
    if c in w.states && w.states[c].sent then w.(states := w.states[c := w.states[c].(sent := false)]) else w
  }

  /** The fields set in a PATCH request; the endpoint is not among them. */
  datatype AlertPatch = AlertPatch(channel: Option<Channel>, target: Option<string>, threshold: Option<int>, active: Option<bool>)

  function Or<T>(patch: Option<T>, field: T): T {
    if patch.Some? then patch.value else field
  }

  /** The new configuration shows what was sent and keeps the rest. */
  predicate EditedConfig(cfg: Config, v: Config, p: AlertPatch) {
    && v.endpoint == cfg.endpoint
    && (if p.channel.Some? then v.channel == p.channel.value else v.channel == cfg.channel)
    && (if p.target.Some? then v.target == p.target.value else v.target == cfg.target)
    && (if p.threshold.Some? then v.threshold == p.threshold.value else v.threshold == cfg.threshold)
    && (if p.active.Some? then v.active == p.active.value else v.active == cfg.active)
  }

  function UpdateConfig(w: World, c: nat, p: AlertPatch): World {
    if c !in w.configs then w else
      var cfg := w.configs[c];
      w.(configs := w.configs[c := Config(cfg.endpoint, Or(p.channel, cfg.channel), Or(p.target, cfg.target),
                                          Or(p.threshold, cfg.threshold), Or(p.active, cfg.active))])
  }

  /** A row written by the other dispatcher: no alert pass, no announcement. */
  function StoreRow(w: World, endpoint: nat, at: Time, code: Option<int>): World {
    w.(results := w.results + [CheckRow(|w.results|, endpoint, at, code)])
  }

  function AddConfig(w: World, cfg: Config): World {
    w.(configs := w.configs[w.nextConfig := cfg], nextConfig := w.nextConfig + 1,
       states := w.states[w.nextConfig := State(0, false, None)])
  }

  /* ---------- the writers ---------- */

  class Monitor {
    var configs: map<nat, Config>
    var nextConfig: nat
    var states: map<nat, State>
    var results: seq<CheckRow>
    var broker: seq<Alert>
    var published: seq<Message>

    ghost function Value(): World
      reads this
    {
      World(configs, nextConfig, states, results, broker, published)
    }

    constructor ()
      ensures Value() == World(map[], 0, map[], [], [], [])
    {
      configs, nextConfig, states, results, broker, published := map[], 0, map[], [], [], [];
    }

    method QueueAlert(config: nat, cfg: Config, p: Probe, isRecovery: bool)
      modifies this`broker
      ensures broker == old(broker) + [Alert(config, cfg.channel, cfg.target, p.endpoint, p.url, Notice(isRecovery, p.at))]
    {
      broker := broker + [Alert(config, cfg.channel, cfg.target, p.endpoint, p.url, Notice(isRecovery, p.at))];
    }

    method PerformCheck(p: Probe, ch: Choices) returns (committed: bool)
      requires Allowed(Value(), p, ch)
      modifies this
      ensures Value() == Attempt(old(Value()), p, ch)
      ensures committed <==> ch.failAt.None?
      ensures Leaves(old(Value()), Value(), p, ch)
    {
      ghost var w := Value();
      AttemptLeaves(w, p, ch);
      hide Leaves;
      var isUp := UpFor(p.code);
      var shouldPublish := ch.prev.None? || UpFor(ch.prev.value.code) != isUp;
      var row := CheckRow(|results|, p.endpoint, p.at, p.code);
      var pending := states;
      var i := 0;
      while i < |ch.order|
        invariant 0 <= i <= |ch.order|
        invariant ch.failAt.Some? ==> i <= ch.failAt.value
        invariant pending == VisitAll(w, p, ch, i).states
        invariant Value() == w.(broker := w.broker + VisitAll(w, p, ch, i).alerts)
      {
        if ch.failAt == Some(i) {
          return false;
        }
        var c := ch.order[i];
        assert c in AlertRows(configs, p.endpoint);
        var cfg := configs[c];
        var state := if c in pending then pending[c] else State(0, false, None);
        if isUp {
          if state.sent {
            QueueAlert(c, cfg, p, true);
          }
          state := state.(streak := 0, sent := false);
        } else {
          state := state.(streak := state.streak + 1);
          if state.streak >= cfg.threshold && !state.sent {
            QueueAlert(c, cfg, p, false);
            state := state.(sent := true, lastAlertAt := Some(ch.now));
          }
        }
        pending := pending[c := state];
        i := i + 1;
      }
      if ch.failAt.Some? {
        return false;
      }
      states, results := pending, results + [row];
      if shouldPublish && ch.owner.Some? {
        if ch.publishOk {
          published := published + [Message(p.endpoint, ch.owner.value, p.code, p.at, isUp)];
        }
      }
      return true;
    }

    /** The task runner's retry loop around perform_check. */
    method PerformCheckTask(p: Probe, tries: seq<Try>)
      requires |tries| > MAX_RETRIES
      requires forall i :: 0 <= i < |tries| ==> Allowed(Value(), p.(code := tries[i].code), tries[i].choices)
      modifies this
      ensures Value() == Task(old(Value()), p, tries, 0)
    {
      var i := 0;
      while true
        invariant 0 <= i <= MAX_RETRIES
        invariant Value() == old(Value()).(broker := broker)
        invariant Task(Value(), p, tries, i) == Task(old(Value()), p, tries, 0)
        decreases MAX_RETRIES - i
      {
        assert Allowed(old(Value()), p.(code := tries[i].code), tries[i].choices);
        var committed := PerformCheck(p.(code := tries[i].code), tries[i].choices);
        if committed || !tries[i].operational || i == MAX_RETRIES {
          return;
        }
        i := i + 1;
      }
    }

    method MarkAlertUndelivered(c: nat)
      modifies this`states
      ensures Value() == Undeliver(old(Value()), c)
      ensures states.Keys == old(states).Keys && forall d :: d in states && d != c ==> states[d] == old(states)[d]
      ensures c in states ==> states[c] == State(old(states)[c].streak, false, old(states)[c].lastAlertAt)
    {
      if c in states && states[c].sent {
        states := states[c := states[c].(sent := false)];
      }
    }

    /** Only an exhausted down notice matters; giving up on a recovery changes nothing. */
    method HandleAlertExhausted(alert: Alert)
      modifies this`states
      ensures Value() == if alert.notice.isRecovery then old(Value()) else Undeliver(old(Value()), alert.config)
    {
      if !alert.notice.isRecovery {
        MarkAlertUndelivered(alert.config);
      }
    }

    /** An integrity error rolls back the configuration together with its state row. */
    method AddAlert(cfg: Config, integrityOk: bool) returns (id: Option<nat>)
      modifies this
      ensures id == if integrityOk then Some(old(nextConfig)) else None
      ensures Value() == if integrityOk then AddConfig(old(Value()), cfg) else old(Value())
      ensures id.Some? ==> configs == old(configs)[id.value := cfg] && states == old(states)[id.value := State(0, false, None)]
    {
      if !integrityOk {
        return None;
      }
      var c := nextConfig;
      configs, nextConfig, states := configs[c := cfg], c + 1, states[c := State(0, false, None)];
      return Some(c);
    }

    /** Only the fields that were sent change; a configuration that does not exist is not found. */
    method UpdateAlert(c: nat, p: AlertPatch) returns (found: bool)
      modifies this`configs
      ensures found <==> c in old(configs)
      ensures Value() == UpdateConfig(old(Value()), c, p)
      ensures found ==> configs == old(configs)[c := configs[c]] && EditedConfig(old(configs)[c], configs[c], p)
    {
      if c !in configs {
        return false;
      }
      var cfg := configs[c];
      if p.channel.Some? {
        cfg := cfg.(channel := p.channel.value);
      }
      if p.target.Some? {
        cfg := cfg.(target := p.target.value);
      }
      if p.threshold.Some? {
        cfg := cfg.(threshold := p.threshold.value);
      }
      if p.active.Some? {
        cfg := cfg.(active := p.active.value);
      }
      configs := configs[c := cfg];
      return true;
    }

    /** insertResult of the other dispatcher; a failed insert is logged and leaves nothing. */
    method InsertResult(endpoint: nat, at: Time, code: Option<int>, insertOk: bool)
      modifies this`results
      ensures Value() == if insertOk then StoreRow(old(Value()), endpoint, at, code) else old(Value())
      ensures insertOk ==> results == old(results) + [CheckRow(|old(results)|, endpoint, at, code)]
    {
      if insertOk {
        results := results + [CheckRow(|results|, endpoint, at, code)];
      }
    }

    /** Deleting a configuration cascades to its state row. */
    method DeleteAlert(c: nat)
      modifies this`configs, this`states
      ensures Value() == old(Value()).(configs := old(configs) - {c}, states := old(states) - {c})
    {
      configs, states := configs - {c}, states - {c};
    }
  }
}
