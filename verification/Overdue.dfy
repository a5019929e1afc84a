/**
  The overdue flag over whole runs: it never cries wolf while the stated timing bounds hold, and it
  cannot be silenced by claiming an endpoint and losing the task.
*/
module Overdue {
  import opened Common
  import opened Sql
  import opened Endpoints

  /** A claim made at a tick: its clock, the probe timestamp its row will carry, and whether the row is in. */
  datatype Check = Check(at: Time, probe: Time, done: bool)

  /** An endpoint, its latest checked_at, and the claims made since its schedule last restarted. */
  datatype Watch = Watch(e: Endpoint, latest: Option<Time>, checks: seq<Check>)

  datatype Fleet = Fleet(clock: Time, lastTick: Time, watches: map<nat, Watch>)

  /** Upper bounds on the gap between ticks, between claim and commit, and between probe timestamp and claim. */
  datatype Timing = Timing(tick: Time, commit: Time, lag: Time, grace: nat)

  /**
    Dispatch is a tick that claims everything due; Batch is any other claim of some of the rows,
    each with the timestamp its probe will carry.
  */
  datatype Step =
    | Advance(d: nat)
    | Dispatch(probe: Time)
    | Batch(probes: map<nat, Time>)
    | CommitCheck(id: nat, i: nat)
    | CommitOld(id: nat, at: Time)
    | Create(id: nat, user: nat, url: string, interval: nat)
    | Edit(id: nat, patch: Patch)
    | Remove(id: nat)

  function Later(latest: Option<Time>, at: Time): Option<Time> {
    Some(Greatest(latest, at))
  }

  function Claimed(w: Watch, probe: Time, now: Time): Watch {
    if Due(w.e, now) then w.(e := Claim(w.e, now), checks := w.checks + [Check(now, probe, false)]) else w
  }

  function Edited(w: Watch, p: Patch, now: Time): Watch {
    Watch(Update(w.e, p, now), w.latest, if Reschedules(w.e, p) then [] else w.checks)
  }

  function Next(f: Fleet, s: Step): Fleet {
    match s
    case Advance(d) => f.(clock := f.clock + d)
    case Dispatch(probe) =>
      f.(lastTick := f.clock, watches := map id | id in f.watches :: Claimed(f.watches[id], probe, f.clock))
    case Batch(probes) =>
      f.(watches := map id | id in f.watches :: if id in probes then Claimed(f.watches[id], probes[id], f.clock) else f.watches[id])
    case CommitCheck(id, i) =>
      if id in f.watches && i < |f.watches[id].checks| then
        var w := f.watches[id];
        var c := w.checks[i];
        f.(watches := f.watches[id := w.(latest := Later(w.latest, c.probe), checks := w.checks[i := c.(done := true)])])
      else f
    case CommitOld(id, at) =>
      if id in f.watches then f.(watches := f.watches[id := f.watches[id].(latest := Later(f.watches[id].latest, at))]) else f
    case Create(id, user, url, interval) =>
      f.(watches := f.watches[id := Watch(Created(user, url, interval, f.clock), None, [])])
    case Edit(id, p) =>
      if id in f.watches then f.(watches := f.watches[id := Edited(f.watches[id], p, f.clock)]) else f
    case Remove(id) => f.(watches := f.watches - {id})
  }

  /* ---------- no false alarm ---------- */

  ghost predicate InTime(w: Watch, now: Time, t: Timing) {
    forall i :: 0 <= i < |w.checks| && !w.checks[i].done ==> now <= w.checks[i].at + t.commit
  }

  /** The timing assumptions: time passes only as far as the next tick and the pending commits allow. */
  ghost predicate Timely(f: Fleet, s: Step, t: Timing) {
    match s
    case Advance(d) =>
      && f.clock + d <= f.lastTick + t.tick
      && (forall id :: id in f.watches ==> InTime(f.watches[id], f.clock + d, t))
    case Dispatch(probe) => f.clock - t.lag <= probe
    case Batch(probes) => forall id :: id in probes ==> f.clock - t.lag <= probes[id]
    case CommitCheck(id, i) => id in f.watches && i < |f.watches[id].checks|
    case CommitOld(id, at) => true
    case Create(id, _, _, _) => id !in f.watches
    case Edit(id, _) => true
    case Remove(id) => true
  }

  /** The time by which check i is claimed: one interval and one tick after the one before it. */
  function ClaimBy(w: Watch, i: nat, t: Timing): Time
    requires i <= |w.checks|
  {
    (if i == 0 then w.e.since else w.checks[i - 1].at + Micros(w.e.interval)) + t.tick
  }

  predicate Recorded(c: Check, latest: Option<Time>, t: Timing) {
    && c.probe >= c.at - t.lag
    && (c.done ==> latest.Some? && latest.value >= c.probe)
  }

  ghost predicate OnSchedule(w: Watch, f: Fleet, t: Timing) {
    && (w.e.active ==> w.e.next >= f.lastTick)
    && w.e.next + t.tick == ClaimBy(w, |w.checks|, t)
    && InTime(w, f.clock, t)
    && (forall i :: 0 <= i < |w.checks| ==> w.checks[i].at <= ClaimBy(w, i, t))
    && (forall i :: 0 <= i < |w.checks| ==> Recorded(w.checks[i], w.latest, t))
  }

  ghost predicate Inv(f: Fleet, t: Timing) {
    && f.lastTick <= f.clock <= f.lastTick + t.tick
    && (forall id :: id in f.watches ==> OnSchedule(f.watches[id], f, t))
  }

  ghost predicate Sane(t: Timing) {
    t.tick >= 0 && t.commit >= 0 && t.lag >= 0
  }

  /** The claims before the first n, up to and including the newest one whose row is in. */
  function LastDone(checks: seq<Check>, n: nat): (j: nat)
    requires n <= |checks|
    ensures j <= n
    ensures j > 0 ==> checks[j - 1].done
    ensures forall i :: j <= i < n ==> !checks[i].done
  {
    if n == 0 then 0 else if checks[n - 1].done then n else LastDone(checks, n - 1)
  }

  /** The first claim without a row, or the next claim, is at most one interval, one tick and the lag past the baseline. */
  lemma {:induction false} OnScheduleIsNotOverdue(w: Watch, f: Fleet, t: Timing)
    requires Sane(t) && f.clock <= f.lastTick + t.tick && OnSchedule(w, f, t)
    requires t.lag + t.tick + t.commit <= Micros(t.grace)
    ensures !Endpoints.Overdue(w.e, w.latest, f.clock, t.grace)
  {
    if w.e.active {
      var j := LastDone(w.checks, |w.checks|);
      if j > 0 {
        assert Recorded(w.checks[j - 1], w.latest, t);
      }
      assert ClaimBy(w, j, t) <= Greatest(w.latest, w.e.since) + t.lag + Micros(w.e.interval) + t.tick;
      if j < |w.checks| {
        assert !w.checks[j].done;
        assert w.checks[j].at <= ClaimBy(w, j, t);
      }
    }
  }

  lemma {:induction false} ClaimKeepsSchedule(w: Watch, f: Fleet, probe: Time, t: Timing)
    requires Sane(t) && OnSchedule(w, f, t) && f.lastTick <= f.clock <= f.lastTick + t.tick && f.clock - t.lag <= probe
    ensures OnSchedule(Claimed(w, probe, f.clock), f, t)
  {
    hide Micros;
    if Due(w.e, f.clock) {
      AppendKeepsSchedule(w, f, probe, t);
    }
  }

  lemma {:induction false} AppendKeepsSchedule(w: Watch, f: Fleet, probe: Time, t: Timing)
    requires Sane(t) && OnSchedule(w, f, t) && f.lastTick <= f.clock <= f.lastTick + t.tick && f.clock - t.lag <= probe
    requires Due(w.e, f.clock)
    ensures OnSchedule(w.(e := Claim(w.e, f.clock), checks := w.checks + [Check(f.clock, probe, false)]), f, t)
  {
    var v := w.(e := Claim(w.e, f.clock), checks := w.checks + [Check(f.clock, probe, false)]);
    hide Recorded;
    forall i | 0 <= i < |v.checks| ensures v.checks[i].at <= ClaimBy(v, i, t) {
      if i < |w.checks| {
        assert w.checks[i].at <= ClaimBy(w, i, t);
      }
    }
    assert Recorded(Check(f.clock, probe, false), w.latest, t) by {
      NewIsRecorded(f.clock, probe, w.latest, t);
    }
  }

  lemma {:induction false} NewIsRecorded(at: Time, probe: Time, latest: Option<Time>, t: Timing)
    requires at - t.lag <= probe
    ensures Recorded(Check(at, probe, false), latest, t)
  {
  }

  /** After a sweep nothing is due. */
  lemma {:induction false} SweepKeepsSchedule(w: Watch, f: Fleet, probe: Time, t: Timing)
    requires OnSchedule(Claimed(w, probe, f.clock), f, t)
    ensures OnSchedule(Claimed(w, probe, f.clock), f.(lastTick := f.clock), t)
  {
    hide Recorded;
  }

  lemma {:induction false} StaysRecorded(c: Check, latest: Option<Time>, at: Time, t: Timing)
    requires Recorded(c, latest, t)
    ensures Recorded(c, Later(latest, at), t)
    ensures at == c.probe ==> Recorded(c.(done := true), Later(latest, at), t)
  {
  }

  lemma {:induction false} CommitKeepsSchedule(w: Watch, f: Fleet, i: nat, t: Timing)
    requires OnSchedule(w, f, t) && i < |w.checks|
    ensures OnSchedule(w.(latest := Later(w.latest, w.checks[i].probe), checks := w.checks[i := w.checks[i].(done := true)]), f, t)
  {
    hide Recorded, Later, Micros;
    var v := w.(latest := Later(w.latest, w.checks[i].probe), checks := w.checks[i := w.checks[i].(done := true)]);
    forall k | 0 <= k < |v.checks| ensures Recorded(v.checks[k], v.latest, t) {
      StaysRecorded(w.checks[k], w.latest, w.checks[i].probe, t);
    }
  }

  lemma {:induction false} LaterKeepsSchedule(w: Watch, f: Fleet, at: Time, t: Timing)
    requires OnSchedule(w, f, t)
    ensures OnSchedule(w.(latest := Later(w.latest, at)), f, t)
  {
  }

  lemma {:induction false} EditKeepsSchedule(w: Watch, f: Fleet, p: Patch, t: Timing)
    requires f.lastTick <= f.clock && OnSchedule(w, f, t)
    ensures OnSchedule(Edited(w, p, f.clock), f, t)
  {
    var v := Edited(w, p, f.clock);
    if !Reschedules(w.e, p) {
      assert v.e.interval == w.e.interval && v.e.since == w.e.since && v.e.next == w.e.next;
      forall i | 0 <= i < |v.checks| ensures v.checks[i].at <= ClaimBy(v, i, t) {
        assert w.checks[i].at <= ClaimBy(w, i, t);
      }
    }
  }

  lemma {:induction false} TimeKeepsSchedule(w: Watch, f: Fleet, d: nat, t: Timing)
    requires OnSchedule(w, f, t) && InTime(w, f.clock + d, t)
    ensures OnSchedule(w, Next(f, Advance(d)), t)
  {
  }

  lemma {:induction false} StepKeepsInv(f: Fleet, s: Step, t: Timing)
    requires Sane(t) && Inv(f, t) && Timely(f, s, t)
    ensures Inv(Next(f, s), t)
  {
    var g := Next(f, s);
    forall id | id in g.watches ensures OnSchedule(g.watches[id], g, t) {
      if id in f.watches {
        var w := f.watches[id];
        match s
        case Advance(d) => TimeKeepsSchedule(w, f, d, t);
        case Dispatch(probe) => ClaimKeepsSchedule(w, f, probe, t); SweepKeepsSchedule(w, f, probe, t); SameSchedule(g.watches[id], f.(lastTick := f.clock), g, t);
        case Batch(probes) => if id in probes { ClaimKeepsSchedule(w, f, probes[id], t); SameSchedule(g.watches[id], f, g, t); } else { SameSchedule(w, f, g, t); }
        case CommitCheck(x, i) => if x == id { CommitKeepsSchedule(w, f, i, t); } else { SameSchedule(w, f, g, t); }
        case CommitOld(x, at) => if x == id { LaterKeepsSchedule(w, f, at, t); SameSchedule(g.watches[id], f, g, t); } else { SameSchedule(w, f, g, t); }
        case Edit(x, p) => if x == id { EditKeepsSchedule(w, f, p, t); SameSchedule(g.watches[id], f, g, t); } else { SameSchedule(w, f, g, t); }
        case Create(_, _, _, _) => SameSchedule(w, f, g, t);
        case Remove(_) => SameSchedule(w, f, g, t);
      }
    }
  }

  lemma {:induction false} SameSchedule(w: Watch, f: Fleet, g: Fleet, t: Timing)
    requires OnSchedule(w, f, t) && g.clock == f.clock && g.lastTick == f.lastTick
    ensures OnSchedule(w, g, t)
  {
  }

  function After(f: Fleet, steps: seq<Step>, k: nat): Fleet
    requires k <= |steps|
  {
    if k == 0 then f else Next(After(f, steps, k - 1), steps[k - 1])
  }

  ghost predicate TimelyRun(f: Fleet, steps: seq<Step>, t: Timing) {
    forall k :: 0 <= k < |steps| ==> Timely(After(f, steps, k), steps[k], t)
  }

  function Start(clock: Time): Fleet {
    Fleet(clock, clock, map[])
  }

  lemma {:induction false} RunKeepsInv(clock: Time, steps: seq<Step>, k: nat, t: Timing)
    requires Sane(t) && TimelyRun(Start(clock), steps, t) && k <= |steps|
    ensures Inv(After(Start(clock), steps, k), t)
  {
    if k > 0 {
      RunKeepsInv(clock, steps, k - 1, t);
      StepKeepsInv(After(Start(clock), steps, k - 1), steps[k - 1], t);
    }
  }

  /**
    No false alarm: if ticks are at most tick apart, rows commit within commit of their claim, probe
    timestamps precede the claim by at most lag, and the three together fit into the grace period,
    then no endpoint is ever reported overdue, at any moment of any run with claims of single rows
    or batches between the ticks, creations, edits, pauses, reactivations and rows committed out of
    order.
  */
  lemma {:induction false} NoFalseOverdue(clock: Time, steps: seq<Step>, k: nat, t: Timing, id: nat)
    requires Sane(t) && TimelyRun(Start(clock), steps, t) && k <= |steps|
    requires t.lag + t.tick + t.commit <= Micros(t.grace)
    requires id in After(Start(clock), steps, k).watches
    ensures var f := After(Start(clock), steps, k);
      !Endpoints.Overdue(f.watches[id].e, f.watches[id].latest, f.clock, t.grace)
  {
    RunKeepsInv(clock, steps, k, t);
    OnScheduleIsNotOverdue(After(Start(clock), steps, k).watches[id], After(Start(clock), steps, k), t);
  }

  /* ---------- no missed alarm ---------- */

  /** The step brings no result row for the endpoint and does not edit it. Claims of it are allowed. */
  predicate Silent(s: Step, id: nat) {
    match s
    case Advance(_) => true
    case Dispatch(_) => true
    case Batch(_) => true
    case CommitCheck(x, _) => x != id
    case CommitOld(x, _) => x != id
    case Create(x, _, _, _) => x != id
    case Edit(x, _) => x != id
    case Remove(x) => x != id
  }

  lemma {:induction false} SilentStep(f: Fleet, s: Step, id: nat, grace: nat)
    requires id in f.watches && Silent(s, id)
    ensures id in Next(f, s).watches
    ensures var w, v := f.watches[id], Next(f, s).watches[id];
      v.e.active == w.e.active && Deadline(v.e, v.latest, grace) == Deadline(w.e, w.latest, grace)
  {
  }

  /**
    Detection: as long as no row and no edit arrives, claims cannot move the deadline, so the
    endpoint is reported overdue exactly when the clock has passed the deadline it had at the start.
    A task that was claimed and lost cannot hide.
  */
  lemma {:induction false} LostTaskIsDetected(f: Fleet, steps: seq<Step>, k: nat, id: nat, grace: nat)
    requires k <= |steps| && id in f.watches && f.watches[id].e.active
    requires forall i :: 0 <= i < k ==> Silent(steps[i], id)
    ensures var g := After(f, steps, k);
      && id in g.watches
      && g.watches[id].e.active
      && Deadline(g.watches[id].e, g.watches[id].latest, grace) == Deadline(f.watches[id].e, f.watches[id].latest, grace)
      && (Endpoints.Overdue(g.watches[id].e, g.watches[id].latest, g.clock, grace) <==>
          g.clock > Deadline(f.watches[id].e, f.watches[id].latest, grace))
  {
    if k > 0 {
      LostTaskIsDetected(f, steps, k - 1, id, grace);
      SilentStep(After(f, steps, k - 1), steps[k - 1], id, grace);
    }
  }
}
