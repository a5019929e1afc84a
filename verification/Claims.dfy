/**
  Concurrent claimers. A claim is a transaction that reads its clock once, locks due rows one by
  one, and updates them when it commits; any number of them, from both dispatchers, interleave with
  each other and with edits. An edit needs the row lock and is atomic.
*/
module Claims {
  import opened Common
  import opened Endpoints

  /** An open claim: its now(), and the rows it has locked with the next_check_at it saw on each. */
  datatype Txn = Txn(start: Time, seen: map<nat, Time>)

  /** What happened to one endpoint's schedule: a claim of the slot that was due, or a (re)start. */
  datatype Entry = Took(at: Time, interval: nat, slot: Time) | Restarted(at: Time)

  datatype Fleet = Fleet(clock: Time, endpoints: map<nat, Endpoint>, txns: map<nat, Txn>, log: map<nat, seq<Entry>>)

  datatype Step =
    | Tick(d: nat)
    | Begin(txn: nat)
    | Lock(txn: nat, id: nat)
    | Commit(txn: nat)
    | Rollback(txn: nat)
    | Create(id: nat, user: nat, url: string, interval: nat)
    | Edit(id: nat, patch: Patch)
    | Remove(id: nat)

  ghost predicate Unlocked(f: Fleet, id: nat) {
    forall t :: t in f.txns ==> id !in f.txns[t].seen
  }

  ghost predicate Enabled(f: Fleet, s: Step) {
    match s
    case Tick(_) => true
    case Begin(t) => t !in f.txns
    case Lock(t, id) => t in f.txns && id in f.endpoints && Due(f.endpoints[id], f.txns[t].start) && Unlocked(f, id)
    case Commit(t) => t in f.txns
    case Rollback(t) => t in f.txns
    case Create(id, _, _, _) => id !in f.endpoints && id !in f.log
    case Edit(id, _) => id in f.endpoints && Unlocked(f, id)
    case Remove(id) => id in f.endpoints && Unlocked(f, id)
  }

  function LogOf(f: Fleet, id: nat): seq<Entry> {
    if id in f.log then f.log[id] else []
  }

  /** The log after a transaction has taken its locked rows. */
  function Logged(f: Fleet, t: Txn): map<nat, seq<Entry>> {
    map id | id in f.log ::
      if id in t.seen && id in f.endpoints
      then f.log[id] + [Took(t.start, f.endpoints[id].interval, f.endpoints[id].next)]
      else f.log[id]
  }

  function Next(f: Fleet, s: Step): Fleet {
    match s
    case Tick(d) => f.(clock := f.clock + d)
    case Begin(t) => f.(txns := f.txns[t := Txn(f.clock, map[])])
    case Lock(t, id) =>
      if t in f.txns && id in f.endpoints
      then f.(txns := f.txns[t := f.txns[t].(seen := f.txns[t].seen[id := f.endpoints[id].next])]) else f
    case Commit(t) =>
      if t in f.txns
      then f.(endpoints := ClaimAll(f.endpoints, f.txns[t].seen.Keys, f.txns[t].start),
              log := Logged(f, f.txns[t]),
              txns := f.txns - {t}) else f
    case Rollback(t) => f.(txns := f.txns - {t})
    case Create(id, user, url, interval) =>
      f.(endpoints := f.endpoints[id := Created(user, url, interval, f.clock)], log := f.log[id := [Restarted(f.clock)]])
    case Edit(id, p) =>
      if id !in f.endpoints then f else
        f.(endpoints := f.endpoints[id := Update(f.endpoints[id], p, f.clock)],
           log := if Reschedules(f.endpoints[id], p) then f.log[id := LogOf(f, id) + [Restarted(f.clock)]] else f.log)
    case Remove(id) => f.(endpoints := f.endpoints - {id})
  }

  /* ---------- invariant ---------- */

  /** The due time that an entry leaves behind. */
  function Slot(e: Entry): Time {
    match e
    case Took(at, interval, _) => at + Micros(interval)
    case Restarted(at) => at
  }

  /** A claim takes exactly the slot its predecessor left, at or after its due time; restarts never go back in time. */
  predicate Follows(a: Entry, b: Entry) {
    match b
    case Took(at, _, slot) => slot == Slot(a) && slot <= at
    case Restarted(at) => a.at <= at
  }

  ghost predicate Spaced(l: seq<Entry>) {
    && (forall i :: 0 < i < |l| ==> Follows(l[i - 1], l[i]))
    && (l != [] ==> l[0].Restarted?)
  }

  predicate Tracks(e: Endpoint, l: seq<Entry>, clock: Time) {
    l != [] && Slot(l[|l| - 1]) == e.next && l[|l| - 1].at <= clock
  }

  ghost predicate Sound(f: Fleet, t: Txn) {
    t.start <= f.clock &&
    forall id :: id in t.seen ==> id in f.endpoints && Due(f.endpoints[id], t.start) && f.endpoints[id].next == t.seen[id]
  }

  ghost predicate Inv(f: Fleet) {
    && (forall id :: id in f.endpoints ==> id in f.log && Tracks(f.endpoints[id], f.log[id], f.clock))
    && (forall id :: id in f.log ==> Spaced(f.log[id]))
    && (forall t :: t in f.txns ==> Sound(f, f.txns[t]))
    && (forall t, u, id :: t in f.txns && u in f.txns && id in f.txns[t].seen && id in f.txns[u].seen ==> t == u)
  }

  lemma {:induction false} SpacedAppend(l: seq<Entry>, e: Entry)
    requires Spaced(l) && l != [] && Follows(l[|l| - 1], e)
    ensures Spaced(l + [e])
  {
  }

  lemma {:induction false} CommitKeepsInv(f: Fleet, t: nat)
    requires Inv(f) && Enabled(f, Commit(t))
    ensures Inv(Next(f, Commit(t)))
  {
    var txn, g := f.txns[t], Next(f, Commit(t));
    assert Sound(f, txn);
    forall id | id in g.log ensures Spaced(g.log[id]) {
      if id in txn.seen {
        assert Tracks(f.endpoints[id], f.log[id], f.clock);
        SpacedAppend(f.log[id], Took(txn.start, f.endpoints[id].interval, f.endpoints[id].next));
      }
    }
    forall id | id in g.endpoints ensures id in g.log && Tracks(g.endpoints[id], g.log[id], g.clock) {
      assert Tracks(f.endpoints[id], f.log[id], f.clock);
    }
    forall u | u in g.txns ensures Sound(g, g.txns[u]) {
      assert Sound(f, f.txns[u]);
    }
  }

  lemma {:induction false} EditKeepsInv(f: Fleet, id: nat, p: Patch)
    requires Inv(f) && Enabled(f, Edit(id, p))
    ensures Inv(Next(f, Edit(id, p)))
  {
    var g := Next(f, Edit(id, p));
    assert Tracks(f.endpoints[id], f.log[id], f.clock);
    if Reschedules(f.endpoints[id], p) {
      SpacedAppend(f.log[id], Restarted(f.clock));
    }
    forall x | x in g.endpoints ensures x in g.log && Tracks(g.endpoints[x], g.log[x], g.clock) {
      assert x in f.endpoints && Tracks(f.endpoints[x], f.log[x], f.clock);
    }
    forall u | u in g.txns ensures Sound(g, g.txns[u]) {
      assert Sound(f, f.txns[u]);
    }
  }

  lemma {:induction false} LockKeepsInv(f: Fleet, t: nat, id: nat)
    requires Inv(f) && Enabled(f, Lock(t, id))
    ensures Inv(Next(f, Lock(t, id)))
  {
  }

  lemma {:induction false} RowsKeepInv(f: Fleet, s: Step)
    requires Inv(f) && Enabled(f, s) && (s.Tick? || s.Create? || s.Remove?)
    ensures Inv(Next(f, s))
  {
    var g := Next(f, s);
    forall x | x in g.endpoints ensures x in g.log && Tracks(g.endpoints[x], g.log[x], g.clock) {
      if x in f.endpoints {
        assert Tracks(f.endpoints[x], f.log[x], f.clock);
      }
    }
    forall u | u in g.txns ensures Sound(g, g.txns[u]) {
      assert Sound(f, f.txns[u]);
    }
  }

  lemma {:induction false} StepKeepsInv(f: Fleet, s: Step)
    requires Inv(f) && Enabled(f, s)
    ensures Inv(Next(f, s))
  {
    hide *;
    match s
    case Commit(t) => CommitKeepsInv(f, t);
    case Edit(id, p) => EditKeepsInv(f, id, p);
    case Lock(t, id) => LockKeepsInv(f, t, id);
    case Begin(_) => TransactionsKeepInv(f, s);
    case Rollback(_) => TransactionsKeepInv(f, s);
    case Tick(_) => RowsKeepInv(f, s);
    case Create(_, _, _, _) => RowsKeepInv(f, s);
    case Remove(_) => RowsKeepInv(f, s);
  }

  lemma {:induction false} TransactionsKeepInv(f: Fleet, s: Step)
    requires Inv(f) && Enabled(f, s) && (s.Begin? || s.Rollback?)
    ensures Inv(Next(f, s))
  {
    hide Spaced, Tracks;
  }

  function After(f: Fleet, steps: seq<Step>, k: nat): Fleet
    requires k <= |steps|
  {
    if k == 0 then f else Next(After(f, steps, k - 1), steps[k - 1])
  }

  ghost predicate PossibleRun(f: Fleet, steps: seq<Step>) {
    forall k :: 0 <= k < |steps| ==> Enabled(After(f, steps, k), steps[k])
  }

  function Start(clock: Time): Fleet {
    Fleet(clock, map[], map[], map[])
  }

  lemma {:induction false} RunKeepsInv(clock: Time, steps: seq<Step>, k: nat)
    requires PossibleRun(Start(clock), steps) && k <= |steps|
    ensures Inv(After(Start(clock), steps, k))
  {
    if k > 0 {
      RunKeepsInv(clock, steps, k - 1);
      StepKeepsInv(After(Start(clock), steps, k - 1), steps[k - 1]);
    }
  }

  /**
    In every reachable state no row is locked by two claims, and each claim will update exactly the
    slots it saw when it locked them: nobody moves a schedule under it.
  */
  lemma {:induction false} NoSlotIsTakenTwice(clock: Time, steps: seq<Step>, k: nat)
    requires PossibleRun(Start(clock), steps) && k <= |steps|
    ensures var f := After(Start(clock), steps, k);
      && (forall t, u, id :: t in f.txns && u in f.txns && id in f.txns[t].seen && id in f.txns[u].seen ==> t == u)
      && (forall t, id :: t in f.txns && id in f.txns[t].seen ==> id in f.endpoints && f.endpoints[id].next == f.txns[t].seen[id])
      && (forall id :: id in f.log ==> Spaced(f.log[id]))
  {
    RunKeepsInv(clock, steps, k);
    var f := After(Start(clock), steps, k);
    forall t | t in f.txns ensures Sound(f, f.txns[t]) {
    }
  }

  /* ---------- rate bound ---------- */

  function CountTook(l: seq<Entry>, lo: nat, hi: nat): nat
    requires lo <= hi <= |l|
    decreases hi - lo
  {
    if lo == hi then 0 else CountTook(l, lo, hi - 1) + if l[hi - 1].Took? then 1 else 0
  }

  /** Restarts after the first entry, which is the endpoint's creation. */
  function CountReschedules(l: seq<Entry>, lo: nat, hi: nat): nat
    requires lo <= hi <= |l|
    decreases hi - lo
  {
    if lo == hi then 0 else CountReschedules(l, lo, hi - 1) + if l[hi - 1].Restarted? && hi > 1 then 1 else 0
  }

  /** Each claim that does not follow a restart costs one interval of time. */
  lemma {:induction false} ClaimsTakeTime(l: seq<Entry>, lo: nat, hi: nat, step: Time)
    requires Spaced(l) && lo < hi <= |l| && step >= 0
    requires forall i :: lo <= i < hi && l[i].Took? ==> step <= Micros(l[i].interval)
    ensures l[hi - 1].at - l[lo].at >=
      (CountTook(l, lo, hi) - CountReschedules(l, lo, hi) - if l[hi - 1].Took? then 1 else 0) * step
    decreases hi - lo
  {
    if hi > lo + 1 {
      ClaimsTakeTime(l, lo, hi - 1, step);
      assert Follows(l[hi - 2], l[hi - 1]);
      Distribute(CountTook(l, lo, hi - 1) - CountReschedules(l, lo, hi - 1), step);
    }
  }

  lemma {:induction false} Distribute(n: int, step: int)
    ensures (n - 1) * step == n * step - step && (n + 1) * step == n * step + step
  {
  }

  /** Claims of the endpoint among its first k log entries whose clock reading lies in the span. */
  function ClaimsIn(l: seq<Entry>, k: nat, from: Time, to: Time): nat
    requires k <= |l|
  {
    if k == 0 then 0 else ClaimsIn(l, k - 1, from, to) + if l[k - 1].Took? && from <= l[k - 1].at <= to then 1 else 0
  }

  function ReschedulesIn(l: seq<Entry>, k: nat, from: Time, to: Time): nat
    requires k <= |l|
  {
    if k == 0 then 0 else
      ReschedulesIn(l, k - 1, from, to) + if l[k - 1].Restarted? && k > 1 && from <= l[k - 1].at <= to then 1 else 0
  }

  /** The number of leading entries before time t. */
  function Before(l: seq<Entry>, k: nat, t: Time): (n: nat)
    requires k <= |l|
    ensures n <= k
  {
    if k == 0 then 0 else if l[k - 1].at < t then k else Before(l, k - 1, t)
  }

  lemma {:induction false} TimesGrow(l: seq<Entry>, i: nat, j: nat)
    requires Spaced(l) && i <= j < |l|
    ensures l[i].at <= l[j].at
    decreases j
  {
    if i < j {
      TimesGrow(l, i, j - 1);
      assert Follows(l[j - 1], l[j]);
    }
  }

  /** The log is in order of time, so the entries of a span are contiguous. */
  lemma {:induction false} SpanIsSegment(l: seq<Entry>, k: nat, from: Time, to: Time)
    requires Spaced(l) && k <= |l| && from <= to
    ensures var lo, hi := Before(l, k, from), Before(l, k, to + 1);
      && lo <= hi
      && (forall i :: lo <= i < hi ==> from <= l[i].at <= to)
      && ClaimsIn(l, k, from, to) == CountTook(l, lo, hi)
      && ReschedulesIn(l, k, from, to) == CountReschedules(l, lo, hi)
  {
    if k > 0 {
      SpanIsSegment(l, k - 1, from, to);
      if l[k - 1].at < from {
        NothingIn(l, k - 1, k - 1, from, to);
      } else if l[k - 1].at <= to {
        if k > 1 {
          TimesGrow(l, k - 2, k - 1);
        }
      }
    }
  }

  lemma {:induction false} NothingIn(l: seq<Entry>, k: nat, j: nat, from: Time, to: Time)
    requires Spaced(l) && k <= j < |l| && l[j].at < from
    ensures ClaimsIn(l, k, from, to) == 0 && ReschedulesIn(l, k, from, to) == 0
  {
    if k > 0 {
      TimesGrow(l, k - 1, j);
      NothingIn(l, k - 1, j, from, to);
    }
  }

  ghost predicate IntervalsAtLeast(l: seq<Entry>, interval: nat) {
    forall i :: 0 <= i < |l| && l[i].Took? ==> interval <= l[i].interval
  }

  /**
    No catch-up burst: whatever the number of claimers, and however long nothing was claimed
    before, an endpoint is claimed within any span of t microseconds at most t div interval times,
    plus one, plus once per reschedule in the span.
  */
  lemma {:induction false} ClaimRate(clock: Time, steps: seq<Step>, k: nat, id: nat, from: Time, t: Time, interval: nat)
    requires PossibleRun(Start(clock), steps) && k <= |steps|
    requires interval > 0 && t >= 0
    requires IntervalsAtLeast(LogOf(After(Start(clock), steps, k), id), interval)
    ensures var l := LogOf(After(Start(clock), steps, k), id);
      ClaimsIn(l, |l|, from, from + t) <= t / Micros(interval) + 1 + ReschedulesIn(l, |l|, from, from + t)
  {
    RunKeepsInv(clock, steps, k);
    SpacedRate(LogOf(After(Start(clock), steps, k), id), from, t, interval);
  }

  lemma {:induction false} SpacedRate(l: seq<Entry>, from: Time, t: Time, interval: nat)
    requires Spaced(l) && interval > 0 && t >= 0 && IntervalsAtLeast(l, interval)
    ensures ClaimsIn(l, |l|, from, from + t) <= t / Micros(interval) + 1 + ReschedulesIn(l, |l|, from, from + t)
  {
    var lo, hi := Before(l, |l|, from), Before(l, |l|, from + t + 1);
    SpanIsSegment(l, |l|, from, from + t);
    SegmentRate(l, lo, hi, from, t, interval);
  }

  lemma {:induction false} SegmentRate(l: seq<Entry>, lo: nat, hi: nat, from: Time, t: Time, interval: nat)
    requires Spaced(l) && interval > 0 && t >= 0 && lo <= hi <= |l| && IntervalsAtLeast(l, interval)
    requires forall i :: lo <= i < hi ==> from <= l[i].at <= from + t
    ensures CountTook(l, lo, hi) <= t / Micros(interval) + 1 + CountReschedules(l, lo, hi)
  {
    var step := Micros(interval);
    if lo < hi {
      assert forall i :: lo <= i < hi && l[i].Took? ==> step <= Micros(l[i].interval);
      ClaimsTakeTime(l, lo, hi, step);
      var n := CountTook(l, lo, hi) - CountReschedules(l, lo, hi) - if l[hi - 1].Took? then 1 else 0;
      hide CountTook, CountReschedules, Spaced, IntervalsAtLeast, Micros;
      DivideBy(n, step, t);
    } else {
      DivideBy(0, step, t);
    }
  }
}
