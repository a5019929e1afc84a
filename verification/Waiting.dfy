/**
  Bounded waiting under the batched claim: how many ticks a due endpoint can be passed over when
  every tick takes at most B rows, earliest first, while other claimers and edits interfere.
*/
module Waiting {
  import opened Common
  import opened Endpoints

  /** The API accepts intervals from ten seconds up. */
  const MIN_INTERVAL: nat := 10

  datatype Fleet = Fleet(clock: Time, endpoints: map<nat, Endpoint>)

  /** Batch is a tick of the batched dispatcher; Sweep is any other claim of due rows. */
  datatype Step =
    | Tick(d: nat)
    | Batch(ids: set<nat>, locked: set<nat>)
    | Sweep(ids: set<nat>)
    | Create(id: nat, user: nat, url: string, interval: nat)
    | Edit(id: nat, patch: Patch)
    | Remove(id: nat)

  function Next(f: Fleet, s: Step): Fleet {
    match s
    case Tick(d) => f.(clock := f.clock + d)
    case Batch(ids, _) => f.(endpoints := ClaimAll(f.endpoints, ids, f.clock))
    case Sweep(ids) => f.(endpoints := ClaimAll(f.endpoints, ids, f.clock))
    case Create(id, user, url, interval) => f.(endpoints := f.endpoints[id := Created(user, url, interval, f.clock)])
    case Edit(id, p) => if id in f.endpoints then f.(endpoints := f.endpoints[id := Update(f.endpoints[id], p, f.clock)]) else f
    case Remove(id) => f.(endpoints := f.endpoints - {id})
  }

  ghost predicate ValidIntervals(f: Fleet) {
    forall id :: id in f.endpoints ==> f.endpoints[id].interval >= MIN_INTERVAL
  }

  /** A step that the system may take while endpoint e waits: e is neither edited nor removed, nor is its row locked. */
  ghost predicate Allowed(f: Fleet, s: Step, e: nat, limit: nat) {
    match s
    case Tick(_) => true
    case Batch(ids, locked) => IsBatch(f.endpoints, f.clock, limit, locked, ids) && e !in locked
    case Sweep(ids) => ids <= DueIds(f.endpoints, f.clock)
    case Create(id, _, _, interval) => id !in f.endpoints && interval >= MIN_INTERVAL
    case Edit(id, p) => id in f.endpoints && id != e && (p.interval.Some? ==> p.interval.value >= MIN_INTERVAL)
    case Remove(id) => id != e
  }

  predicate Takes(s: Step, e: nat) {
    (s.Batch? || s.Sweep?) && e in s.ids
  }

  /** New and rescheduled endpoints queue up behind e because their due time is later than its own. */
  ghost predicate Behind(f: Fleet, s: Step, e: nat) {
    (s.Create? || s.Edit?) && e in f.endpoints ==> f.endpoints[e].next < f.clock
  }

  /** The other active endpoints that ORDER BY next_check_at may put before e. */
  function Ahead(f: Fleet, e: nat): set<nat>
    requires e in f.endpoints
  {
    set id | id in f.endpoints && id != e && f.endpoints[id].active && f.endpoints[id].next <= f.endpoints[e].next
  }

  ghost predicate Waits(f: Fleet, e: nat) {
    ValidIntervals(f) && e in f.endpoints && Due(f.endpoints[e], f.clock)
  }

  /** A tick that passes e over takes a full batch, all of it from the endpoints ahead of e. */
  lemma {:induction false} BatchAdvances(f: Fleet, ids: set<nat>, locked: set<nat>, e: nat, limit: nat)
    requires Waits(f, e) && Allowed(f, Batch(ids, locked), e, limit) && e !in ids
    ensures var g := Next(f, Batch(ids, locked));
      Waits(g, e) && |Ahead(g, e)| + limit <= |Ahead(f, e)|
  {
    var g := Next(f, Batch(ids, locked));
    var due := DueIds(f.endpoints, f.clock) - locked;
    assert e in due;
    assert ids <= due - {e};
    assert |ids| <= |due - {e}| < |due| by {
      SubsetSize(ids, due - {e});
    }
    assert |ids| == limit;
    assert ids <= Ahead(f, e);
    assert Ahead(g, e) <= Ahead(f, e) - ids;
    SubsetSize(Ahead(g, e), Ahead(f, e) - ids);
    assert |Ahead(f, e) - ids| == |Ahead(f, e)| - |ids|;
  }

  /** No other step adds to the endpoints ahead of e. */
  lemma {:induction false} OthersStayBehind(f: Fleet, s: Step, e: nat, limit: nat)
    requires Waits(f, e) && Allowed(f, s, e, limit) && Behind(f, s, e) && !s.Batch? && !Takes(s, e)
    ensures var g := Next(f, s); Waits(g, e) && |Ahead(g, e)| <= |Ahead(f, e)|
  {
    var g := Next(f, s);
    assert e in g.endpoints && g.endpoints[e] == f.endpoints[e];
    assert Ahead(g, e) <= Ahead(f, e);
    SubsetSize(Ahead(g, e), Ahead(f, e));
  }

  function After(f: Fleet, steps: seq<Step>, k: nat): Fleet
    requires k <= |steps|
  {
    if k == 0 then f else Next(After(f, steps, k - 1), steps[k - 1])
  }

  function Batches(steps: seq<Step>, k: nat): nat
    requires k <= |steps|
  {
    if k == 0 then 0 else Batches(steps, k - 1) + if steps[k - 1].Batch? then 1 else 0
  }

  ghost predicate WaitingRun(f: Fleet, steps: seq<Step>, e: nat, limit: nat) {
    forall k :: 0 <= k < |steps| ==> Allowed(After(f, steps, k), steps[k], e, limit) && Behind(After(f, steps, k), steps[k], e)
  }

  lemma {:induction false} LastStep(f: Fleet, steps: seq<Step>, k: nat, e: nat, limit: nat)
    requires 0 < k <= |steps| && WaitingRun(f, steps, e, limit)
    ensures var g, s := After(f, steps, k - 1), steps[k - 1];
      && After(f, steps, k) == Next(g, s) && Allowed(g, s, e, limit) && Behind(g, s, e)
      && Batches(steps, k) == Batches(steps, k - 1) + if s.Batch? then 1 else 0
  {
  }

  lemma {:induction false} OneMoreBatch(n: nat, limit: nat)
    ensures (n + 1) * limit == n * limit + limit
  {
  }

  lemma {:induction false} NoStep(f: Fleet, steps: seq<Step>)
    ensures After(f, steps, 0) == f && Batches(steps, 0) == 0
  {
  }

  lemma {:induction false} QueueShrinks(f: Fleet, steps: seq<Step>, k: nat, e: nat, limit: nat)
    requires k <= |steps| && Waits(f, e) && WaitingRun(f, steps, e, limit)
    requires forall i :: 0 <= i < k ==> !Takes(steps[i], e)
    ensures Waits(After(f, steps, k), e)
    ensures |Ahead(After(f, steps, k), e)| + Batches(steps, k) * limit <= |Ahead(f, e)|
  {
    hide *;
    if k == 0 {
      NoStep(f, steps);
    } else {
      var g, s := After(f, steps, k - 1), steps[k - 1];
      QueueShrinks(f, steps, k - 1, e, limit);
      LastStep(f, steps, k, e, limit);
      OneMoreBatch(Batches(steps, k - 1), limit);
      WaitStep(g, s, e, limit);
    }
  }

  lemma {:induction false} WaitStep(g: Fleet, s: Step, e: nat, limit: nat)
    requires Waits(g, e) && Allowed(g, s, e, limit) && Behind(g, s, e) && !Takes(s, e)
    ensures Waits(Next(g, s), e)
    ensures |Ahead(Next(g, s), e)| + (if s.Batch? then limit else 0) <= |Ahead(g, e)|
  {
    if s.Batch? {
      BatchAdvances(g, s.ids, s.locked, e, limit);
    } else {
      OthersStayBehind(g, s, e, limit);
    }
  }

  /**
    An endpoint that is due, stays active and is not edited is claimed within floor(A / B) + 1
    ticks, A being the number of endpoints ahead of it when the wait starts. Claims, edits and new
    endpoints of others never lengthen the wait.
  */
  lemma {:induction false} BoundedWaiting(f: Fleet, steps: seq<Step>, e: nat, limit: nat)
    requires limit > 0 && Waits(f, e) && WaitingRun(f, steps, e, limit)
    requires Batches(steps, |steps|) > |Ahead(f, e)| / limit
    ensures exists i :: 0 <= i < |steps| && Takes(steps[i], e)
  {
    if forall i :: 0 <= i < |steps| ==> !Takes(steps[i], e) {
      QueueShrinks(f, steps, |steps|, e, limit);
      DivideBy(Batches(steps, |steps|), limit, |Ahead(f, e)|);
    }
  }
}
