/**
  The steps of the claim, waiting and overdue models are calls of the endpoint table: each is
  performed here on a table by the method it stands for.
*/
module TableSteps {
  import opened Common
  import opened Endpoints
  import C = Claims
  import O = Overdue
  import W = Waiting

  /* ---------- waiting ---------- */

  method PerformBatch(table: Table, ghost f: W.Fleet, limit: nat, locked: set<nat>, now: Time) returns (ghost s: W.Step)
    requires table.Valid() && table.endpoints == f.endpoints && now == f.clock
    modifies table
    ensures table.Valid() && s.Batch? && table.endpoints == W.Next(f, s).endpoints
    ensures forall e :: e !in locked ==> W.Allowed(f, s, e, limit)
  {
    var batch := table.ClaimDue(limit, locked, now);
    s := W.Batch(batch, locked);
  }

  method PerformSweep(table: Table, ghost f: W.Fleet, probe: Time, now: Time) returns (ghost s: W.Step)
    requires table.Valid() && table.endpoints == f.endpoints && now == f.clock
    modifies table
    ensures table.Valid() && s.Sweep? && table.endpoints == W.Next(f, s).endpoints
    ensures forall e, limit :: W.Allowed(f, s, e, limit)
  {
    s := W.Sweep(DueIds(table.endpoints, now));
    table.DispatchDueChecks(probe, now);
  }

  method PerformCreate(table: Table, ghost f: W.Fleet, user: nat, url: string, interval: nat, now: Time) returns (ghost s: W.Step)
    requires table.Valid() && table.endpoints == f.endpoints && now == f.clock && interval >= W.MIN_INTERVAL
    modifies table
    ensures table.Valid() && s.Create? && table.endpoints == W.Next(f, s).endpoints
    ensures forall e, limit :: W.Allowed(f, s, e, limit)
  {
    var id := table.AddEndpoint(user, url, interval, now, true);
    s := W.Create(id.value, user, url, interval);
  }

  method PerformEdit(table: Table, ghost f: W.Fleet, id: nat, user: nat, p: Patch, now: Time) returns (found: bool)
    requires table.Valid() && table.endpoints == f.endpoints && now == f.clock
    modifies table
    ensures table.Valid() && table.endpoints == if found then W.Next(f, W.Edit(id, p)).endpoints else f.endpoints
  {
    found := table.UpdateEndpoint(id, user, p, now);
  }

  /* ---------- overdue ---------- */

  function EndpointsOf(f: O.Fleet): map<nat, Endpoint> {
    map id | id in f.watches :: f.watches[id].e
  }

  method PerformDispatch(table: Table, ghost f: O.Fleet, probe: Time, now: Time)
    requires table.Valid() && table.endpoints == EndpointsOf(f) && now == f.clock
    modifies table
    ensures table.Valid() && table.endpoints == EndpointsOf(O.Next(f, O.Dispatch(probe)))
  {
    table.DispatchDueChecks(probe, now);
  }

  lemma {:induction false} BatchClaims(f: O.Fleet, probes: map<nat, Time>)
    requires probes.Keys <= DueIds(EndpointsOf(f), f.clock)
    ensures EndpointsOf(O.Next(f, O.Batch(probes))) == ClaimAll(EndpointsOf(f), probes.Keys, f.clock)
  {
  }

  /** Whatever timestamps the probes of a batch will carry. */
  method PerformOverdueBatch(table: Table, ghost f: O.Fleet, limit: nat, locked: set<nat>, now: Time) returns (batch: set<nat>)
    requires table.Valid() && table.endpoints == EndpointsOf(f) && now == f.clock
    modifies table
    ensures table.Valid()
    ensures forall probes: map<nat, Time> :: probes.Keys == batch ==> table.endpoints == EndpointsOf(O.Next(f, O.Batch(probes)))
  {
    batch := table.ClaimDue(limit, locked, now);
    assert batch <= DueIds(EndpointsOf(f), now);
    hide *;
    forall probes: map<nat, Time> | probes.Keys == batch ensures table.endpoints == EndpointsOf(O.Next(f, O.Batch(probes))) {
      BatchClaims(f, probes);
    }
  }

  method PerformOverdueEdit(table: Table, ghost f: O.Fleet, id: nat, user: nat, p: Patch, now: Time) returns (found: bool)
    requires table.Valid() && table.endpoints == EndpointsOf(f) && now == f.clock
    modifies table
    ensures table.Valid() && table.endpoints == if found then EndpointsOf(O.Next(f, O.Edit(id, p))) else EndpointsOf(f)
  {
    found := table.UpdateEndpoint(id, user, p, now);
  }

  /* ---------- claims ---------- */

  /** The next_check_at seen on the first k rows of a claim. */
  function Seen(f: C.Fleet, ids: seq<nat>, k: nat): map<nat, Time>
    requires k <= |ids| && forall id :: id in ids ==> id in f.endpoints
  {
    if k == 0 then map[] else Seen(f, ids, k - 1)[ids[k - 1] := f.endpoints[ids[k - 1]].next]
  }

  /** An open claim that has locked the first k of its rows. */
  function Locking(f: C.Fleet, t: nat, ids: seq<nat>, k: nat): C.Fleet
    requires k <= |ids| && forall id :: id in ids ==> id in f.endpoints
  {
    f.(txns := f.txns[t := C.Txn(f.clock, Seen(f, ids, k))])
  }

  /** A claim that can run undisturbed: a new transaction, and rows that are due, distinct and not locked. */
  ghost predicate Undisturbed(f: C.Fleet, t: nat, ids: seq<nat>) {
    && t !in f.txns
    && (forall id :: id in ids ==> id in f.endpoints && Due(f.endpoints[id], f.clock) && C.Unlocked(f, id))
    && (forall i, j :: 0 <= i < j < |ids| ==> ids[i] != ids[j])
  }

  lemma {:induction false} SeenKeys(f: C.Fleet, ids: seq<nat>, k: nat)
    requires k <= |ids| && forall id :: id in ids ==> id in f.endpoints
    ensures Seen(f, ids, k).Keys == set i | 0 <= i < k :: ids[i]
  {
    if k > 0 {
      SeenKeys(f, ids, k - 1);
    }
  }

  /** A claim starts by reading its clock. */
  lemma {:induction false} ClaimBegins(f: C.Fleet, t: nat, ids: seq<nat>)
    requires Undisturbed(f, t, ids)
    ensures C.Enabled(f, C.Begin(t)) && C.Next(f, C.Begin(t)) == Locking(f, t, ids, 0)
  {
  }

  /** It can then lock its rows one by one. */
  lemma {:induction false} ClaimLocks(f: C.Fleet, t: nat, ids: seq<nat>, k: nat)
    requires Undisturbed(f, t, ids) && k < |ids|
    ensures C.Enabled(Locking(f, t, ids, k), C.Lock(t, ids[k]))
    ensures C.Next(Locking(f, t, ids, k), C.Lock(t, ids[k])) == Locking(f, t, ids, k + 1)
  {
    var g := Locking(f, t, ids, k);
    SeenKeys(f, ids, k);
    assert ids[k] in ids;
    forall u | u in g.txns ensures ids[k] !in g.txns[u].seen {
      if u != t {
        assert C.Unlocked(f, ids[k]);
      }
    }
  }

  /**
    And its commit has the effect of the atomic claim of exactly these rows. So a claim of the table
    is the run Begin, one Lock per row, Commit.
  */
  lemma {:induction false} ClaimCommits(f: C.Fleet, t: nat, ids: seq<nat>)
    requires Undisturbed(f, t, ids)
    ensures var g, rows := Locking(f, t, ids, |ids|), set id | id in ids;
      && C.Enabled(g, C.Commit(t))
      && C.Next(g, C.Commit(t)).endpoints == ClaimAll(f.endpoints, rows, f.clock)
      && C.Next(g, C.Commit(t)).txns == f.txns && C.Next(g, C.Commit(t)).clock == f.clock
  {
    SeenKeys(f, ids, |ids|);
    assert (set i | 0 <= i < |ids| :: ids[i]) == set id | id in ids;
    assert f.txns[t := C.Txn(f.clock, Seen(f, ids, |ids|))] - {t} == f.txns;
  }

  /** Edits, creations and removals are the table's. */
  method PerformClaimsEdit(table: Table, ghost f: C.Fleet, id: nat, user: nat, p: Patch, now: Time) returns (found: bool)
    requires table.Valid() && table.endpoints == f.endpoints && now == f.clock
    modifies table
    ensures table.Valid() && table.endpoints == if found then C.Next(f, C.Edit(id, p)).endpoints else f.endpoints
  {
    found := table.UpdateEndpoint(id, user, p, now);
  }
}
