/**
  The endpoint table: claims, edits and the overdue flag.
*/
module Endpoints {
  import opened Common
  import opened Sql

  /** A row of endpoint. The interval is in seconds; next and since are next_check_at and monitoring_since. */
  datatype Endpoint = Endpoint(user: nat, url: string, interval: nat, active: bool, next: Time, since: Time)

  /** The fields set in a PATCH request. */
  datatype Patch = Patch(url: Option<string>, interval: Option<nat>, active: Option<bool>)

  predicate Due(e: Endpoint, now: Time) {
    e.active && e.next <= now
  }

  function Claim(e: Endpoint, now: Time): Endpoint {
    e.(next := now + Micros(e.interval))
  }

  function ClaimAll(t: map<nat, Endpoint>, ids: set<nat>, now: Time): map<nat, Endpoint> {
    map id | id in t :: if id in ids then Claim(t[id], now) else t[id]
  }

  function DueIds(t: map<nat, Endpoint>, now: Time): set<nat> {
    set id | id in t && Due(t[id], now)
  }

  /**
    A batch that ORDER BY next_check_at LIMIT n FOR UPDATE SKIP LOCKED may pick: unlocked due rows,
    as many as there are up to the limit, and none later than one left behind.
  */
  ghost predicate IsBatch(t: map<nat, Endpoint>, now: Time, limit: nat, locked: set<nat>, batch: set<nat>) {
    var due := DueIds(t, now) - locked;
    && batch <= due
    && |batch| == Min(limit, |due|)
    && (forall x, y :: x in batch && y in due && y !in batch ==> t[x].next <= t[y].next)
  }

  predicate Changes<T(==)>(field: T, patch: Option<T>) {
    patch.Some? && patch.value != field
  }

  /** A changed interval or URL, or switching the endpoint on, restarts its schedule. */
  predicate Reschedules(e: Endpoint, p: Patch) {
    Changes(e.interval, p.interval) || Changes(e.url, p.url) || (Changes(e.active, p.active) && p.active == Some(true))
  }

  function Patched(e: Endpoint, p: Patch): Endpoint {
    Endpoint(e.user,
             if p.url.Some? then p.url.value else e.url,
             if p.interval.Some? then p.interval.value else e.interval,
             if p.active.Some? then p.active.value else e.active,
             e.next, e.since)
  }

  function Update(e: Endpoint, p: Patch, now: Time): Endpoint {
    if Reschedules(e, p) then Patched(e, p).(next := now, since := now) else Patched(e, p)
  }

  /** What an edit at time now leaves: the sent fields, and a restarted schedule exactly after these changes. */
  predicate Edited(e: Endpoint, v: Endpoint, p: Patch, now: Time) {
    && v.user == e.user
    && (if p.url.Some? then v.url == p.url.value else v.url == e.url)
    && (if p.interval.Some? then v.interval == p.interval.value else v.interval == e.interval)
    && (if p.active.Some? then v.active == p.active.value else v.active == e.active)
    && (if v.url != e.url || v.interval != e.interval || (v.active && !e.active)
        then v.next == now && v.since == now else v.next == e.next && v.since == e.since)
  }

  /**
    The sent fields replace the old ones. The schedule and the overdue clock restart if and only if
    the URL or the interval differs afterwards or the endpoint has been switched on; an edit that
    sends the present values, pauses the endpoint or sends nothing does not touch them.
  */
  lemma {:induction false} UpdateMeans(e: Endpoint, p: Patch, now: Time)
    ensures Edited(e, Update(e, p, now), p, now)
  {
  }

  function Created(user: nat, url: string, interval: nat, now: Time): Endpoint {
    Endpoint(user, url, interval, true, now, now)
  }

  /** When the endpoint becomes overdue: GREATEST skips the missing timestamp of an endpoint without results. */
  function Deadline(e: Endpoint, latest: Option<Time>, grace: nat): Time {
    Greatest(latest, e.since) + Micros(e.interval + grace)
  }

  predicate Overdue(e: Endpoint, latest: Option<Time>, now: Time, grace: nat) {
    e.active && now > Deadline(e, latest, grace)
  }

  lemma {:induction false} EarliestExists(t: map<nat, Endpoint>, ids: set<nat>) returns (x: nat)
    requires ids != {} && ids <= t.Keys
    ensures x in ids && forall y :: y in ids ==> t[x].next <= t[y].next
  {
    x :| x in ids;
    var rest := ids - {x};
    assert ids == rest + {x};
    if rest != {} {
      var y := EarliestExists(t, rest);
      if t[y].next < t[x].next {
        x := y;
      }
    }
  }

  ghost predicate QueuesEach(queued: seq<Job>, ids: set<nat>, t: map<nat, Endpoint>, at: Time) {
    && (forall j :: j in queued ==> j.id in ids && j.id in t && j == Job(j.id, t[j.id].url, at))
    && (forall id :: id in ids ==> exists i :: 0 <= i < |queued| && queued[i].id == id)
    && (forall i, j :: 0 <= i < j < |queued| ==> queued[i].id != queued[j].id)
  }

  lemma {:induction false} QueueOneMore(queued: seq<Job>, ids: set<nat>, t: map<nat, Endpoint>, at: Time, id: nat)
    requires QueuesEach(queued, ids, t, at) && id in t && id !in ids
    ensures QueuesEach(queued + [Job(id, t[id].url, at)], ids + {id}, t, at)
  {
    var more := queued + [Job(id, t[id].url, at)];
    forall x | x in ids + {id} ensures exists i :: 0 <= i < |more| && more[i].id == x {
      if x in ids {
        var i :| 0 <= i < |queued| && queued[i].id == x;
        assert more[i].id == x;
      } else {
        assert more[|queued|].id == x;
      }
    }
    forall i, j | 0 <= i < j < |more| ensures more[i].id != more[j].id {
      assert queued[i] in queued;
    }
  }

  /** ORDER BY next_check_at LIMIT n, with ties broken arbitrarily. */
  method PickEarliest(t: map<nat, Endpoint>, due: set<nat>, limit: nat) returns (batch: set<nat>)
    requires due <= t.Keys
    ensures batch <= due && |batch| == Min(limit, |due|)
    ensures forall x, y :: x in batch && y in due && y !in batch ==> t[x].next <= t[y].next
  {
    var left := due;
    batch := {};
    while |batch| < limit && left != {}
      invariant batch !! left && batch + left == due && |batch| <= limit
      invariant forall x, y :: x in batch && y in left ==> t[x].next <= t[y].next
      decreases left
    {
      ghost var first := EarliestExists(t, left);
      var id :| id in left && forall y :: y in left ==> t[id].next <= t[y].next;
      batch, left := batch + {id}, left - {id};
    }
    assert |due| == |batch| + |left|;
  }

  /** A queued check: the endpoint, its URL at claim time, and the probe timestamp. */
  datatype Job = Job(id: nat, url: string, at: Time)

  class Table {
    var endpoints: map<nat, Endpoint>
    var nextId: nat
    var jobs: seq<Job>

    ghost predicate Valid()
      reads this
    {
      forall id :: id in endpoints ==> id < nextId
    }

    constructor ()
      ensures Valid() && endpoints == map[] && jobs == []
    {
      endpoints, nextId, jobs := map[], 0, [];
    }

    /** One atomic UPDATE takes every due endpoint; one check is queued for each. */
    method DispatchDueChecks(probeTime: Time, now: Time)
      requires Valid()
      modifies this`endpoints, this`jobs
      ensures Valid()
      ensures endpoints == ClaimAll(old(endpoints), DueIds(old(endpoints), now), now)
      ensures endpoints.Keys == old(endpoints).Keys
      ensures forall id :: id in endpoints ==> var e := old(endpoints)[id];
        endpoints[id] == if e.active && e.next <= now then e.(next := now + Micros(e.interval)) else e
      ensures old(jobs) <= jobs
      ensures QueuesEach(jobs[|old(jobs)|..], DueIds(old(endpoints), now), old(endpoints), probeTime)
    {
      var before := endpoints;
      var rows := DueIds(endpoints, now);
      endpoints := ClaimAll(endpoints, rows, now);
      ghost var queued := [];
      var left := rows;
      while left != {}
        invariant left <= rows && jobs == old(jobs) + queued && endpoints == ClaimAll(before, rows, now)
        invariant QueuesEach(queued, rows - left, before, probeTime)
        decreases left
      {
        var id :| id in left;
        jobs := jobs + [Job(id, before[id].url, probeTime)];
        QueueOneMore(queued, rows - left, before, probeTime, id);
        queued := queued + [Job(id, before[id].url, probeTime)];
        left := left - {id};
        assert rows - left == rows - (left + {id}) + {id};
      }
      assert jobs[|old(jobs)|..] == queued && rows - left == rows;
    }

    /** The batched claim of the second dispatcher; rows locked by concurrent transactions are skipped. */
    method ClaimDue(limit: nat, locked: set<nat>, now: Time) returns (batch: set<nat>)
      requires Valid()
      modifies this`endpoints
      ensures Valid()
      ensures IsBatch(old(endpoints), now, limit, locked, batch)
      ensures endpoints == ClaimAll(old(endpoints), batch, now)
      ensures endpoints.Keys == old(endpoints).Keys
      ensures forall id :: id in batch ==> id in endpoints && id !in locked && old(endpoints)[id].active && old(endpoints)[id].next <= now
      ensures forall id :: id in endpoints ==> var e := old(endpoints)[id];
        endpoints[id] == if id in batch then e.(next := now + Micros(e.interval)) else e
    {
      batch := PickEarliest(endpoints, DueIds(endpoints, now) - locked, limit);
      endpoints := ClaimAll(endpoints, batch, now);
    }

    /** An integrity error, such as a user that does not exist, rolls back. */
    method AddEndpoint(user: nat, url: string, interval: nat, now: Time, integrityOk: bool) returns (id: Option<nat>)
      requires Valid()
      modifies this`endpoints, this`nextId
      ensures Valid() && (id.Some? <==> integrityOk) && (id.Some? ==> id.value !in old(endpoints))
      ensures endpoints == if id.Some? then old(endpoints)[id.value := Created(user, url, interval, now)] else old(endpoints)
      ensures id.Some? ==> endpoints[id.value] == Endpoint(user, url, interval, true, now, now) && Due(endpoints[id.value], now)
    {
      if !integrityOk {
        return None;
      }
      var row := nextId;
      endpoints, nextId := endpoints[row := Endpoint(user, url, interval, true, now, now)], nextId + 1;
      return Some(row);
    }

    /** Finds nothing when the endpoint does not exist or belongs to someone else. */
    method UpdateEndpoint(id: nat, user: nat, p: Patch, now: Time) returns (found: bool)
      requires Valid()
      modifies this`endpoints
      ensures Valid()
      ensures found <==> id in old(endpoints) && old(endpoints)[id].user == user
      ensures endpoints == if found then old(endpoints)[id := Update(old(endpoints)[id], p, now)] else old(endpoints)
      ensures found ==> Edited(old(endpoints)[id], endpoints[id], p, now)
    {
      if id !in endpoints || endpoints[id].user != user {
        return false;
      }
      var e := endpoints[id];
      var reschedule := false;
      if p.interval.Some? && p.interval.value != e.interval {
        e := e.(interval := p.interval.value);
        reschedule := true;
      }
      if p.url.Some? && p.url.value != e.url {
        e := e.(url := p.url.value);
        reschedule := true;
      }
      if p.active.Some? && p.active.value != e.active {
        e := e.(active := p.active.value);
        reschedule := reschedule || p.active.value;
      }
      if reschedule {
        e := e.(next := now, since := now);
      }
      endpoints := endpoints[id := e];
      return true;
    }

    method DeleteEndpoint(id: nat, user: nat) returns (found: bool)
      requires Valid()
      modifies this`endpoints
      ensures Valid()
      ensures found <==> id in old(endpoints) && old(endpoints)[id].user == user
      ensures endpoints == if found then old(endpoints) - {id} else old(endpoints)
    {
      found := id in endpoints && endpoints[id].user == user;
      if found {
        endpoints := endpoints - {id};
      }
    }
  }

  /* ---------- the gauge and the pages ---------- */

  /** An endpoint joined with the timestamp of its latest result. */
  datatype Entry = Entry(id: nat, e: Endpoint, latest: Option<Time>)

  function Flag(x: Entry, now: Time, grace: nat): nat {
    if Overdue(x.e, x.latest, now, grace) then 1 else 0
  }

  /** Overdue flags among entries lo to hi-1. */
  function Flags(s: seq<Entry>, lo: nat, hi: nat, now: Time, grace: nat): nat
    requires lo <= hi <= |s|
    decreases hi - lo
  {
    if lo == hi then 0 else Flags(s, lo, hi - 1, now, grace) + Flag(s[hi - 1], now, grace)
  }

  /** count_overdue_endpoints over the whole table. */
  function Gauge(s: seq<Entry>, now: Time, grace: nat): nat {
    Flags(s, 0, |s|, now, grace)
  }

  /** The first k entries that belong to a user, in table order. */
  function Owned(s: seq<Entry>, k: nat, user: nat): seq<Entry>
    requires k <= |s|
  {
    if k == 0 then []
    else if s[k - 1].e.user == user then Owned(s, k - 1, user) + [s[k - 1]]
    else Owned(s, k - 1, user)
  }

  /** The rows of one page: ORDER BY id LIMIT :limit OFFSET :offset. */
  function PageFlags(s: seq<Entry>, limit: nat, offset: nat, now: Time, grace: nat): nat {
    Flags(s, Min(offset, |s|), Min(offset + limit, |s|), now, grace)
  }

  /** Flags over the first n pages. */
  function PagesFlags(s: seq<Entry>, limit: nat, n: nat, now: Time, grace: nat): nat {
    if n == 0 then 0 else PagesFlags(s, limit, n - 1, now, grace) + PageFlags(s, limit, (n - 1) * limit, now, grace)
  }

  /** Flags over all pages of the first m users. */
  function UsersFlags(s: seq<Entry>, users: seq<nat>, m: nat, limit: nat, pages: nat, now: Time, grace: nat): nat
    requires m <= |users|
  {
    if m == 0 then 0
    else UsersFlags(s, users, m - 1, limit, pages, now, grace)
         + PagesFlags(Owned(s, |s|, users[m - 1]), limit, pages, now, grace)
  }

  lemma {:induction false} FlagsSplit(s: seq<Entry>, lo: nat, mid: nat, hi: nat, now: Time, grace: nat)
    requires lo <= mid <= hi <= |s|
    ensures Flags(s, lo, hi, now, grace) == Flags(s, lo, mid, now, grace) + Flags(s, mid, hi, now, grace)
    decreases hi
  {
    if mid < hi {
      FlagsSplit(s, lo, mid, hi - 1, now, grace);
    }
  }

  lemma {:induction false} PagesCover(s: seq<Entry>, limit: nat, n: nat, now: Time, grace: nat)
    ensures PagesFlags(s, limit, n, now, grace) == Flags(s, 0, Min(n * limit, |s|), now, grace)
  {
    if n > 0 {
      PagesCover(s, limit, n - 1, now, grace);
      assert (n - 1) * limit + limit == n * limit;
      FlagsSplit(s, 0, Min((n - 1) * limit, |s|), Min(n * limit, |s|), now, grace);
    } else {
      assert n * limit == 0;
    }
  }

  lemma {:induction false} FlagsPrefix(s: seq<Entry>, x: Entry, hi: nat, now: Time, grace: nat)
    requires hi <= |s|
    ensures Flags(s + [x], 0, hi, now, grace) == Flags(s, 0, hi, now, grace)
  {
    if hi > 0 {
      FlagsPrefix(s, x, hi - 1, now, grace);
    }
  }

  /** One endpoint contributes to exactly one user. */
  function OwnersFlags(s: seq<Entry>, k: nat, users: seq<nat>, m: nat, now: Time, grace: nat): nat
    requires k <= |s| && m <= |users|
  {
    if m == 0 then 0
    else OwnersFlags(s, k, users, m - 1, now, grace) + Gauge(Owned(s, k, users[m - 1]), now, grace)
  }

  lemma {:induction false} OwnersStep(s: seq<Entry>, k: nat, users: seq<nat>, m: nat, now: Time, grace: nat)
    requires 0 < k <= |s| && m <= |users|
    requires forall i, j :: 0 <= i < j < |users| ==> users[i] != users[j]
    ensures OwnersFlags(s, k, users, m, now, grace) ==
      OwnersFlags(s, k - 1, users, m, now, grace) + if s[k - 1].e.user in users[..m] then Flag(s[k - 1], now, grace) else 0
  {
    if m > 0 {
      OwnersStep(s, k, users, m - 1, now, grace);
      assert users[..m] == users[..m - 1] + [users[m - 1]];
      if s[k - 1].e.user == users[m - 1] {
        FlagsPrefix(Owned(s, k - 1, users[m - 1]), s[k - 1], |Owned(s, k - 1, users[m - 1])|, now, grace);
      }
      hide Flag;
    }
  }

  lemma {:induction false} OwnersCover(s: seq<Entry>, k: nat, users: seq<nat>, now: Time, grace: nat)
    requires k <= |s|
    requires forall i, j :: 0 <= i < j < |users| ==> users[i] != users[j]
    requires forall x :: x in s ==> x.e.user in users
    ensures OwnersFlags(s, k, users, |users|, now, grace) == Flags(s, 0, k, now, grace)
  {
    if k > 0 {
      OwnersCover(s, k - 1, users, now, grace);
      OwnersStep(s, k, users, |users|, now, grace);
      assert users[..|users|] == users && s[k - 1] in s;
    } else {
      NoneOwned(s, users, |users|, now, grace);
    }
  }

  lemma {:induction false} NoneOwned(s: seq<Entry>, users: seq<nat>, m: nat, now: Time, grace: nat)
    requires m <= |users|
    ensures OwnersFlags(s, 0, users, m, now, grace) == 0
  {
    if m > 0 {
      NoneOwned(s, users, m - 1, now, grace);
    }
  }

  lemma {:induction false} OwnedSize(s: seq<Entry>, k: nat, user: nat)
    requires k <= |s|
    ensures |Owned(s, k, user)| <= k
  {
    if k > 0 {
      OwnedSize(s, k - 1, user);
    }
  }

  lemma {:induction false} UsersArePages(s: seq<Entry>, users: seq<nat>, m: nat, limit: nat, pages: nat, now: Time, grace: nat)
    requires m <= |users| && pages * limit >= |s|
    ensures UsersFlags(s, users, m, limit, pages, now, grace) == OwnersFlags(s, |s|, users, m, now, grace)
  {
    if m > 0 {
      UsersArePages(s, users, m - 1, limit, pages, now, grace);
      PagesCover(Owned(s, |s|, users[m - 1]), limit, pages, now, grace);
      OwnedSize(s, |s|, users[m - 1]);
    }
  }

  /** Entry i is active and past its deadline. */
  predicate Late(x: Entry, now: Time, grace: nat) {
    x.e.active && now > (if x.latest.Some? && x.latest.value > x.e.since then x.latest.value else x.e.since) + Micros(x.e.interval + grace)
  }

  lemma {:induction false} FlagsCount(s: seq<Entry>, k: nat, now: Time, grace: nat)
    requires k <= |s|
    ensures Flags(s, 0, k, now, grace) == |set i | 0 <= i < k && Late(s[i], now, grace)|
  {
    if k > 0 {
      FlagsCount(s, k - 1, now, grace);
      var before := set i | 0 <= i < k - 1 && Late(s[i], now, grace);
      var after := set i | 0 <= i < k && Late(s[i], now, grace);
      assert after == if Late(s[k - 1], now, grace) then before + {k - 1} else before;
    }
  }

  /**
    The gauge is the number of endpoints that are active and later than their interval plus the
    grace period against both their latest result and the start of monitoring.
  */
  lemma {:induction false} GaugeCountsOverdue(s: seq<Entry>, now: Time, grace: nat)
    ensures Gauge(s, now, grace) == |set i | 0 <= i < |s| && Late(s[i], now, grace)|
  {
    FlagsCount(s, |s|, now, grace);
  }

  /**
    The Prometheus gauge equals the number of overdue flags that all users see on all their pages,
    for every page size that gets through the list, and both are the number of late endpoints.
  */
  lemma {:induction false} GaugeCountsAllFlags(s: seq<Entry>, users: seq<nat>, limit: nat, pages: nat, now: Time, grace: nat)
    requires forall i, j :: 0 <= i < j < |users| ==> users[i] != users[j]
    requires forall x :: x in s ==> x.e.user in users
    requires pages * limit >= |s|
    ensures UsersFlags(s, users, |users|, limit, pages, now, grace) == Gauge(s, now, grace)
    ensures Gauge(s, now, grace) == |set i | 0 <= i < |s| && Late(s[i], now, grace)|
  {
    GaugeCountsOverdue(s, now, grace);
    UsersArePages(s, users, |users|, limit, pages, now, grace);
    OwnersCover(s, |s|, users, now, grace);
  }
}
