/**
  The fixed-window rate limiter and the Redis keys it counts in. Requests carry two times: the
  API's own reading, which selects the window and the Retry-After value, and the moment Redis runs
  the transaction, which decides expiry.
*/
module RateLimit {
  import opened Common

  /* ---------- keys ---------- */

  function Digit(d: nat): (c: char)
    requires d < 10
    ensures c != ':'
  {
    "0123456789"[d]
  }

  /** A window number in decimal. */
  function Digits(n: nat): (s: string)
    ensures s != [] && ':' !in s
  {
    if n < 10 then [Digit(n)] else Digits(n / 10) + [Digit(n % 10)]
  }

  function KeyOf(name: string, identity: string, window: nat): string {
    "ratelimit:" + name + ":" + identity + ":" + Digits(window)
  }

  lemma {:induction false} DigitsDiffer(a: nat, b: nat)
    requires Digits(a) == Digits(b)
    ensures a == b
  {
    var s := Digits(a);
    LastDigit(a);
    LastDigit(b);
    if |s| > 1 {
      DigitsDiffer(a / 10, b / 10);
    }
  }

  lemma {:induction false} LastDigit(n: nat)
    ensures var s := Digits(n);
      && s[|s| - 1] == Digit(n % 10)
      && (|s| > 1 ==> n >= 10 && s[..|s| - 1] == Digits(n / 10))
      && (|s| == 1 ==> n < 10)
      && (forall d :: 0 <= d < 10 && Digit(d) == Digit(n % 10) ==> d == n % 10)
  {
  }

  lemma {:induction false} SeparatorInside(a: string, x: string, b: string, y: string, c: char)
    requires a + [c] + x == b + [c] + y
    ensures |a| < |b| ==> c in b && c in x
  {
    var s, t := a + [c] + x, b + [c] + y;
    if |a| < |b| {
      assert s[|a|] == c && t[|a|] == b[|a|];
      assert t[|b|] == c && s[|b|] == x[|b| - |a| - 1];
    }
  }

  /** A string splits in one way at a separator that is missing from both heads or from both tails. */
  lemma {:induction false} SplitAt(a: string, x: string, b: string, y: string, c: char)
    requires a + [c] + x == b + [c] + y && ((c !in a && c !in b) || (c !in x && c !in y))
    ensures a == b && x == y
  {
    SeparatorInside(a, x, b, y, c);
    SeparatorInside(b, y, a, x, c);
    var s, t := a + [c] + x, b + [c] + y;
    assert a == s[..|a|] && b == t[..|b|] && x == s[|a| + 1..] && y == t[|b| + 1..];
  }

  /**
    Two requests share a counter only if they agree on the limit's name, the identity and the
    window, whatever colons the identity contains (IPv6 addresses do).
  */
  lemma {:induction false} KeysDiffer(n: string, i: string, k: nat, m: string, j: string, l: nat)
    requires ':' !in n && ':' !in m && KeyOf(n, i, k) == KeyOf(m, j, l)
    ensures n == m && i == j && k == l
  {
    var prefix := "ratelimit:";
    KeyShape(n, i, k);
    KeyShape(m, j, l);
    SplitAt(n, i + ":" + Digits(k), m, j + ":" + Digits(l), ':');
    SplitAt(i, Digits(k), j, Digits(l), ':');
    DigitsDiffer(k, l);
  }

  lemma {:induction false} KeyShape(n: string, i: string, k: nat)
    ensures KeyOf(n, i, k)[|"ratelimit:"|..] == n + [':'] + (i + ":" + Digits(k))
  {
  }

  /* ---------- one request ---------- */

  /** A Redis value: a count and, once EXPIRE has run, the time at which it disappears. */
  datatype Counter = Counter(count: nat, expiresAt: Option<Time>)

  /** A lost reply raises RedisError; the transaction may have been applied or not. */
  datatype Reply = Answered | Lost(applied: bool)

  /** A window length in seconds. */
  type Positive = n: int | n > 0 witness 1

  datatype Request = Request(name: string, identity: string, limit: int, window: Positive, stamp: nat, at: Time, reply: Reply)

  datatype Verdict = Admitted | FailedOpen | Limited(retryAfter: int)

  /** int(now // window_seconds) */
  function WindowAt(t: nat, window: Positive): nat {
    Seconds(t) / window
  }

  function Key(r: Request): string {
    KeyOf(r.name, r.identity, WindowAt(r.stamp, r.window))
  }

  predicate Applies(r: Request) {
    r.reply != Lost(false)
  }

  predicate Live(store: map<string, Counter>, key: string, at: Time) {
    key in store && (store[key].expiresAt.Some? ==> at < store[key].expiresAt.value)
  }

  /** The count stored under a key at a given time; an expired key counts nothing. */
  function Hits(store: map<string, Counter>, key: string, at: Time): nat {
    if Live(store, key, at) then store[key].count else 0
  }

  function Executed(store: map<string, Counter>, r: Request): map<string, Counter> {
    if Applies(r) then store[Key(r) := Counter(Hits(store, Key(r), r.at) + 1, Some(r.at + Micros(r.window)))] else store
  }

  function RetryAfter(r: Request): int {
    r.window - Seconds(r.stamp) % r.window
  }

  function Judge(store: map<string, Counter>, r: Request): Verdict {
    if r.reply.Lost? then FailedOpen
    else if Hits(store, Key(r), r.at) < r.limit then Admitted
    else Limited(RetryAfter(r))
  }

  /**
    A lost reply lets the request through. Otherwise a request that finds less than the limit is
    admitted, and any other is told to wait between one second and one window: as long as it takes
    to get into the next window, and no second longer.
  */
  predicate Answers(v: Verdict, r: Request, found: nat) {
    && (r.reply.Lost? <==> v.FailedOpen?)
    && (r.reply.Answered? && found + 1 <= r.limit ==> v.Admitted?)
    && (r.reply.Answered? && found + 1 > r.limit ==> v.Limited?)
    && (v.Limited? ==>
          && 1 <= v.retryAfter <= r.window
          && WindowAt(r.stamp + Micros(v.retryAfter), r.window) == WindowAt(r.stamp, r.window) + 1
          && WindowAt(r.stamp + Micros(v.retryAfter - 1), r.window) == WindowAt(r.stamp, r.window))
  }

  lemma {:induction false} JudgeMeans(store: map<string, Counter>, r: Request)
    ensures Answers(Judge(store, r), r, Hits(store, Key(r), r.at))
  {
    RetryAfterIsExact(r);
    hide WindowAt, Key, Hits, RetryAfter;
  }

  class Redis {
    var store: map<string, Counter>

    constructor ()
      ensures store == map[]
    {
      store := map[];
    }

    /** INCR keeps the expiry of a live key and starts a new key at one, without an expiry. */
    method Incr(key: string, at: Time) returns (count: nat)
      modifies this
      ensures count == Hits(old(store), key, at) + 1
      ensures store == old(store)[key := Counter(count, if Live(old(store), key, at) then old(store)[key].expiresAt else None)]
    {
      if Live(store, key, at) {
        store := store[key := store[key].(count := store[key].count + 1)];
      } else {
        store := store[key := Counter(1, None)];
      }
      count := store[key].count;
    }

    method Expire(key: string, seconds: nat, at: Time)
      requires key in store
      modifies this
      ensures store == old(store)[key := Counter(old(store)[key].count, Some(at + Micros(seconds)))]
    {
      store := store[key := store[key].(expiresAt := Some(at + Micros(seconds)))];
    }

    /** enforce: INCR and EXPIRE apply together or not at all, and a lost reply lets the request through. */
    method Enforce(r: Request) returns (v: Verdict)
      modifies this
      ensures store == Executed(old(store), r)
      ensures v == Judge(old(store), r)
      ensures Answers(v, r, Hits(old(store), Key(r), r.at))
      ensures r.reply == Lost(false) ==> store == old(store)
      ensures r.reply != Lost(false) ==> var key := KeyOf(r.name, r.identity, WindowAt(r.stamp, r.window));
        store == old(store)[key := Counter(Hits(old(store), key, r.at) + 1, Some(r.at + Micros(r.window)))]
    {
      JudgeMeans(store, r);
      var window := Seconds(r.stamp) / r.window;
      var key := KeyOf(r.name, r.identity, window);
      var count := 0;
      if Applies(r) {
        count := Incr(key, r.at);
        Expire(key, r.window, r.at);
      }
      if r.reply.Lost? {
        return FailedOpen;
      }
      if count > r.limit {
        return Limited(r.window - Seconds(r.stamp) % r.window);
      }
      return Admitted;
    }
  }

  /* ---------- window arithmetic ---------- */

  lemma {:induction false} WindowBounds(t: nat, window: Positive)
    ensures WindowAt(t, window) * window <= Seconds(t) < WindowAt(t, window) * window + window
  {
  }

  lemma {:induction false} WindowIs(t: nat, window: Positive, k: nat)
    requires k * window <= Seconds(t) < k * window + window
    ensures WindowAt(t, window) == k
  {
    DivideBy(k, window, Seconds(t));
    WindowBounds(t, window);
    if WindowAt(t, window) >= k + 1 {
      GrowsWith(k + 1, WindowAt(t, window), window);
    }
  }

  /**
    Retry-After is between one second and one window, waiting that long always lands in the next
    window, and waiting a second less never does.
  */
  lemma {:induction false} RetryAfterIsExact(r: Request)
    ensures 1 <= RetryAfter(r) <= r.window
    ensures WindowAt(r.stamp + Micros(RetryAfter(r)), r.window) == WindowAt(r.stamp, r.window) + 1
    ensures WindowAt(r.stamp + Micros(RetryAfter(r) - 1), r.window) == WindowAt(r.stamp, r.window)
  {
    var k, s := WindowAt(r.stamp, r.window), Seconds(r.stamp);
    assert s == k * r.window + s % r.window;
    var t := r.stamp + Micros(RetryAfter(r));
    assert Seconds(t) == s + RetryAfter(r);
    assert (k + 1) * r.window == k * r.window + r.window;
    WindowIs(t, r.window, k + 1);
    WindowIs(r.stamp + Micros(RetryAfter(r) - 1), r.window, k);
  }

  /** A key written in its own window outlives that window. */
  lemma {:induction false} KeyOutlivesWindow(a: nat, b: nat, window: Positive)
    requires WindowAt(a, window) == WindowAt(b, window)
    ensures b < a + Micros(window)
  {
  }

  /* ---------- runs ---------- */

  function After(rs: seq<Request>, n: nat): map<string, Counter>
    requires n <= |rs|
  {
    if n == 0 then map[] else Executed(After(rs, n - 1), rs[n - 1])
  }

  /** One limit: every request under the name uses the same limit and window; names contain no colon. */
  ghost predicate Policy(rs: seq<Request>, name: string, limit: int, window: Positive) {
    && ':' !in name
    && (forall i :: 0 <= i < |rs| ==> ':' !in rs[i].name)
    && (forall i :: 0 <= i < |rs| && rs[i].name == name ==> rs[i].limit == limit && rs[i].window == window)
  }

  /** What one counter is for: a limit, an identity and the number of a window. */
  datatype Bucket = Bucket(name: string, identity: string, k: nat)

  function BucketKey(b: Bucket): string {
    KeyOf(b.name, b.identity, b.k)
  }

  function BucketOf(r: Request): Bucket {
    Bucket(r.name, r.identity, WindowAt(r.stamp, r.window))
  }

  predicate Counted(r: Request, b: Bucket) {
    BucketOf(r) == b && Applies(r)
  }

  lemma {:induction false} OwnKey(r: Request, b: Bucket)
    requires ':' !in r.name && ':' !in b.name
    ensures Key(r) == BucketKey(b) <==> BucketOf(r) == b
  {
    hide KeyOf;
    if Key(r) == BucketKey(b) {
      KeysDiffer(r.name, r.identity, WindowAt(r.stamp, r.window), b.name, b.identity, b.k);
    }
  }

  /** Requests that Redis counted in the bucket, among the first n. */
  function Applied(rs: seq<Request>, n: nat, b: Bucket): nat
    requires n <= |rs|
  {
    if n == 0 then 0 else Applied(rs, n - 1, b) + if Counted(rs[n - 1], b) then 1 else 0
  }

  /** When Redis ran the newest of them. */
  function LastHit(rs: seq<Request>, n: nat, b: Bucket): Option<Time>
    requires n <= |rs|
  {
    if n == 0 then None else if Counted(rs[n - 1], b) then Some(rs[n - 1].at) else LastHit(rs, n - 1, b)
  }

  /** If request i is counted in the bucket, Redis runs it before the key set by its predecessor expires. */
  predicate FindsKey(rs: seq<Request>, i: nat, b: Bucket, window: Positive)
    requires i < |rs|
  {
    Counted(rs[i], b) && LastHit(rs, i, b).Some? ==> rs[i].at < LastHit(rs, i, b).value + Micros(window)
  }

  ghost predicate Unbroken(rs: seq<Request>, n: nat, b: Bucket, window: Positive)
    requires n <= |rs|
  {
    forall i :: 0 <= i < n ==> FindsKey(rs, i, b, window)
  }

  function StoredCount(store: map<string, Counter>, b: Bucket): nat {
    if BucketKey(b) in store then store[BucketKey(b)].count else 0
  }

  /** A request changes the counter of its own bucket only. */
  lemma {:induction false} CounterStep(store: map<string, Counter>, r: Request, b: Bucket)
    requires ':' !in r.name && ':' !in b.name
    ensures var key, next := BucketKey(b), Executed(store, r);
      if Counted(r, b) then key in next && next[key] == Counter(Hits(store, key, r.at) + 1, Some(r.at + Micros(r.window)))
      else (key in next <==> key in store) && (key in store ==> next[key] == store[key])
  {
    OwnKey(r, b);
    hide KeyOf, WindowAt, Hits;
  }

  /** The counter after n requests: absent, or last touched by the newest counted request. */
  ghost predicate CounterIs(store: map<string, Counter>, b: Bucket, last: Option<Time>, applied: nat, unbroken: bool, window: Positive) {
    && (BucketKey(b) in store <==> last.Some?)
    && (last.None? ==> applied == 0)
    && (last.Some? ==> store[BucketKey(b)].count >= 1 && store[BucketKey(b)].expiresAt == Some(last.value + Micros(window)))
    && StoredCount(store, b) <= applied
    && (StoredCount(store, b) == applied <==> unbroken)
  }

  lemma {:induction false} NoRequest(rs: seq<Request>, b: Bucket, window: Positive)
    ensures CounterIs(After(rs, 0), b, LastHit(rs, 0, b), Applied(rs, 0, b), Unbroken(rs, 0, b, window), window)
  {
  }

  lemma {:induction false} LastRequest(rs: seq<Request>, n: nat, b: Bucket, limit: int, window: Positive)
    requires 0 < n <= |rs| && Policy(rs, b.name, limit, window)
    ensures var r := rs[n - 1];
      && ':' !in r.name && ':' !in b.name
      && (Counted(r, b) ==> r.limit == limit && r.window == window)
      && After(rs, n) == Executed(After(rs, n - 1), r)
      && Applied(rs, n, b) == Applied(rs, n - 1, b) + (if Counted(r, b) then 1 else 0)
      && LastHit(rs, n, b) == (if Counted(r, b) then Some(r.at) else LastHit(rs, n - 1, b))
      && (Unbroken(rs, n, b, window) <==> Unbroken(rs, n - 1, b, window) && FindsKey(rs, n - 1, b, window))
  {
    hide Executed, FindsKey, Applies, WindowAt;
  }

  lemma {:induction false} CounterFollows(rs: seq<Request>, n: nat, b: Bucket, limit: int, window: Positive)
    requires n <= |rs| && Policy(rs, b.name, limit, window)
    ensures CounterIs(After(rs, n), b, LastHit(rs, n, b), Applied(rs, n, b), Unbroken(rs, n, b, window), window)
  {
    hide *;
    if n == 0 {
      NoRequest(rs, b, window);
    } else {
      LastRequest(rs, n, b, limit, window);
      CounterFollows(rs, n - 1, b, limit, window);
      CounterNext(rs, n - 1, After(rs, n - 1), b, Applied(rs, n - 1, b), Unbroken(rs, n - 1, b, window), window);
    }
  }

  lemma {:induction false} CounterNext(rs: seq<Request>, i: nat, store: map<string, Counter>, b: Bucket, applied: nat, unbroken: bool, window: Positive)
    requires i < |rs| && ':' !in rs[i].name && ':' !in b.name && (Counted(rs[i], b) ==> rs[i].window == window)
    requires CounterIs(store, b, LastHit(rs, i, b), applied, unbroken, window)
    ensures CounterIs(Executed(store, rs[i]), b, if Counted(rs[i], b) then Some(rs[i].at) else LastHit(rs, i, b),
                      applied + if Counted(rs[i], b) then 1 else 0, unbroken && FindsKey(rs, i, b, window), window)
  {
    CounterStep(store, rs[i], b);
    hide BucketKey, Counted, LastHit, Executed;
  }

  /**
    The exact condition for a counter to count: the stored count never exceeds the number of
    requests counted in the bucket, and it equals that number if and only if each of them found the
    key that its predecessor had set.
  */
  lemma {:induction false} CountIsExact(rs: seq<Request>, n: nat, b: Bucket, limit: int, window: Positive)
    requires n <= |rs| && Policy(rs, b.name, limit, window)
    ensures StoredCount(After(rs, n), b) <= Applied(rs, n, b)
    ensures StoredCount(After(rs, n), b) == Applied(rs, n, b) <==> Unbroken(rs, n, b, window)
  {
    hide After, Applied, Unbroken, StoredCount;
    CounterFollows(rs, n, b, limit, window);
  }

  /** What the transaction of request i finds: the stored count, or nothing once the key has expired. */
  lemma {:induction false} RequestFinds(rs: seq<Request>, i: nat, b: Bucket, limit: int, window: Positive)
    requires i < |rs| && Policy(rs, b.name, limit, window) && Counted(rs[i], b)
    ensures Hits(After(rs, i), BucketKey(b), rs[i].at) == if FindsKey(rs, i, b, window) then StoredCount(After(rs, i), b) else 0
    ensures !FindsKey(rs, i, b, window) ==> Applied(rs, i, b) > 0
  {
    hide After, Applied, LastHit, BucketKey, Counted, Unbroken;
    CounterFollows(rs, i, b, limit, window);
  }

  /** While no key expired early, the verdict on a request depends only on how many came before it in its bucket. */
  lemma {:induction false} VerdictIsFair(rs: seq<Request>, i: nat, limit: int, window: Positive)
    requires i < |rs| && Policy(rs, rs[i].name, limit, window) && Unbroken(rs, i + 1, BucketOf(rs[i]), window)
    ensures var before := Applied(rs, i, BucketOf(rs[i]));
      && (Judge(After(rs, i), rs[i]) == Admitted <==> rs[i].reply == Answered && before < limit)
      && (Judge(After(rs, i), rs[i]).Limited? <==> rs[i].reply == Answered && before >= limit)
  {
    var r, b := rs[i], BucketOf(rs[i]);
    hide KeyOf, WindowAt, Hits, Executed, After, Applied, LastHit;
    if Applies(r) {
      assert FindsKey(rs, i, b, window) && Unbroken(rs, i, b, window);
      RequestFinds(rs, i, b, limit, window);
      CountIsExact(rs, i, b, limit, window);
      assert BucketKey(b) == Key(r);
    }
  }

  /* ---------- admissions ---------- */

  /** Requests that Redis answered and admitted, among the first n. */
  function Admissions(rs: seq<Request>, n: nat, b: Bucket): nat
    requires n <= |rs|
  {
    if n == 0 then 0
    else Admissions(rs, n - 1, b) + if BucketOf(rs[n - 1]) == b && Judge(After(rs, n - 1), rs[n - 1]) == Admitted then 1 else 0
  }

  /** Requests that used up an admission although their reply was lost. */
  function Spent(rs: seq<Request>, n: nat, b: Bucket): nat
    requires n <= |rs|
  {
    if n == 0 then 0
    else
      Spent(rs, n - 1, b)
      + if BucketOf(rs[n - 1]) == b && rs[n - 1].reply == Lost(true) && Hits(After(rs, n - 1), BucketKey(b), rs[n - 1].at) < rs[n - 1].limit
        then 1 else 0
  }

  function Used(rs: seq<Request>, n: nat, b: Bucket): nat
    requires n <= |rs|
  {
    Admissions(rs, n, b) + Spent(rs, n, b)
  }

  lemma {:induction false} UsedStep(rs: seq<Request>, n: nat, b: Bucket)
    requires 0 < n <= |rs|
    ensures var r := rs[n - 1];
      Used(rs, n, b) == Used(rs, n - 1, b) +
        if Counted(r, b) && Hits(After(rs, n - 1), BucketKey(b), r.at) < r.limit then 1 else 0
  {
    hide KeyOf, WindowAt, Hits, After;
  }

  /** The arithmetic of one request: used and applied so far, the stored count, and whether the key was found. */
  lemma {:induction false} OneAdmission(used: nat, applied: nat, stored: nat, unbroken: bool, found: bool, limit: int)
    requires stored <= applied && (stored == applied <==> unbroken) && (!found ==> applied > 0)
    requires applied <= limit ==> used == applied
    requires limit <= 0 ==> used == 0
    requires applied > limit > 0 ==> (unbroken ==> used == limit) && (!unbroken ==> used > limit)
    ensures var next := used + if (if found then stored else 0) < limit then 1 else 0;
      && (applied + 1 <= limit ==> next == applied + 1)
      && (limit <= 0 ==> next == 0)
      && (applied + 1 > limit > 0 ==> (unbroken && found ==> next == limit) && (!(unbroken && found) ==> next > limit))
  {
  }

  lemma {:induction false} UsedIs(rs: seq<Request>, n: nat, b: Bucket, limit: int, window: Positive)
    requires n <= |rs| && Policy(rs, b.name, limit, window)
    ensures Applied(rs, n, b) <= limit ==> Used(rs, n, b) == Applied(rs, n, b)
    ensures limit <= 0 ==> Used(rs, n, b) == 0
    ensures Applied(rs, n, b) > limit > 0 ==>
      (Unbroken(rs, n, b, window) ==> Used(rs, n, b) == limit) && (!Unbroken(rs, n, b, window) ==> Used(rs, n, b) > limit)
  {
    if n > 0 {
      UsedIs(rs, n - 1, b, limit, window);
      LastRequest(rs, n, b, limit, window);
      UsedStep(rs, n, b);
      hide *;
      if Counted(rs[n - 1], b) {
        RequestFinds(rs, n - 1, b, limit, window);
        CountIsExact(rs, n - 1, b, limit, window);
        OneAdmission(Used(rs, n - 1, b), Applied(rs, n - 1, b), StoredCount(After(rs, n - 1), b),
                     Unbroken(rs, n - 1, b, window), FindsKey(rs, n - 1, b, window), limit);
      } else {
        NotCounted(rs, n - 1, b, window);
      }
    }
  }

  lemma {:induction false} NotCounted(rs: seq<Request>, i: nat, b: Bucket, window: Positive)
    requires i < |rs| && !Counted(rs[i], b)
    ensures FindsKey(rs, i, b, window)
  {
  }

  /**
    The exact condition for the limit to hold in a window: admissions, with those that lost replies
    used up, number min(requests, limit), and do not exceed the limit, if and only if no counted
    request came after the key had expired, or there were no more requests than the limit allows
    anyway, or the limit allows none.
  */
  lemma {:induction false} AdmissionsAreExact(rs: seq<Request>, n: nat, b: Bucket, limit: int, window: Positive)
    requires n <= |rs| && Policy(rs, b.name, limit, window)
    ensures var kept := Unbroken(rs, n, b, window) || Applied(rs, n, b) <= limit || limit <= 0;
      && (Used(rs, n, b) == Min(Applied(rs, n, b), Max(limit, 0)) <==> kept)
      && (Used(rs, n, b) <= Max(limit, 0) <==> kept)
  {
    hide Unbroken, Used, Applied;
    UsedIs(rs, n, b, limit, window);
  }

  /* ---------- requests that run within their window ---------- */

  /** Redis runs the transaction before the window of the request's own clock reading is over. */
  predicate Punctual(r: Request) {
    r.stamp <= r.at && WindowAt(r.at, r.window) == WindowAt(r.stamp, r.window)
  }

  ghost predicate AllPunctual(rs: seq<Request>) {
    forall i :: 0 <= i < |rs| ==> Punctual(rs[i])
  }

  lemma {:induction false} LastHitIsInWindow(rs: seq<Request>, n: nat, b: Bucket, limit: int, window: Positive)
    requires n <= |rs| && Policy(rs, b.name, limit, window) && AllPunctual(rs)
    ensures LastHit(rs, n, b).Some? ==> LastHit(rs, n, b).value >= 0 && WindowAt(LastHit(rs, n, b).value, window) == b.k
  {
    if n > 0 {
      LastHitIsInWindow(rs, n - 1, b, limit, window);
      assert Punctual(rs[n - 1]);
    }
  }

  /** A key never expires before its own window ends, so punctual requests never find it gone. */
  lemma {:induction false} PunctualIsUnbroken(rs: seq<Request>, n: nat, b: Bucket, limit: int, window: Positive)
    requires n <= |rs| && Policy(rs, b.name, limit, window) && AllPunctual(rs)
    ensures Unbroken(rs, n, b, window)
  {
    forall i | 0 <= i < n ensures FindsKey(rs, i, b, window) {
      LastHitIsInWindow(rs, i, b, limit, window);
      assert Punctual(rs[i]);
      hide WindowAt, LastHit;
      if Counted(rs[i], b) && LastHit(rs, i, b).Some? {
        KeyOutlivesWindow(LastHit(rs, i, b).value, rs[i].at, window);
      }
    }
  }

  /** At every moment of a window, the live count is the number of requests counted in it so far. */
  lemma {:induction false} CountInWindow(rs: seq<Request>, n: nat, b: Bucket, limit: int, window: Positive, t: nat)
    requires n <= |rs| && Policy(rs, b.name, limit, window) && AllPunctual(rs) && WindowAt(t, window) == b.k
    ensures Hits(After(rs, n), BucketKey(b), t) == Applied(rs, n, b)
  {
    CounterFollows(rs, n, b, limit, window);
    LastHitIsInWindow(rs, n, b, limit, window);
    PunctualIsUnbroken(rs, n, b, limit, window);
    hide After, Applied, LastHit, BucketKey, Unbroken, WindowAt, AllPunctual, Policy;
    if LastHit(rs, n, b).Some? {
      KeyOutlivesWindow(LastHit(rs, n, b).value, t, window);
    }
  }

  /** Admissions of the identity by requests that ran in the half-open interval from one time to another. */
  function AdmissionsBetween(rs: seq<Request>, n: nat, name: string, identity: string, from: Time, to: Time): nat
    requires n <= |rs|
  {
    if n == 0 then 0
    else
      AdmissionsBetween(rs, n - 1, name, identity, from, to)
      + if rs[n - 1].name == name && rs[n - 1].identity == identity && from <= rs[n - 1].at < to && Judge(After(rs, n - 1), rs[n - 1]) == Admitted
        then 1 else 0
  }

  /** An interval as long as a window touches at most two windows. */
  lemma {:induction false} TwoWindows(from: nat, t: nat, window: Positive)
    requires from <= t < from + Micros(window)
    ensures WindowAt(t, window) == WindowAt(from, window) || WindowAt(t, window) == WindowAt(from, window) + 1
  {
    var k := WindowAt(from, window);
    WindowBounds(from, window);
    assert Seconds(from) <= Seconds(t) <= Seconds(from) + window;
    assert (k + 1) * window == k * window + window;
    if Seconds(t) < k * window + window {
      WindowIs(t, window, k);
    } else {
      WindowIs(t, window, k + 1);
    }
  }

  lemma {:induction false} SplitBetweenWindows(rs: seq<Request>, n: nat, name: string, identity: string, limit: int, window: Positive, from: nat)
    requires n <= |rs| && Policy(rs, name, limit, window) && AllPunctual(rs)
    ensures var k := WindowAt(from, window);
      AdmissionsBetween(rs, n, name, identity, from, from + Micros(window)) <=
      Admissions(rs, n, Bucket(name, identity, k)) + Admissions(rs, n, Bucket(name, identity, k + 1))
  {
    if n > 0 {
      var r := rs[n - 1];
      SplitBetweenWindows(rs, n - 1, name, identity, limit, window, from);
      if r.name == name && from <= r.at < from + Micros(window) {
        assert Punctual(r);
        TwoWindows(from, r.at, window);
      }
      hide KeyOf, WindowAt, Hits, Executed, Judge, Punctual;
    }
  }

  /**
    While Redis answers before the request's window ends, an identity gets at most limit admissions
    per window and at most twice that in any interval as long as the window.
  */
  lemma {:induction false} AdmissionsAreBounded(rs: seq<Request>, name: string, identity: string, limit: int, window: Positive, k: nat, from: nat)
    requires Policy(rs, name, limit, window) && AllPunctual(rs)
    ensures Admissions(rs, |rs|, Bucket(name, identity, k)) <= Max(limit, 0)
    ensures AdmissionsBetween(rs, |rs|, name, identity, from, from + Micros(window)) <= 2 * Max(limit, 0)
  {
    hide AdmissionsBetween, Admissions, Spent, Applied, WindowAt;
    var w := WindowAt(from, window);
    WindowLimit(rs, Bucket(name, identity, k), limit, window);
    WindowLimit(rs, Bucket(name, identity, w), limit, window);
    WindowLimit(rs, Bucket(name, identity, w + 1), limit, window);
    SplitBetweenWindows(rs, |rs|, name, identity, limit, window, from);
  }

  lemma {:induction false} WindowLimit(rs: seq<Request>, b: Bucket, limit: int, window: Positive)
    requires Policy(rs, b.name, limit, window) && AllPunctual(rs)
    ensures Admissions(rs, |rs|, b) <= Max(limit, 0)
  {
    hide Admissions, Spent, Applied, Unbroken, Policy, AllPunctual;
    PunctualIsUnbroken(rs, |rs|, b, limit, window);
    AdmissionsAreExact(rs, |rs|, b, limit, window);
  }

  /**
    A run that breaks the limit: a transaction that Redis runs a second after the key expired, so
    that a limit of one admits two requests of the same window.
  */
  lemma {:induction false} LateRequestRestartsCount(name: string, identity: string) returns (rs: seq<Request>)
    requires ':' !in name
    ensures Policy(rs, name, 1, 60)
    ensures |rs| == 2 && !Unbroken(rs, 2, Bucket(name, identity, 0), 60)
    ensures Admissions(rs, 2, Bucket(name, identity, 0)) == 2
  {
    rs := [Request(name, identity, 1, 60, 0, 0, Answered), Request(name, identity, 1, 60, 59_000_000, 61_000_000, Answered)];
    var b := Bucket(name, identity, 0);
    assert WindowAt(59_000_000, 60) == 0 && WindowAt(0, 60) == 0;
    hide KeyOf;
    assert LastHit(rs, 0, b) == None && LastHit(rs, 1, b) == Some(0);
    assert Applied(rs, 0, b) == 0 && Applied(rs, 1, b) == 1 && Applied(rs, 2, b) == 2;
    assert !FindsKey(rs, 1, b, 60);
    hide FindsKey, LastHit, Applied, Admissions, Spent, WindowAt;
    UsedIs(rs, 2, b, 1, 60);
    NothingSpent(rs, 2, b);
    AtMostAll(rs, 2, b);
  }

  lemma {:induction false} NothingSpent(rs: seq<Request>, n: nat, b: Bucket)
    requires n <= |rs| && forall i :: 0 <= i < |rs| ==> rs[i].reply == Answered
    ensures Spent(rs, n, b) == 0
  {
    if n > 0 {
      NothingSpent(rs, n - 1, b);
    }
  }

  lemma {:induction false} AtMostAll(rs: seq<Request>, n: nat, b: Bucket)
    requires n <= |rs|
    ensures Admissions(rs, n, b) <= n
  {
    if n > 0 {
      AtMostAll(rs, n - 1, b);
    }
  }
}
