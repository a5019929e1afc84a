/**
  The life of one alert configuration: what a stream of health checks and delivery failures does
  to its streak counter and its alert_sent flag, and which notices it queues.
*/
module AlertMachine {
  import opened Common
  import opened Incidents

  /** What reaches one configuration: a check while it is active, or a down notice that was given up on. */
  datatype Obs = Saw(up: bool, at: Time, threshold: int) | Undelivered

  datatype Cell = Cell(streak: nat, sent: bool)

  datatype Notice = Notice(isRecovery: bool, at: Time)

  const FRESH := Cell(0, false)

  /** The new streak and flag. */
  function Next(c: Cell, o: Obs): Cell {
    match o
    case Undelivered => c.(sent := false)
    case Saw(up, _, threshold) =>
      if up then Cell(0, false)
      else Cell(c.streak + 1, c.sent || c.streak + 1 >= threshold)
  }

  /** The notice queued on the way, if any. */
  function Queued(c: Cell, o: Obs): seq<Notice> {
    match o
    case Undelivered => []
    case Saw(up, at, threshold) =>
      if up then (if c.sent then [Notice(true, at)] else [])
      else if c.streak + 1 >= threshold && !c.sent then [Notice(false, at)]
      else []
  }

  function CellAfter(t: seq<Obs>, k: nat): Cell
    requires k <= |t|
  {
    if k == 0 then FRESH else Next(CellAfter(t, k - 1), t[k - 1])
  }

  function Notices(t: seq<Obs>, k: nat): seq<Notice>
    requires k <= |t|
  {
    if k == 0 then [] else Notices(t, k - 1) + Queued(CellAfter(t, k - 1), t[k - 1])
  }

  /** Later observations do not change what happened before them. */
  lemma {:induction false} PrefixDecides(t: seq<Obs>, u: seq<Obs>, k: nat)
    requires k <= |t| && k <= |u| && forall i :: 0 <= i < k ==> t[i] == u[i]
    ensures CellAfter(t, k) == CellAfter(u, k) && Notices(t, k) == Notices(u, k)
  {
    if k > 0 {
      PrefixDecides(t, u, k - 1);
    }
  }

  /* ---------- the ledger ---------- */

  function Count(notices: seq<Notice>, isRecovery: bool): nat {
    if notices == [] then 0
    else Count(notices[..|notices| - 1], isRecovery) + if notices[|notices| - 1].isRecovery == isRecovery then 1 else 0
  }

  lemma {:induction false} CountAppend(notices: seq<Notice>, q: seq<Notice>, isRecovery: bool)
    requires |q| <= 1
    ensures Count(notices + q, isRecovery) == Count(notices, isRecovery) + if q != [] && q[0].isRecovery == isRecovery then 1 else 0
  {
    if q == [] {
      assert notices + q == notices;
    } else {
      assert (notices + q)[..|notices|] == notices;
    }
  }

  lemma {:induction false} CountConcat(a: seq<Notice>, b: seq<Notice>, isRecovery: bool)
    ensures Count(a + b, isRecovery) == Count(a, isRecovery) + Count(b, isRecovery)
  {
    if b == [] {
      assert a + b == a;
    } else {
      assert (a + b)[..|a + b| - 1] == a + b[..|b| - 1];
      CountConcat(a, b[..|b| - 1], isRecovery);
    }
  }

  predicate Reset(c: Cell, o: Obs) {
    o.Undelivered? && c.sent
  }

  /** Delivery failures that found the flag set and cleared it. A late failure after a recovery finds it clear. */
  function Resets(t: seq<Obs>, k: nat): nat
    requires k <= |t|
  {
    if k == 0 then 0 else Resets(t, k - 1) + if Reset(CellAfter(t, k - 1), t[k - 1]) then 1 else 0
  }

  /**
    Every down notice is accounted for: it was answered by a recovery, written off by a delivery
    failure, or is the one the flag still stands for. Thresholds may change at any time.
  */
  lemma {:induction false} Ledger(t: seq<Obs>, k: nat)
    requires k <= |t|
    ensures Count(Notices(t, k), false) ==
      Count(Notices(t, k), true) + Resets(t, k) + if CellAfter(t, k).sent then 1 else 0
  {
    hide *;
    if k == 0 {
      LedgerStarts(t);
    } else {
      var c, o := CellAfter(t, k - 1), t[k - 1];
      Ledger(t, k - 1);
      LastObs(t, k);
      CountQueued(Notices(t, k - 1), c, o, false);
      CountQueued(Notices(t, k - 1), c, o, true);
      LedgerStep(c, o);
    }
  }

  lemma {:induction false} LedgerStarts(t: seq<Obs>)
    ensures Count(Notices(t, 0), false) == Count(Notices(t, 0), true) == Resets(t, 0) == 0 && !CellAfter(t, 0).sent
  {
  }

  lemma {:induction false} LastObs(t: seq<Obs>, k: nat)
    requires 0 < k <= |t|
    ensures var c, o := CellAfter(t, k - 1), t[k - 1];
      && CellAfter(t, k) == Next(c, o)
      && Notices(t, k) == Notices(t, k - 1) + Queued(c, o)
      && Resets(t, k) == Resets(t, k - 1) + if Reset(c, o) then 1 else 0
  {
    hide Next, Queued;
  }

  function CountOne(c: Cell, o: Obs, isRecovery: bool): nat {
    if Queued(c, o) != [] && Queued(c, o)[0].isRecovery == isRecovery then 1 else 0
  }

  lemma {:induction false} CountQueued(notices: seq<Notice>, c: Cell, o: Obs, isRecovery: bool)
    ensures Count(notices + Queued(c, o), isRecovery) == Count(notices, isRecovery) + CountOne(c, o, isRecovery)
  {
    CountAppend(notices, Queued(c, o), isRecovery);
  }

  /** One observation keeps the balance. */
  lemma {:induction false} LedgerStep(c: Cell, o: Obs)
    ensures CountOne(c, o, false) + (if c.sent then 1 else 0) ==
      CountOne(c, o, true) + (if Reset(c, o) then 1 else 0) + if Next(c, o).sent then 1 else 0
  {
  }

  /** Every recovery notice directly follows a down notice. */
  ghost predicate RecoveriesAnswerDowns(n: seq<Notice>) {
    forall i :: 0 <= i < |n| && n[i].isRecovery ==> i > 0 && !n[i - 1].isRecovery
  }

  /** While the flag is set, the newest notice is a down notice. */
  ghost predicate SentIsDown(c: Cell, n: seq<Notice>) {
    c.sent ==> n != [] && !n[|n| - 1].isRecovery
  }

  lemma {:induction false} RecoveriesFollowDowns(t: seq<Obs>, k: nat)
    requires k <= |t|
    ensures RecoveriesAnswerDowns(Notices(t, k)) && SentIsDown(CellAfter(t, k), Notices(t, k))
  {
    if k > 0 {
      RecoveriesFollowDowns(t, k - 1);
      NextAnswers(CellAfter(t, k - 1), t[k - 1], Notices(t, k - 1));
    }
  }

  lemma {:induction false} NextAnswers(c: Cell, o: Obs, n: seq<Notice>)
    requires RecoveriesAnswerDowns(n) && SentIsDown(c, n)
    ensures RecoveriesAnswerDowns(n + Queued(c, o)) && SentIsDown(Next(c, o), n + Queued(c, o))
  {
  }

  /* ---------- the streak ---------- */

  /** The position just after the newest successful check. */
  function SinceUp(t: seq<Obs>, k: nat): (lo: nat)
    requires k <= |t|
    ensures lo <= k
  {
    if k == 0 then 0 else if t[k - 1].Saw? && t[k - 1].up then k else SinceUp(t, k - 1)
  }

  function FailuresIn(t: seq<Obs>, lo: nat, k: nat): nat
    requires lo <= k <= |t|
    decreases k
  {
    if k == lo then 0 else FailuresIn(t, lo, k - 1) + if t[k - 1].Saw? && !t[k - 1].up then 1 else 0
  }

  /**
    The counter holds the failed checks since the newest successful one, the flag is set only
    during such a failure streak, and right after a failed check either the flag is set or the
    streak is still below the threshold in force.
  */
  lemma {:induction false} StreakMeaning(t: seq<Obs>, k: nat)
    requires k <= |t|
    ensures CellAfter(t, k).streak == FailuresIn(t, SinceUp(t, k), k)
    ensures CellAfter(t, k).sent ==> CellAfter(t, k).streak >= 1
    ensures k > 0 && t[k - 1].Saw? && !t[k - 1].up ==>
      CellAfter(t, k).sent || CellAfter(t, k).streak < t[k - 1].threshold
  {
    if k > 0 {
      StreakMeaning(t, k - 1);
    }
  }

  /* ---------- agreement with the incident list ---------- */

  /** The history s seen by a configuration that stays active, keeps threshold k and loses no notice. */
  function Observed(s: seq<CheckRow>, threshold: int, n: nat): (t: seq<Obs>)
    requires n <= |s|
    ensures |t| == n
    ensures forall i :: 0 <= i < n ==> t[i] == Saw(Up(s[i]), s[i].at, threshold)
  {
    if n == 0 then [] else Observed(s, threshold, n - 1) + [Saw(Up(s[n - 1]), s[n - 1].at, threshold)]
  }

  /** The server accepts any integer as threshold; values below 1 behave like 1. */
  function Needed(threshold: int): nat {
    if threshold < 1 then 1 else threshold
  }

  /** The notices owed for one outage: nothing if it stayed short, else a down notice and, once it is over, a recovery. */
  function RunNotices(s: seq<CheckRow>, k: nat, threshold: int, run: Run): seq<Notice>
    requires k <= |s| && run.lo < run.hi <= k
  {
    if run.hi - run.lo < Needed(threshold) then []
    else [Notice(false, s[run.lo + Needed(threshold) - 1].at)] + if run.hi < k then [Notice(true, s[run.hi].at)] else []
  }

  /** The notices owed for the first m outages among the first k checks. */
  function Owed(s: seq<CheckRow>, k: nat, threshold: int, runs: seq<Run>, m: nat): seq<Notice>
    requires k <= |s| && Bounded(runs, k) && m <= |runs|
  {
    if m == 0 then [] else Owed(s, k, threshold, runs, m - 1) + RunNotices(s, k, threshold, runs[m - 1])
  }

  lemma {:induction false} OwedStable(s: seq<CheckRow>, k: nat, threshold: int, runs: seq<Run>, more: seq<Run>, m: nat)
    requires k < |s| && Bounded(runs, k) && Bounded(more, k + 1) && m <= |runs| && m <= |more|
    requires forall a :: 0 <= a < m ==> runs[a] == more[a] && runs[a].hi < k
    ensures Owed(s, k, threshold, runs, m) == Owed(s, k + 1, threshold, more, m)
  {
    if m > 0 {
      OwedStable(s, k, threshold, runs, more, m - 1);
      hide Needed;
      assert RunNotices(s, k, threshold, runs[m - 1]) == RunNotices(s, k + 1, threshold, more[m - 1]);
      hide RunNotices;
    }
  }

  /** The streak and flag are exactly those of the ongoing outage, and the notices are exactly those owed. */
  ghost predicate InStep(s: seq<CheckRow>, k: nat, threshold: int, runs: seq<Run>, c: Cell, notices: seq<Notice>) {
    && k <= |s| && Bounded(runs, k)
    && notices == Owed(s, k, threshold, runs, |runs|)
    && (if runs != [] && runs[|runs| - 1].hi == k
        then c == Cell(k - runs[|runs| - 1].lo, k - runs[|runs| - 1].lo >= Needed(threshold))
        else c == FRESH)
  }

  lemma {:induction false} InStepUp(s: seq<CheckRow>, k: nat, threshold: int, runs: seq<Run>, c: Cell, notices: seq<Notice>)
    requires k < |s| && Up(s[k]) && InOrder(runs) && InStep(s, k, threshold, runs, c, notices)
    ensures var o := Saw(true, s[k].at, threshold);
      InStep(s, k + 1, threshold, runs, Next(c, o), notices + Queued(c, o))
  {
    var n := |runs|;
    if n > 0 {
      OwedStable(s, k, threshold, runs, runs, if runs[n - 1].hi == k then n - 1 else n);
    }
  }

  lemma {:induction false} InStepDown(s: seq<CheckRow>, k: nat, threshold: int, runs: seq<Run>, c: Cell, notices: seq<Notice>)
    requires k < |s| && !Up(s[k]) && InOrder(runs) && InStep(s, k, threshold, runs, c, notices)
    ensures var o := Saw(false, s[k].at, threshold);
      InStep(s, k + 1, threshold, Extend(runs, k, false), Next(c, o), notices + Queued(c, o))
  {
    hide Up;
    if runs != [] && runs[|runs| - 1].hi == k {
      InStepContinues(s, k, threshold, runs, c, notices);
    } else {
      InStepOpens(s, k, threshold, runs, c, notices);
    }
  }

  lemma {:induction false} InStepContinues(s: seq<CheckRow>, k: nat, threshold: int, runs: seq<Run>, c: Cell, notices: seq<Notice>)
    requires k < |s| && InOrder(runs) && InStep(s, k, threshold, runs, c, notices)
    requires runs != [] && runs[|runs| - 1].hi == k
    ensures var o := Saw(false, s[k].at, threshold);
      InStep(s, k + 1, threshold, Extend(runs, k, false), Next(c, o), notices + Queued(c, o))
  {
    var n := |runs| - 1;
    var more := Extend(runs, k, false);
    ContinueNotices(s, k, threshold, runs[n], c);
    ContinueOwed(s, k, threshold, runs);
    hide Owed, RunNotices, Needed, Next, Queued;
  }

  lemma {:induction false} ContinueOwed(s: seq<CheckRow>, k: nat, threshold: int, runs: seq<Run>)
    requires k < |s| && InOrder(runs) && Bounded(runs, k) && runs != [] && runs[|runs| - 1].hi == k
    ensures var n, more := |runs| - 1, Extend(runs, k, false);
      && Bounded(more, k + 1)
      && more == runs[n := Run(runs[n].lo, k + 1)]
      && Owed(s, k, threshold, runs, n + 1) == Owed(s, k, threshold, runs, n) + RunNotices(s, k, threshold, runs[n])
      && Owed(s, k + 1, threshold, more, n + 1) == Owed(s, k, threshold, runs, n) + RunNotices(s, k + 1, threshold, more[n])
  {
    hide RunNotices;
    OwedStable(s, k, threshold, runs, Extend(runs, k, false), |runs| - 1);
  }

  lemma {:induction false} ContinueNotices(s: seq<CheckRow>, k: nat, threshold: int, run: Run, c: Cell)
    requires k < |s| && run.lo < run.hi == k && c == Cell(k - run.lo, k - run.lo >= Needed(threshold))
    ensures var o := Saw(false, s[k].at, threshold);
      && RunNotices(s, k + 1, threshold, Run(run.lo, k + 1)) == RunNotices(s, k, threshold, run) + Queued(c, o)
      && Next(c, o) == Cell(k + 1 - run.lo, k + 1 - run.lo >= Needed(threshold))
  {
  }

  lemma {:induction false} InStepOpens(s: seq<CheckRow>, k: nat, threshold: int, runs: seq<Run>, c: Cell, notices: seq<Notice>)
    requires k < |s| && InOrder(runs) && InStep(s, k, threshold, runs, c, notices)
    requires runs != [] ==> runs[|runs| - 1].hi != k
    ensures var o := Saw(false, s[k].at, threshold);
      InStep(s, k + 1, threshold, Extend(runs, k, false), Next(c, o), notices + Queued(c, o))
  {
    var n, more := |runs|, Extend(runs, k, false);
    assert Bounded(more, k + 1);
    OwedStable(s, k, threshold, runs, more, n);
    var o := Saw(false, s[k].at, threshold);
    assert RunNotices(s, k + 1, threshold, more[n]) == Queued(c, o);
  }

  /**
    Main result, notice by notice: on any history, for every integer threshold, the queued notices
    are exactly those owed for the maximal runs of failed checks, in order. The down notice carries
    the timestamp of the check that made the outage long enough; the recovery that of the first
    successful check after it.
  */
  lemma {:induction false} NoticesAreOwed(s: seq<CheckRow>, threshold: int, k: nat)
    requires k <= |s|
    ensures InStep(s, k, threshold, DownRuns(s, k), CellAfter(Observed(s, threshold, k), k), Notices(Observed(s, threshold, k), k))
  {
    hide *;
    if k == 0 {
      NothingOwed(s, threshold);
    } else {
      var t := Observed(s, threshold, k);
      NoticesAreOwed(s, threshold, k - 1);
      DownRunsSound(s, k - 1);
      LastRun(s, k);
      LastObserved(s, threshold, k);
      InStepNext(s, k - 1, threshold, DownRuns(s, k - 1), CellAfter(t, k - 1), Notices(t, k - 1));
    }
  }

  lemma {:induction false} NothingOwed(s: seq<CheckRow>, threshold: int)
    ensures InStep(s, 0, threshold, DownRuns(s, 0), CellAfter(Observed(s, threshold, 0), 0), Notices(Observed(s, threshold, 0), 0))
  {
  }

  lemma {:induction false} LastObserved(s: seq<CheckRow>, threshold: int, k: nat)
    requires 0 < k <= |s|
    ensures var t, before, o := Observed(s, threshold, k), Observed(s, threshold, k - 1), Saw(Up(s[k - 1]), s[k - 1].at, threshold);
      && CellAfter(t, k - 1) == CellAfter(before, k - 1) && Notices(t, k - 1) == Notices(before, k - 1)
      && CellAfter(t, k) == Next(CellAfter(t, k - 1), o)
      && Notices(t, k) == Notices(t, k - 1) + Queued(CellAfter(t, k - 1), o)
  {
    PrefixDecides(Observed(s, threshold, k), Observed(s, threshold, k - 1), k - 1);
    hide Next, Queued, Up;
  }

  lemma {:induction false} InStepNext(s: seq<CheckRow>, k: nat, threshold: int, runs: seq<Run>, c: Cell, notices: seq<Notice>)
    requires k < |s| && InOrder(runs) && InStep(s, k, threshold, runs, c, notices)
    ensures var o := Saw(Up(s[k]), s[k].at, threshold);
      InStep(s, k + 1, threshold, Extend(runs, k, Up(s[k])), Next(c, o), notices + Queued(c, o))
  {
    hide InStep, InOrder;
    if Up(s[k]) {
      InStepUp(s, k, threshold, runs, c, notices);
    } else {
      InStepDown(s, k, threshold, runs, c, notices);
    }
  }
}
