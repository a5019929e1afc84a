/**
  The batched dispatcher's tick: claimed endpoints are submitted one by one to a bounded thread
  pool whose workers run at the same time. A task is named by the endpoint it probes, so several
  tasks may have the same name.
*/
module ProbePool {
  import opened Common

  /* ---------- one probe ---------- */

  /**
    How the HTTP request ends. Escaped is an unchecked exception, such as a URL that does not parse:
    it ends the worker's thread, which the pool replaces.
  */
  datatype Outcome = Response(status: int) | TimedOut | Refused | UnknownHost | OtherFailure | Interrupted | Escaped

  /** The columns of checkresult that a probe fills in. */
  datatype ProbeRow = ProbeRow(endpoint: nat, at: Time, status: Option<int>, error: Option<string>, millis: Option<nat>)

  /** A measurement has a status and a response time; a failure has an error and neither. */
  predicate WellShaped(row: ProbeRow) {
    row.status.Some? == row.millis.Some? == row.error.None?
  }

  function ErrorOf(outcome: Outcome): Option<string> {
    match outcome
    case TimedOut => Some("timeout")
    case Refused => Some("connection_refused")
    case UnknownHost => Some("dns_failure")
    case OtherFailure => Some("unknown")
    case _ => None
  }

  /** The status and the time of a response, or the name of the failure. */
  predicate Records(row: ProbeRow, outcome: Outcome, millis: nat) {
    && (outcome.Response? ==> row.status == Some(outcome.status) && row.millis == Some(millis) && row.error == None)
    && (outcome.TimedOut? ==> row.error == Some("timeout"))
    && (outcome.Refused? ==> row.error == Some("connection_refused"))
    && (outcome.UnknownHost? ==> row.error == Some("dns_failure"))
    && (outcome.OtherFailure? ==> row.error == Some("unknown"))
  }

  function RowOf(id: nat, at: Time, millis: nat, outcome: Outcome, insertOk: bool): Option<ProbeRow> {
    if outcome.Interrupted? || outcome.Escaped? || !insertOk then None
    else if outcome.Response? then Some(ProbeRow(id, at, Some(outcome.status), None, Some(millis)))
    else Some(ProbeRow(id, at, None, ErrorOf(outcome), None))
  }

  /**
    ProbeTask.run: a probe that is interrupted or escapes and a failed insert leave no row; a failed
    request leaves a row that counts as down.
  */
  method RunProbe(id: nat, at: Time, millis: nat, outcome: Outcome, insertOk: bool) returns (row: Option<ProbeRow>)
    ensures row == RowOf(id, at, millis, outcome, insertOk)
    ensures row.Some? <==> !outcome.Interrupted? && !outcome.Escaped? && insertOk
    ensures row.Some? ==> WellShaped(row.value) && row.value.endpoint == id && row.value.at == at
    ensures row.Some? ==> Records(row.value, outcome, millis)
    ensures row.Some? ==> (UpFor(row.value.status) <==> outcome.Response? && 200 <= outcome.status < 400)
  {
    var status: Option<int>, error: Option<string>, elapsed: Option<nat> := None, None, None;
    match outcome {
      case Response(code) => status, elapsed := Some(code), Some(millis);
      case TimedOut => error := Some("timeout");
      case Refused => error := Some("connection_refused");
      case UnknownHost => error := Some("dns_failure");
      case OtherFailure => error := Some("unknown");
      case Interrupted => return None;
      case Escaped => return None;
    }
    if insertOk {
      return Some(ProbeRow(id, at, status, error, elapsed));
    }
    return None;
  }

  /* ---------- the pool ---------- */

  /**
    The pool with its bookkeeping. There are as many core threads as the maximum, so the pool never
    grows past core. The multisets submitted and rejected record what the dispatcher did.
  */
  datatype Pool = Pool(core: nat, capacity: nat, live: nat, running: multiset<nat>, queue: seq<nat>,
                       finished: multiset<nat>, rows: seq<ProbeRow>, submitted: multiset<nat>, rejected: multiset<nat>)

  /** Take and Finish are the workers' moves; a move that is not possible does nothing. */
  datatype Step =
    | Submit(id: nat)
    | Take
    | Finish(id: nat, at: Time, millis: nat, outcome: Outcome, insertOk: bool)

  /** execute: a new worker below core size, else the queue, else rejection. */
  function Submitted(p: Pool, id: nat): Pool {
    var q := p.(submitted := p.submitted + multiset{id});
    if p.live < p.core then q.(live := p.live + 1, running := p.running + multiset{id})
    else if |p.queue| < p.capacity then q.(queue := p.queue + [id])
    else q.(rejected := p.rejected + multiset{id})
  }

  function Taken(p: Pool): Pool {
    if |p.running| < p.live && p.queue != [] then p.(running := p.running + multiset{p.queue[0]}, queue := p.queue[1..]) else p
  }

  function Append(rows: seq<ProbeRow>, row: Option<ProbeRow>): seq<ProbeRow> {
    if row.Some? then rows + [row.value] else rows
  }

  function Finished(p: Pool, id: nat, row: Option<ProbeRow>): Pool {
    if id in p.running
    then p.(running := p.running - multiset{id}, finished := p.finished + multiset{id}, rows := Append(p.rows, row)) else p
  }

  function Next(p: Pool, s: Step): Pool {
    match s
    case Submit(id) => Submitted(p, id)
    case Take => Taken(p)
    case Finish(id, at, millis, outcome, insertOk) => Finished(p, id, RowOf(id, at, millis, outcome, insertOk))
  }

  function After(p: Pool, steps: seq<Step>, k: nat): Pool
    requires k <= |steps|
  {
    if k == 0 then p else Next(After(p, steps, k - 1), steps[k - 1])
  }

  /** The tasks submitted by the first k steps, in order. */
  function Submissions(steps: seq<Step>, k: nat): seq<nat>
    requires k <= |steps|
  {
    if k == 0 then []
    else if steps[k - 1].Submit? then Submissions(steps, k - 1) + [steps[k - 1].id]
    else Submissions(steps, k - 1)
  }

  lemma {:induction false} NoStep(p: Pool, steps: seq<Step>)
    ensures After(p, steps, 0) == p && Submissions(steps, 0) == []
  {
  }

  lemma {:induction false} LastStep(p: Pool, steps: seq<Step>, k: nat)
    requires 0 < k <= |steps|
    ensures After(p, steps, k) == Next(After(p, steps, k - 1), steps[k - 1])
    ensures Submissions(steps, k) == Submissions(steps, k - 1) + if steps[k - 1].Submit? then [steps[k - 1].id] else []
  {
  }

  lemma {:induction false} AfterConcat(p: Pool, a: seq<Step>, b: seq<Step>, k: nat)
    requires k <= |b|
    ensures After(p, a + b, |a| + k) == After(After(p, a, |a|), b, k)
    ensures Submissions(a + b, |a| + k) == Submissions(a, |a|) + Submissions(b, k)
  {
    hide Next;
    if k == 0 {
      SamePrefix(p, a, b, |a|);
    } else {
      AfterConcat(p, a, b, k - 1);
      assert (a + b)[|a| + k - 1] == b[k - 1];
    }
  }

  lemma {:induction false} SamePrefix(p: Pool, a: seq<Step>, b: seq<Step>, k: nat)
    requires k <= |a|
    ensures After(p, a + b, k) == After(p, a, k) && Submissions(a + b, k) == Submissions(a, k)
  {
    hide Next;
    if k > 0 {
      SamePrefix(p, a, b, k - 1);
      assert (a + b)[k - 1] == a[k - 1];
    }
  }

  function Extended(steps: seq<Step>, moves: seq<Step>, id: nat): seq<Step> {
    steps + (moves + [Submit(id)])
  }

  /** A run of the pool that has submitted the first i of the claimed endpoints. */
  ghost predicate TickTo(p: Pool, q: Pool, steps: seq<Step>, ids: seq<nat>, i: nat)
    requires i <= |ids|
  {
    q == After(p, steps, |steps|) && Submissions(steps, |steps|) == ids[..i]
  }

  lemma {:induction false} TickStep(p: Pool, q: Pool, steps: seq<Step>, ids: seq<nat>, i: nat, moves: seq<Step>)
    requires i < |ids| && TickTo(p, q, steps, ids, i)
    requires forall s :: s in moves ==> !s.Submit?
    ensures TickTo(p, Submitted(After(q, moves, |moves|), ids[i]), Extended(steps, moves, ids[i]), ids, i + 1)
  {
    hide After, Submissions, Submitted;
    OneMoreSubmission(p, steps, moves, ids[i]);
    assert ids[..i + 1] == ids[..i] + [ids[i]];
  }

  lemma {:induction false} TickEnds(p: Pool, q: Pool, steps: seq<Step>, ids: seq<nat>)
    requires TickTo(p, q, steps, ids, |ids|)
    ensures q == After(p, steps, |steps|) && Submissions(steps, |steps|) == ids
    ensures Within(p) && Conserved(p) ==> TickIsBounded(p, q, |ids|)
  {
    hide After, Submissions, Within, Conserved, Rejections, Room;
    assert ids[..|ids|] == ids;
    if Within(p) && Conserved(p) {
      RejectionBound(p, steps, |steps|);
      RunConserves(p, steps, |steps|);
    }
  }

  /** What a tick of n claimed endpoints keeps, and how many it may turn away. */
  ghost predicate TickIsBounded(p: Pool, q: Pool, n: nat) {
    Within(q) && Conserved(q) && Rejections(q) - Rejections(p) <= Max(0, n - Room(p))
  }

  lemma {:induction false} TickBegins(p: Pool, ids: seq<nat>)
    ensures TickTo(p, p, [], ids, 0)
  {
  }

  /** Appending the workers' moves and one submission to a run. */
  lemma {:induction false} OneMoreSubmission(p: Pool, before: seq<Step>, moves: seq<Step>, id: nat)
    requires forall s :: s in moves ==> !s.Submit?
    ensures var steps := Extended(before, moves, id);
      && After(p, steps, |steps|) == Submitted(After(After(p, before, |before|), moves, |moves|), id)
      && Submissions(steps, |steps|) == Submissions(before, |before|) + [id]
  {
    hide After, Submissions, Next, Submitted;
    var more, q := moves + [Submit(id)], After(p, before, |before|);
    AfterConcat(p, before, more, |more|);
    LastStep(q, more, |more|);
    assert more[|more| - 1] == Submit(id);
    SamePrefix(q, moves, [Submit(id)], |moves|);
    NoSubmissions(moves, |moves|);
    SubmitStep(After(q, moves, |moves|), id);
  }

  lemma {:induction false} SubmitStep(p: Pool, id: nat)
    ensures Next(p, Submit(id)) == Submitted(p, id)
  {
  }

  lemma {:induction false} NoSubmissions(moves: seq<Step>, k: nat)
    requires k <= |moves| && forall s :: s in moves ==> !s.Submit?
    ensures Submissions(moves, k) == []
  {
    if k > 0 {
      NoSubmissions(moves, k - 1);
    }
  }

  /* ---------- conservation ---------- */

  /** The endpoints that rows were written for, with multiplicity. */
  function RowIds(rows: seq<ProbeRow>): multiset<nat> {
    if rows == [] then multiset{} else RowIds(rows[..|rows| - 1]) + multiset{rows[|rows| - 1].endpoint}
  }

  ghost predicate Within(p: Pool) {
    |p.running| <= p.live <= p.core && |p.queue| <= p.capacity
  }

  /** Every submission is in exactly one place, and every row belongs to its own finished task. */
  ghost predicate Conserved(p: Pool) {
    && p.submitted == p.rejected + multiset(p.queue) + p.running + p.finished
    && RowIds(p.rows) <= p.finished
  }

  lemma {:induction false} SubmitConserves(p: Pool, id: nat)
    requires Within(p) && Conserved(p)
    ensures Within(Submitted(p, id)) && Conserved(Submitted(p, id))
  {
    hide RowIds;
  }

  lemma {:induction false} TakeConserves(p: Pool)
    requires Within(p) && Conserved(p)
    ensures Within(Taken(p)) && Conserved(Taken(p))
  {
    hide RowIds;
    if p.queue != [] {
      assert p.queue == [p.queue[0]] + p.queue[1..];
    }
  }

  lemma {:induction false} MoveOne(a: multiset<nat>, b: multiset<nat>, id: nat)
    requires id in a
    ensures (a - multiset{id}) + (b + multiset{id}) == a + b && |a - multiset{id}| == |a| - 1
  {
  }

  lemma {:induction false} RowsFollow(rows: seq<ProbeRow>, finished: multiset<nat>, id: nat, row: Option<ProbeRow>)
    requires RowIds(rows) <= finished && (row.Some? ==> row.value.endpoint == id)
    ensures RowIds(Append(rows, row)) <= finished + multiset{id}
  {
  }

  lemma {:induction false} FinishConserves(p: Pool, id: nat, row: Option<ProbeRow>)
    requires Within(p) && Conserved(p) && (row.Some? ==> row.value.endpoint == id)
    ensures Within(Finished(p, id, row)) && Conserved(Finished(p, id, row))
  {
    hide RowIds, Append;
    if id in p.running {
      var rest := p.rejected + multiset(p.queue);
      MoveOne(p.running, p.finished, id);
      RowsFollow(p.rows, p.finished, id, row);
      assert rest + p.running + p.finished == rest + (p.running + p.finished);
      assert rest + (p.running - multiset{id}) + (p.finished + multiset{id}) == rest + (p.running + p.finished);
    }
  }

  lemma {:induction false} StepConserves(p: Pool, s: Step)
    requires Within(p) && Conserved(p)
    ensures Within(Next(p, s)) && Conserved(Next(p, s))
  {
    hide Within, Conserved;
    match s
    case Submit(id) => SubmitConserves(p, id);
    case Take => TakeConserves(p);
    case Finish(id, at, millis, outcome, insertOk) => FinishConserves(p, id, RowOf(id, at, millis, outcome, insertOk));
  }

  function Fresh(core: nat, capacity: nat): Pool {
    Pool(core, capacity, 0, multiset{}, [], multiset{}, [], multiset{}, multiset{})
  }

  lemma {:induction false} RunConserves(p: Pool, steps: seq<Step>, k: nat)
    requires k <= |steps| && Within(p) && Conserved(p)
    ensures Within(After(p, steps, k)) && Conserved(After(p, steps, k))
  {
    hide *;
    if k == 0 {
      NoStep(p, steps);
    } else {
      RunConserves(p, steps, k - 1);
      LastStep(p, steps, k);
      StepConserves(After(p, steps, k - 1), steps[k - 1]);
    }
  }

  lemma {:induction false} StepRecords(p: Pool, s: Step)
    ensures Next(p, s).submitted == p.submitted + if s.Submit? then multiset{s.id} else multiset{}
    ensures Next(p, s).core == p.core && Next(p, s).capacity == p.capacity
  {
  }

  lemma {:induction false} AllRecorded(p: Pool, steps: seq<Step>, k: nat)
    requires k <= |steps|
    ensures After(p, steps, k).submitted == p.submitted + multiset(Submissions(steps, k))
    ensures After(p, steps, k).core == p.core && After(p, steps, k).capacity == p.capacity
  {
    hide *;
    if k == 0 {
      NoStep(p, steps);
    } else {
      AllRecorded(p, steps, k - 1);
      LastStep(p, steps, k);
      StepRecords(After(p, steps, k - 1), steps[k - 1]);
    }
  }

  lemma {:induction false} PlacesOf(p: Pool, id: nat)
    requires Conserved(p)
    ensures RowIds(p.rows)[id] + p.rejected[id] <= p.submitted[id]
  {
  }

  lemma {:induction false} FreshConserves(core: nat, capacity: nat)
    ensures Within(Fresh(core, capacity)) && Conserved(Fresh(core, capacity))
    ensures Fresh(core, capacity).submitted == multiset{}
  {
  }

  lemma {:induction false} Places(p: Pool)
    requires Conserved(p)
    ensures p.submitted == p.rejected + multiset(p.queue) + p.running + p.finished
  {
  }

  /**
    Over every run of submissions interleaved with workers, each submission is rejected, queued,
    running or finished, exactly one of these, and an endpoint has at most one row per submission
    that was not rejected.
  */
  lemma {:induction false} NothingIsLost(core: nat, capacity: nat, steps: seq<Step>, k: nat)
    requires k <= |steps|
    ensures var p := After(Fresh(core, capacity), steps, k);
      multiset(Submissions(steps, k)) == p.rejected + multiset(p.queue) + p.running + p.finished
    ensures var p := After(Fresh(core, capacity), steps, k);
      forall id :: RowIds(p.rows)[id] + p.rejected[id] <= multiset(Submissions(steps, k))[id]
  {
    hide *;
    FreshConserves(core, capacity);
    RunConserves(Fresh(core, capacity), steps, k);
    AllRecorded(Fresh(core, capacity), steps, k);
    var p := After(Fresh(core, capacity), steps, k);
    Places(p);
    forall id ensures RowIds(p.rows)[id] + p.rejected[id] <= multiset(Submissions(steps, k))[id] {
      PlacesOf(p, id);
    }
  }

  /* ---------- order ---------- */

  /** Tasks wait only once all threads exist. */
  predicate ThreadsFirst(p: Pool) {
    p.live <= p.core && (p.queue != [] ==> p.live == p.core)
  }

  /** The step starts a task: at submission, on a new thread, or from the head of the queue. */
  function Starts(p: Pool, s: Step): seq<nat> {
    if Next(p, s).running == p.running then []
    else if s.Submit? then [s.id]
    else if s.Take? && p.queue != [] then [p.queue[0]]
    else []
  }

  function Accepts(p: Pool, s: Step): seq<nat> {
    if s.Submit? && Next(p, s).rejected == p.rejected then [s.id] else []
  }

  function Started(p: Pool, steps: seq<Step>, k: nat): seq<nat>
    requires k <= |steps|
  {
    if k == 0 then [] else Started(p, steps, k - 1) + Starts(After(p, steps, k - 1), steps[k - 1])
  }

  function Accepted(p: Pool, steps: seq<Step>, k: nat): seq<nat>
    requires k <= |steps|
  {
    if k == 0 then [] else Accepted(p, steps, k - 1) + Accepts(After(p, steps, k - 1), steps[k - 1])
  }

  lemma {:induction false} OrderStep(p: Pool, s: Step)
    requires ThreadsFirst(p)
    ensures ThreadsFirst(Next(p, s))
    ensures p.queue + Accepts(p, s) == Starts(p, s) + Next(p, s).queue
    ensures !s.Finish? ==> Next(p, s).running == p.running + multiset(Starts(p, s)) && Next(p, s).finished == p.finished
    ensures p.live < p.core && s.Submit? ==> Starts(p, s) == [s.id]
  {
    hide *;
    match s
    case Submit(id) => SubmitOrder(p, id);
    case Take => TakeOrder(p);
    case Finish(_, _, _, _, _) => FinishOrder(p, s);
  }

  lemma {:induction false} SubmitOrder(p: Pool, id: nat)
    requires ThreadsFirst(p)
    ensures var s := Submit(id);
      && ThreadsFirst(Next(p, s)) && p.queue + Accepts(p, s) == Starts(p, s) + Next(p, s).queue
      && Next(p, s).running == p.running + multiset(Starts(p, s)) && Next(p, s).finished == p.finished
      && (p.live < p.core ==> Starts(p, s) == [id])
  {
    GrowsBy(p.running, id);
    GrowsBy(p.rejected, id);
  }

  lemma {:induction false} TakeOrder(p: Pool)
    requires ThreadsFirst(p)
    ensures ThreadsFirst(Next(p, Take)) && p.queue + Accepts(p, Take) == Starts(p, Take) + Next(p, Take).queue
    ensures Next(p, Take).running == p.running + multiset(Starts(p, Take)) && Next(p, Take).finished == p.finished
  {
    if p.queue != [] {
      GrowsBy(p.running, p.queue[0]);
      assert p.queue == [p.queue[0]] + p.queue[1..];
    }
  }

  lemma {:induction false} FinishOrder(p: Pool, s: Step)
    requires ThreadsFirst(p) && s.Finish?
    ensures ThreadsFirst(Next(p, s)) && p.queue + Accepts(p, s) == Starts(p, s) + Next(p, s).queue
  {
    hide RowOf, Append;
  }

  lemma {:induction false} GrowsBy(a: multiset<nat>, id: nat)
    ensures a + multiset{id} != a && multiset([id]) == multiset{id}
  {
    assert (a + multiset{id})[id] == a[id] + 1;
  }

  lemma {:induction false} NothingStarted(core: nat, capacity: nat, steps: seq<Step>)
    ensures After(Fresh(core, capacity), steps, 0) == Fresh(core, capacity) && ThreadsFirst(Fresh(core, capacity))
    ensures Accepted(Fresh(core, capacity), steps, 0) == Started(Fresh(core, capacity), steps, 0) + Fresh(core, capacity).queue
  {
  }

  lemma {:induction false} LastOrder(p: Pool, steps: seq<Step>, k: nat)
    requires 0 < k <= |steps|
    ensures var q, s := After(p, steps, k - 1), steps[k - 1];
      && After(p, steps, k) == Next(q, s)
      && Accepted(p, steps, k) == Accepted(p, steps, k - 1) + Accepts(q, s)
      && Started(p, steps, k) == Started(p, steps, k - 1) + Starts(q, s)
  {
    hide Next, Accepts, Starts;
  }

  /**
    Over every run from a fresh pool: tasks wait only once all threads exist, and they start in the
    order in which they were accepted; those accepted but not started are the queue.
  */
  lemma {:induction false} FirstComeFirstStarted(core: nat, capacity: nat, steps: seq<Step>, k: nat)
    requires k <= |steps|
    ensures var p := Fresh(core, capacity);
      && ThreadsFirst(After(p, steps, k))
      && Accepted(p, steps, k) == Started(p, steps, k) + After(p, steps, k).queue
  {
    hide *;
    var p := Fresh(core, capacity);
    if k == 0 {
      NothingStarted(core, capacity, steps);
    } else {
      var q, s := After(p, steps, k - 1), steps[k - 1];
      FirstComeFirstStarted(core, capacity, steps, k - 1);
      LastOrder(p, steps, k);
      OrderStep(q, s);
      Regroup(Started(p, steps, k - 1), q.queue, Accepts(q, s), Starts(q, s), Next(q, s).queue);
    }
  }

  lemma {:induction false} Regroup(started: seq<nat>, queue: seq<nat>, accepts: seq<nat>, starts: seq<nat>, rest: seq<nat>)
    requires queue + accepts == starts + rest
    ensures started + queue + accepts == started + starts + rest
  {
    assert started + queue + accepts == started + (queue + accepts);
  }

  /** A queued task always has a worker that is busy or can take the head of the queue right now. */
  lemma {:induction false} QueueHasWorker(core: nat, capacity: nat, steps: seq<Step>, k: nat)
    requires k <= |steps| && core > 0 && After(Fresh(core, capacity), steps, k).queue != []
    ensures var p := After(Fresh(core, capacity), steps, k);
      |p.running| == core || (|p.running| < core && Next(p, Take).running == p.running + multiset{p.queue[0]} && Next(p, Take).queue == p.queue[1..])
  {
    FirstComeFirstStarted(core, capacity, steps, k);
    FreshConserves(core, capacity);
    RunConserves(Fresh(core, capacity), steps, k);
    AllRecorded(Fresh(core, capacity), steps, k);
    hide After;
  }

  /* ---------- rows ---------- */

  /** The row that a step owes: a task that was running ends, its probe completed and its insert worked. */
  ghost predicate Owes(p: Pool, s: Step, owed: seq<ProbeRow>) {
    if s.Finish? && s.id in p.running && s.insertOk && !s.outcome.Interrupted? && !s.outcome.Escaped?
    then |owed| == 1 && owed[0].endpoint == s.id && owed[0].at == s.at && WellShaped(owed[0]) && Records(owed[0], s.outcome, s.millis)
    else owed == []
  }

  lemma {:induction false} StepWrites(p: Pool, s: Step) returns (owed: seq<ProbeRow>)
    ensures Owes(p, s, owed) && Next(p, s).rows == p.rows + owed
  {
    if s.Finish? && s.id in p.running {
      var row := RowOf(s.id, s.at, s.millis, s.outcome, s.insertOk);
      owed := if row.Some? then [row.value] else [];
    } else {
      owed := [];
    }
    assert p.rows + [] == p.rows;
  }

  ghost predicate AllOwed(p: Pool, steps: seq<Step>, k: nat, owed: seq<seq<ProbeRow>>) {
    k <= |steps| && |owed| == k && forall i :: 0 <= i < k ==> Owes(After(p, steps, i), steps[i], owed[i])
  }

  function Concat(owed: seq<seq<ProbeRow>>): seq<ProbeRow> {
    if owed == [] then [] else Concat(owed[..|owed| - 1]) + owed[|owed| - 1]
  }

  /**
    Over every run the stored rows are, in order, exactly those owed: one for each task that ended
    with a completed probe and a working insert, recording its outcome, and none for any other step.
  */
  lemma {:induction false} RowsAreOwed(p: Pool, steps: seq<Step>, k: nat) returns (owed: seq<seq<ProbeRow>>)
    requires k <= |steps| && p.rows == []
    ensures AllOwed(p, steps, k, owed) && After(p, steps, k).rows == Concat(owed)
  {
    hide Next, Owes, After;
    if k == 0 {
      NoStep(p, steps);
      owed := [];
    } else {
      var before := RowsAreOwed(p, steps, k - 1);
      var more := StepWrites(After(p, steps, k - 1), steps[k - 1]);
      LastStep(p, steps, k);
      owed := before + [more];
      assert owed[..k - 1] == before;
    }
  }

  /* ---------- rejections ---------- */

  /** Submissions that the pool can take without any help from its workers. */
  function Room(p: Pool): int {
    (p.core - p.live) + (p.capacity - |p.queue|)
  }

  function Rejections(p: Pool): nat {
    |p.rejected|
  }

  /** Only accepted submissions use up room, and a rejection means there is none. */
  lemma {:induction false} RoomStep(p: Pool, s: Step)
    requires Within(p)
    ensures s.Submit? && Room(p) > 0 ==> Rejections(Next(p, s)) == Rejections(p) && Room(Next(p, s)) == Room(p) - 1
    ensures s.Submit? && Room(p) == 0 ==> Rejections(Next(p, s)) == Rejections(p) + 1 && Room(Next(p, s)) == 0
    ensures !s.Submit? ==> Rejections(Next(p, s)) == Rejections(p) && Room(Next(p, s)) >= Room(p)
    ensures Room(p) >= 0
  {
  }

  /**
    However the workers are scheduled, a stretch of the run rejects at most as many submissions as
    exceed the free threads and free queue places at its start.
  */
  lemma {:induction false} RejectionBound(p: Pool, steps: seq<Step>, k: nat)
    requires k <= |steps| && Within(p) && Conserved(p)
    ensures Rejections(After(p, steps, k)) - Rejections(p) <= Max(0, |Submissions(steps, k)| - Room(p))
    ensures Room(After(p, steps, k)) >= Room(p) - |Submissions(steps, k)| + Rejections(After(p, steps, k)) - Rejections(p)
  {
    hide After, Submissions, Next, Within, Conserved, Room, Rejections;
    if k == 0 {
      NoStep(p, steps);
    } else {
      RejectionBound(p, steps, k - 1);
      RunConserves(p, steps, k - 1);
      LastStep(p, steps, k);
      RoomStep(After(p, steps, k - 1), steps[k - 1]);
    }
  }

  /** The bound is reached when no worker moves, even if all of them are idle. */
  lemma {:induction false} RejectionsWithoutWorkers(p: Pool, steps: seq<Step>, k: nat)
    requires k <= |steps| && Within(p) && Conserved(p) && forall i :: 0 <= i < |steps| ==> steps[i].Submit?
    ensures Rejections(After(p, steps, k)) - Rejections(p) == Max(0, k - Room(p))
    ensures Room(After(p, steps, k)) == Max(0, Room(p) - k)
  {
    hide After, Submissions, Next, Within, Conserved, Room, Rejections;
    if k == 0 {
      NoStep(p, steps);
      RoomIsNat(p);
    } else {
      RejectionsWithoutWorkers(p, steps, k - 1);
      RunConserves(p, steps, k - 1);
      LastStep(p, steps, k);
      RoomStep(After(p, steps, k - 1), steps[k - 1]);
    }
  }

  lemma {:induction false} RoomIsNat(p: Pool)
    requires Within(p)
    ensures Room(p) >= 0
  {
  }

  lemma {:induction false} RoomAtFirst(core: nat, capacity: nat)
    ensures var p0 := Fresh(core, capacity);
      Within(p0) && Conserved(p0) && Room(p0) == core + capacity && Rejections(p0) == 0
    ensures var idle := Idle(core, capacity);
      Within(idle) && Conserved(idle) && Room(idle) == capacity && Rejections(idle) == 0
  {
  }

  /** A pool whose threads all exist and have nothing to do. */
  function Idle(core: nat, capacity: nat): Pool {
    Fresh(core, capacity).(live := core)
  }

  /**
    A fresh pool never rejects a claim as large as its threads and its queue together. Once the
    threads exist that is no longer so: an idle pool turns away what exceeds the queue when the
    submissions outrun the workers.
  */
  lemma {:induction false} ClaimFits(core: nat, capacity: nat, steps: seq<Step>, claim: seq<Step>)
    requires |Submissions(steps, |steps|)| <= core + capacity
    requires forall i :: 0 <= i < |claim| ==> claim[i].Submit?
    ensures Rejections(After(Fresh(core, capacity), steps, |steps|)) == 0
    ensures Rejections(After(Idle(core, capacity), claim, |claim|)) == Max(0, |claim| - capacity)
  {
    hide After, Submissions, Within, Conserved, Room, Rejections, Fresh, Idle;
    RoomAtFirst(core, capacity);
    RejectionBound(Fresh(core, capacity), steps, |steps|);
    RejectionsWithoutWorkers(Idle(core, capacity), claim, |claim|);
  }

  const POOL_SIZE: nat := 20
  const QUEUE_CAPACITY: nat := 40
  const CLAIM_BATCH: nat := 60

  /** The default sizes: sixty fit into a fresh pool, and an idle one may turn away twenty of them. */
  lemma {:induction false} DefaultSizes(steps: seq<Step>, claim: seq<Step>)
    requires |Submissions(steps, |steps|)| <= CLAIM_BATCH
    requires |claim| == CLAIM_BATCH && forall i :: 0 <= i < |claim| ==> claim[i].Submit?
    ensures Rejections(After(Fresh(POOL_SIZE, QUEUE_CAPACITY), steps, |steps|)) == 0
    ensures Rejections(After(Idle(POOL_SIZE, QUEUE_CAPACITY), claim, |claim|)) == 20
  {
    hide After, Submissions, Rejections, Fresh, Idle;
    ClaimFits(POOL_SIZE, QUEUE_CAPACITY, steps, claim);
  }

  /* ---------- the tick ---------- */

  class ThreadPool {
    const core: nat
    const capacity: nat
    var live: nat
    var running: multiset<nat>
    var queue: seq<nat>
    var finished: multiset<nat>
    var rows: seq<ProbeRow>

    constructor (core: nat, capacity: nat)
      ensures this.core == core && this.capacity == capacity
      ensures live == 0 && running == multiset{} && queue == [] && finished == multiset{} && rows == []
    {
      this.core, this.capacity := core, capacity;
      live, running, queue, finished, rows := 0, multiset{}, [], multiset{}, [];
    }

    ghost function View(submitted: multiset<nat>, rejected: multiset<nat>): Pool
      reads this
    {
      Pool(core, capacity, live, running, queue, finished, rows, submitted, rejected)
    }

    /** RejectedExecutionException is the answer false. */
    method Execute(id: nat, ghost submitted: multiset<nat>, ghost rejected: multiset<nat>) returns (accepted: bool)
      modifies this
      ensures View(submitted + multiset{id}, if accepted then rejected else rejected + multiset{id}) == Submitted(old(View(submitted, rejected)), id)
    {
      if live < core {
        live, running := live + 1, running + multiset{id};
        return true;
      }
      if |queue| < capacity {
        queue := queue + [id];
        return true;
      }
      return false;
    }

    /** One move of a worker. */
    method Work(s: Step, ghost submitted: multiset<nat>, ghost rejected: multiset<nat>)
      requires !s.Submit?
      modifies this
      ensures View(submitted, rejected) == Next(old(View(submitted, rejected)), s)
    {
      if s.Take? && |running| < live && queue != [] {
        running, queue := running + multiset{queue[0]}, queue[1..];
      }
      if s.Finish? && s.id in running {
        var row := RunProbe(s.id, s.at, s.millis, s.outcome, s.insertOk);
        running, finished := running - multiset{s.id}, finished + multiset{s.id};
        if row.Some? {
          rows := rows + [row.value];
        }
      }
    }
  }

  class Dispatcher {
    const pool: ThreadPool
    var rejectedProbes: nat
    ghost var submitted: multiset<nat>
    ghost var rejected: multiset<nat>

    constructor (pool: ThreadPool)
      ensures this.pool == pool && rejectedProbes == 0 && submitted == rejected == multiset{}
    {
      this.pool, rejectedProbes, submitted, rejected := pool, 0, multiset{}, multiset{};
    }

    ghost function View(): Pool
      reads this, pool
    {
      pool.View(submitted, rejected)
    }

    ghost predicate Valid()
      reads this
    {
      rejectedProbes == |rejected|
    }

    lemma {:induction false} CountsRejections()
      requires Valid()
      ensures Rejections(View()) == rejectedProbes
    {
    }

    /** The workers make some moves while the dispatcher's thread is elsewhere. */
    method Interleave(moves: seq<Step>)
      requires forall s :: s in moves ==> !s.Submit?
      modifies pool
      ensures View() == After(old(View()), moves, |moves|)
    {
      for i := 0 to |moves|
        invariant View() == After(old(View()), moves, i)
      {
        assert moves[i] in moves;
        pool.Work(moves[i], submitted, rejected);
      }
    }

    /** Counts the probe if the pool rejects it. */
    method SubmitProbe(id: nat)
      requires Valid()
      modifies this, pool
      ensures Valid() && View() == Submitted(old(View()), id)
    {
      var accepted := pool.Execute(id, submitted, rejected);
      submitted := submitted + multiset{id};
      if !accepted {
        rejectedProbes, rejected := rejectedProbes + 1, rejected + multiset{id};
      }
    }

    /**
      One tick. A claim that fails submits nothing; otherwise every claimed endpoint is submitted in
      order, and moves(i) is what the workers do before submission i. The tick is a run of the pool
      whose submissions are the claim.
    */
    method Run(claim: Option<seq<nat>>, moves: nat -> seq<Step>) returns (ghost steps: seq<Step>)
      requires Valid() && forall i, s :: s in moves(i) ==> !s.Submit?
      modifies this, pool
      ensures Valid()
      ensures View() == After(old(View()), steps, |steps|)
      ensures Submissions(steps, |steps|) == if claim.Some? then claim.value else []
      ensures old(Within(View()) && Conserved(View())) ==>
        TickIsBounded(old(View()), View(), |Submissions(steps, |steps|)|) && Rejections(View()) == rejectedProbes
    {
      steps := [];
      ghost var start := View();
      hide *;
      var ids := if claim.Some? then claim.value else [];
      TickBegins(start, ids);
      if claim.None? {
        TickEnds(start, View(), steps, ids);
        CountsRejections();
        return;
      }
      for i := 0 to |ids|
        invariant Valid() && TickTo(start, View(), steps, ids, i)
      {
        TickStep(start, View(), steps, ids, i, moves(i));
        Interleave(moves(i));
        SubmitProbe(ids[i]);
        steps := Extended(steps, moves(i), ids[i]);
      }
      TickEnds(start, View(), steps, ids);
      CountsRejections();
    }
  }
}
