/**
  Silence on the channel means that health has not changed: what a dashboard row shows once the
  newest change has reached it by message or by snapshot, in whatever order and mixed with stale
  inputs, whatever else was missed.
*/
module Silence {
  import opened Common
  import opened Checks
  import opened AlertRuns
  import opened Agreement
  import opened Publishing
  import opened Dashboard

  /** A message announces check j. */
  predicate Announces(x: Input, h: seq<CheckRow>, j: nat) {
    j < |h| && Announced(h, j) && x.FromSocket? && x.d.code == h[j].code && x.d.at == Some(h[j].at)
  }

  /** A snapshot was taken when check j was the endpoint's latest result. */
  predicate TakenAfter(x: Input, h: seq<CheckRow>, j: nat) {
    j < |h| && x.FromSnapshot? && x.e.code == h[j].code && x.e.at == Some(h[j].at)
  }

  /** A snapshot was taken before the first check. */
  predicate TakenBefore(x: Input) {
    x.FromSnapshot? && x.e.code == None && x.e.at == None
  }

  ghost predicate Genuine(x: Input, h: seq<CheckRow>) {
    TakenBefore(x) || exists j :: 0 <= j < |h| && (Announces(x, h, j) || TakenAfter(x, h, j))
  }

  ghost predicate Arrived(inputs: seq<Input>, h: seq<CheckRow>, j: nat) {
    exists i :: 0 <= i < |inputs| && Announces(inputs[i], h, j)
  }

  ghost predicate AllGenuine(inputs: seq<Input>, h: seq<CheckRow>) {
    forall i :: 0 <= i < |inputs| ==> Genuine(inputs[i], h)
  }

  /** The input announces the newest change, or is a snapshot taken at or after it. */
  ghost predicate TellsChange(x: Input, h: seq<CheckRow>) {
    h != [] && (Announces(x, h, LastChange(h, |h|)) || exists j :: LastChange(h, |h|) <= j < |h| && TakenAfter(x, h, j))
  }

  /** Some input tells the newest change, if there is one. */
  ghost predicate Told(inputs: seq<Input>, h: seq<CheckRow>) {
    h != [] ==> exists i :: 0 <= i < |inputs| && TellsChange(inputs[i], h)
  }

  /**
    The row received the newest change in one way or the other. A page that was opened later, or
    lost messages while it was disconnected, is caught up after its next snapshot.
  */
  ghost predicate CaughtUp(inputs: seq<Input>, h: seq<CheckRow>) {
    AllGenuine(inputs, h) && Told(inputs, h)
  }

  /** Every announcement of the history has arrived, in any order; snapshots of any age may be mixed in. */
  ghost predicate Delivered(inputs: seq<Input>, h: seq<CheckRow>) {
    AllGenuine(inputs, h) && forall j :: 0 <= j < |h| && Announced(h, j) ==> Arrived(inputs, h, j)
  }

  lemma {:induction false} DeliveredIsCaughtUp(inputs: seq<Input>, h: seq<CheckRow>)
    requires Delivered(inputs, h)
    ensures CaughtUp(inputs, h)
  {
    if h != [] {
      var p := LastChange(h, |h|);
      assert Arrived(inputs, h, p);
      var i :| 0 <= i < |inputs| && Announces(inputs[i], h, p);
      assert TellsChange(inputs[i], h);
    }
  }

  /** A snapshot of the present repairs whatever was missed before it. */
  lemma {:induction false} SnapshotRepairs(inputs: seq<Input>, h: seq<CheckRow>, x: Input)
    requires AllGenuine(inputs, h) && h != [] && TakenAfter(x, h, |h| - 1)
    ensures CaughtUp(inputs + [x], h)
  {
    var after := inputs + [x];
    assert TellsChange(x, h) && after[|inputs|] == x;
    forall i | 0 <= i < |after| ensures Genuine(after[i], h) {
      if i < |inputs| {
        assert Genuine(inputs[i], h);
      }
    }
  }

  function Shown(inputs: seq<Input>): Verdict {
    var row := Received(BLANK, inputs, |inputs|);
    HealthOf(row.code, row.at)
  }

  function Actual(h: seq<CheckRow>): Verdict {
    if h == [] then Unknown else if Up(h[|h| - 1]) then UpNow else DownNow
  }

  /** The newest check that was announced. */
  function LastChange(h: seq<CheckRow>, n: nat): (p: nat)
    requires 0 < n <= |h|
    ensures p < n && Announced(h, p)
    ensures forall j :: p <= j < n ==> Up(h[j]) == Up(h[n - 1])
  {
    if Announced(h, n - 1) then n - 1 else LastChange(h, n - 1)
  }

  /** The newest change of health falls into a later millisecond than the check before it. */
  predicate ChangeIsVisible(h: seq<CheckRow>) {
    h != [] ==> var p := LastChange(h, |h|); p == 0 || Millis(h[p - 1].at) < Millis(h[p].at)
  }

  lemma {:induction false} GenuineIsWellFormed(inputs: seq<Input>, h: seq<CheckRow>)
    requires AllGenuine(inputs, h)
    ensures forall i :: 0 <= i < |inputs| ==> WellFormed(inputs[i])
  {
    forall i | 0 <= i < |inputs| ensures WellFormed(inputs[i]) {
      assert Genuine(inputs[i], h);
    }
  }

  /** What the row shows stems from a check at or after the newest change. */
  lemma {:induction false} ShownIsCurrent(h: seq<CheckRow>, x: Input, p: nat)
    requires StrictlyOrdered(h) && h != [] && p == LastChange(h, |h|) && ChangeIsVisible(h)
    requires Genuine(x, h) && StampOf(x).Some? && StampOf(x).value >= Millis(h[p].at)
    ensures UpFor(CodeOf(x)) == Up(h[|h| - 1])
  {
  }

  lemma {:induction false} VisibleIsShown(h: seq<CheckRow>, inputs: seq<Input>)
    requires StrictlyOrdered(h) && ChangeIsVisible(h) && CaughtUp(inputs, h)
    ensures Shown(inputs) == Actual(h)
  {
    var row := Received(BLANK, inputs, |inputs|);
    GenuineIsWellFormed(inputs, h);
    RowShowsNewest(inputs, |inputs|);
    if h != [] {
      ChangeArrived(h, inputs, row);
    }
    if row.at.Some? {
      var i :| 0 <= i < |inputs| && StampOf(inputs[i]) == row.at && CodeOf(inputs[i]) == row.code;
      assert Genuine(inputs[i], h);
      ShownIsCurrent(h, inputs[i], LastChange(h, |h|));
    }
  }

  lemma {:induction false} ChangeArrived(h: seq<CheckRow>, inputs: seq<Input>, row: Row)
    requires StrictlyOrdered(h) && h != [] && Told(inputs, h) && ShowsNewest(row, inputs, |inputs|)
    ensures row.at.Some? && row.at.value >= Millis(h[LastChange(h, |h|)].at)
  {
    var p := LastChange(h, |h|);
    var i :| 0 <= i < |inputs| && TellsChange(inputs[i], h);
    if !Announces(inputs[i], h, p) {
      var j :| p <= j < |h| && TakenAfter(inputs[i], h, j);
      assert h[p].at <= h[j].at;
    }
    assert StampOf(inputs[i]).Some? && StampOf(inputs[i]).value >= Millis(h[p].at);
  }

  /* ---------- the condition is exact ---------- */

  /** All announcements in order. */
  function InOrderDelivery(h: seq<CheckRow>, n: nat): seq<Input>
    requires n <= |h|
  {
    if n == 0 then []
    else InOrderDelivery(h, n - 1) +
         (if Announced(h, n - 1) then [FromSocket(Delta(0, h[n - 1].code, Some(h[n - 1].at)), 0)] else [])
  }

  ghost predicate AnnouncesSome(x: Input, h: seq<CheckRow>, n: nat) {
    exists j :: 0 <= j < n && Announces(x, h, j)
  }

  lemma {:induction false} AnnouncesMore(x: Input, h: seq<CheckRow>, n: nat)
    requires n > 0 && AnnouncesSome(x, h, n - 1)
    ensures AnnouncesSome(x, h, n)
  {
  }

  lemma {:induction false} ArrivedMore(inputs: seq<Input>, more: seq<Input>, h: seq<CheckRow>, j: nat)
    requires Arrived(inputs, h, j)
    ensures Arrived(inputs + more, h, j)
  {
    var i :| 0 <= i < |inputs| && Announces(inputs[i], h, j);
    assert Announces((inputs + more)[i], h, j);
  }

  ghost predicate AllArrived(inputs: seq<Input>, h: seq<CheckRow>, n: nat) {
    && (forall i :: 0 <= i < |inputs| ==> AnnouncesSome(inputs[i], h, n))
    && (forall j :: 0 <= j < n <= |h| && Announced(h, j) ==> Arrived(inputs, h, j))
  }

  lemma {:induction false} InOrderDelivers(h: seq<CheckRow>, n: nat)
    requires n <= |h|
    ensures AllArrived(InOrderDelivery(h, n), h, n)
  {
    if n > 0 {
      var before := InOrderDelivery(h, n - 1);
      var x := FromSocket(Delta(0, h[n - 1].code, Some(h[n - 1].at)), 0);
      InOrderDelivers(h, n - 1);
      if Announced(h, n - 1) {
        assert Announces(x, h, n - 1);
        assert AnnouncesSome(x, h, n);
        assert Arrived(before + [x], h, n - 1) by {
          assert (before + [x])[|before|] == x;
        }
        OneMoreArrives(before, [x], h, n);
      } else {
        OneMoreArrives(before, [], h, n);
      }
    }
  }

  lemma {:induction false} OneMoreArrives(before: seq<Input>, more: seq<Input>, h: seq<CheckRow>, n: nat)
    requires 0 < n <= |h| && AllArrived(before, h, n - 1)
    requires forall i :: 0 <= i < |more| ==> AnnouncesSome(more[i], h, n)
    requires Announced(h, n - 1) ==> Arrived(before + more, h, n - 1)
    ensures AllArrived(before + more, h, n)
  {
    var after := before + more;
    forall i | 0 <= i < |after| ensures AnnouncesSome(after[i], h, n) {
      if i < |before| {
        AnnouncesMore(before[i], h, n);
      }
    }
    forall j | 0 <= j < n && Announced(h, j) ensures Arrived(after, h, j) {
      if j < n - 1 {
        ArrivedMore(before, more, h, j);
      }
    }
  }

  /** All announcements in order, then a snapshot that was taken just before the newest change. */
  function StaleDelivery(h: seq<CheckRow>, p: nat): seq<Input>
    requires 0 < p < |h|
  {
    InOrderDelivery(h, |h|) + [FromSnapshot(Listed(0, h[p - 1].code, Some(h[p - 1].at), false))]
  }

  lemma {:induction false} StaleIsDelivered(h: seq<CheckRow>, p: nat)
    requires 0 < p < |h|
    ensures Delivered(StaleDelivery(h, p), h)
  {
    var first, inputs := InOrderDelivery(h, |h|), StaleDelivery(h, p);
    InOrderDelivers(h, |h|);
    hide InOrderDelivery;
    forall i | 0 <= i < |inputs| ensures Genuine(inputs[i], h) {
      if i < |first| {
        assert AnnouncesSome(first[i], h, |h|);
      } else {
        assert TakenAfter(inputs[i], h, p - 1);
      }
    }
    forall j | 0 <= j < |h| && Announced(h, j) ensures Arrived(inputs, h, j) {
      ArrivedMore(first, inputs[|first|..], h, j);
      assert first + inputs[|first|..] == inputs;
    }
  }

  lemma {:induction false} PrefixReceived(row: Row, inputs: seq<Input>, more: seq<Input>, k: nat)
    requires k <= |inputs| && k <= |more| && forall i :: 0 <= i < k ==> inputs[i] == more[i]
    ensures Received(row, inputs, k) == Received(row, more, k)
  {
    if k > 0 {
      PrefixReceived(row, inputs, more, k - 1);
    }
  }

  /** No announcement is newer than the newest change. */
  lemma {:induction false} AnnouncementsAreOld(h: seq<CheckRow>, x: Input)
    requires StrictlyOrdered(h) && h != [] && AnnouncesSome(x, h, |h|)
    ensures WellFormed(x) && StampOf(x).Some? && StampOf(x).value <= Millis(h[LastChange(h, |h|)].at)
  {
  }

  ghost predicate NotNewer(inputs: seq<Input>, t: int) {
    forall i :: 0 <= i < |inputs| ==>
      WellFormed(inputs[i]) && StampOf(inputs[i]).Some? && StampOf(inputs[i]).value <= t
  }

  lemma {:induction false} InOrderNotNewer(h: seq<CheckRow>)
    requires StrictlyOrdered(h) && h != []
    ensures NotNewer(InOrderDelivery(h, |h|), Millis(h[LastChange(h, |h|)].at))
  {
    var first, t := InOrderDelivery(h, |h|), Millis(h[LastChange(h, |h|)].at);
    InOrderDelivers(h, |h|);
    hide InOrderDelivery, Millis, LastChange, AnnouncesSome, StampOf, WellFormed;
    forall i | 0 <= i < |first| ensures WellFormed(first[i]) && StampOf(first[i]).Some? && StampOf(first[i]).value <= t {
      AnnouncementsAreOld(h, first[i]);
    }
  }

  lemma {:induction false} NotNewerRow(inputs: seq<Input>, t: int)
    requires NotNewer(inputs, t)
    ensures var row := Received(BLANK, inputs, |inputs|); row.at.Some? ==> row.at.value <= t
  {
    hide StampOf, CodeOf, WellFormed;
    RowShowsNewest(inputs, |inputs|);
  }

  lemma {:induction false} InOrderIsOld(h: seq<CheckRow>)
    requires StrictlyOrdered(h) && h != []
    ensures var first := InOrderDelivery(h, |h|); var row := Received(BLANK, first, |first|);
      row.at.Some? ==> row.at.value <= Millis(h[LastChange(h, |h|)].at)
  {
    InOrderNotNewer(h);
    NotNewerRow(InOrderDelivery(h, |h|), Millis(h[LastChange(h, |h|)].at));
  }

  lemma {:induction false} ReceivedLast(inputs: seq<Input>, x: Input)
    ensures Received(BLANK, inputs + [x], |inputs| + 1) == Receive(Received(BLANK, inputs, |inputs|), x)
  {
    PrefixReceived(BLANK, inputs, inputs + [x], |inputs|);
  }

  /** A stale snapshot from the same millisecond replaces the newer state. */
  lemma {:induction false} InvisibleIsHidden(h: seq<CheckRow>)
    requires StrictlyOrdered(h) && !ChangeIsVisible(h)
    ensures var inputs := StaleDelivery(h, LastChange(h, |h|)); Delivered(inputs, h) && Shown(inputs) != Actual(h)
  {
    hide Delivered, Received, Receive, Millis, InOrderDelivery, Shown, Actual, StaleDelivery;
    var p := LastChange(h, |h|);
    StaleIsDelivered(h, p);
    StaleShows(h, p);
    BeforeChange(h, p);
  }

  lemma {:induction false} BeforeChange(h: seq<CheckRow>, p: nat)
    requires 0 < p < |h| && p == LastChange(h, |h|)
    ensures Actual(h) == if Up(h[p - 1]) then DownNow else UpNow
  {
  }

  lemma {:induction false} StaleShows(h: seq<CheckRow>, p: nat)
    requires StrictlyOrdered(h) && 0 < p < |h| && p == LastChange(h, |h|) && Millis(h[p - 1].at) >= Millis(h[p].at)
    ensures Shown(StaleDelivery(h, p)) == if Up(h[p - 1]) then UpNow else DownNow
  {
    var first := InOrderDelivery(h, |h|);
    InOrderIsOld(h);
    ReceivedLast(first, FromSnapshot(Listed(0, h[p - 1].code, Some(h[p - 1].at), false)));
    hide InOrderDelivery, Millis, Received, Receive, LastChange;
    StaleWins(h, Received(BLANK, first, |first|), p);
  }

  lemma {:induction false} StaleWins(h: seq<CheckRow>, before: Row, p: nat)
    requires 0 < p < |h| && (before.at.Some? ==> before.at.value <= Millis(h[p - 1].at))
    ensures var row := Receive(before, FromSnapshot(Listed(0, h[p - 1].code, Some(h[p - 1].at), false)));
      HealthOf(row.code, row.at) == if Up(h[p - 1]) then UpNow else DownNow
  {
  }

  /**
    Main result: a dashboard row that is caught up agrees with the database, whatever it received
    and in whatever order, if and only if the newest change of health is visible at the browser's
    millisecond resolution. Receiving every announcement does not change the condition. Checks that
    keep the same health are never announced, and need not be.
  */
  lemma {:induction false} SilenceMeansUnchanged(h: seq<CheckRow>)
    requires StrictlyOrdered(h)
    ensures (forall inputs :: CaughtUp(inputs, h) ==> Shown(inputs) == Actual(h)) <==> ChangeIsVisible(h)
    ensures (forall inputs :: Delivered(inputs, h) ==> Shown(inputs) == Actual(h)) <==> ChangeIsVisible(h)
  {
    hide *;
    forall inputs | Delivered(inputs, h) ensures CaughtUp(inputs, h) {
      DeliveredIsCaughtUp(inputs, h);
    }
    if ChangeIsVisible(h) {
      forall inputs | CaughtUp(inputs, h) ensures Shown(inputs) == Actual(h) {
        VisibleIsShown(h, inputs);
      }
    } else {
      InvisibleIsHidden(h);
    }
  }

  function CheckOf(endpoint: nat, owner: nat, at: Time, code: Option<int>, prev: Option<CheckRow>): Event {
    Checked(Probe(endpoint, "", at, code), Choices([], prev, Some(owner), 0, None, true))
  }

  /** A success and a failure in one millisecond. */
  function Blink(endpoint: nat): seq<CheckRow> {
    [CheckRow(0, endpoint, 1_000, Some(200)), CheckRow(1, endpoint, 1_001, None)]
  }

  function BlinkEvents(endpoint: nat, owner: nat): seq<Event> {
    [CheckOf(endpoint, owner, 1_000, Some(200), None), CheckOf(endpoint, owner, 1_001, None, Some(Blink(endpoint)[0]))]
  }

  function Empty(): World {
    World(map[], 0, map[], [], [], [])
  }

  /** An orderly run whose newest change is not visible. */
  lemma {:induction false} InvisibleHappens(endpoint: nat, owner: nat)
    ensures var w, events := Empty(), BlinkEvents(endpoint, owner);
      && PossibleRun(w, events) && LogMatches(w, endpoint, owner, [])
      && (forall i :: 0 <= i < 2 ==> Orderly(After(w, events, i), events[i], endpoint, owner))
      && History(After(w, events, 2), endpoint) == Blink(endpoint)
      && !ChangeIsVisible(Blink(endpoint))
  {
    var w, events := Empty(), BlinkEvents(endpoint, owner);
    NoStep(w, events, 0);
    LastStep(w, events, 1, 0);
    LastStep(w, events, 2, 0);
    BlinkRun(endpoint, owner);
    hide After, Apply, Possible, Orderly, History, ChangeIsVisible, Blink, CheckOf;
    BlinkIsInvisible(endpoint);
  }

  lemma {:induction false} BlinkIsInvisible(endpoint: nat)
    ensures !ChangeIsVisible(Blink(endpoint))
  {
  }

  lemma {:induction false} BlinkRun(endpoint: nat, owner: nat)
    ensures var w, events, h := Empty(), BlinkEvents(endpoint, owner), Blink(endpoint);
      var v := Apply(w, events[0]);
      && Possible(w, events[0]) && Possible(v, events[1])
      && LogMatches(w, endpoint, owner, [])
      && Orderly(w, events[0], endpoint, owner) && Orderly(v, events[1], endpoint, owner)
      && History(Apply(v, events[1]), endpoint) == h
  {
    BlinkFirst(endpoint, owner);
    BlinkSecond(Apply(Empty(), BlinkEvents(endpoint, owner)[0]), endpoint, owner);
    hide Possible, Orderly, History, Apply;
  }

  lemma {:induction false} BlinkFirst(endpoint: nat, owner: nat)
    ensures var w, e := Empty(), BlinkEvents(endpoint, owner)[0];
      && Possible(w, e) && LogMatches(w, endpoint, owner, []) && Orderly(w, e, endpoint, owner)
      && Apply(w, e).results == Blink(endpoint)[..1] && Apply(w, e).configs == w.configs
  {
    assert ResultsFor(Empty().results, endpoint) == {};
    assert AlertRows(Empty().configs, endpoint) == {};
  }

  lemma {:induction false} BlinkSecond(v: World, endpoint: nat, owner: nat)
    requires v.results == Blink(endpoint)[..1] && v.configs == map[]
    ensures var e := BlinkEvents(endpoint, owner)[1];
      Possible(v, e) && Orderly(v, e, endpoint, owner) && History(Apply(v, e), endpoint) == Blink(endpoint)
  {
    var e, h := BlinkEvents(endpoint, owner)[1], Blink(endpoint);
    hide VisitAll;
    assert v.results == [h[0]] && ResultsFor(v.results, endpoint) == {h[0]};
    assert AlertRows(v.configs, endpoint) == {};
    OneRowHistory(v, h[0]);
    HistoryAppend(v, Apply(v, e), h[1], endpoint);
    hide History;
  }

  /* ---------- from the publish log to the dashboard ---------- */

  /** What the socket hands to the page for one published message. */
  function ToInput(m: Message, now: Time): Input {
    FromSocket(Delta(m.endpoint, m.code, Some(m.at)), now)
  }

  /** An input is a message of the publish log or a snapshot of some moment of the history. */
  ghost predicate Plausible(x: Input, log: seq<Message>, h: seq<CheckRow>) {
    || (x.FromSocket? && exists m :: m in log && x == ToInput(m, x.now))
    || TakenBefore(x)
    || (exists j :: 0 <= j < |h| && TakenAfter(x, h, j))
  }

  ghost predicate HasArrived(inputs: seq<Input>, m: Message) {
    exists i :: 0 <= i < |inputs| && inputs[i].FromSocket? && inputs[i] == ToInput(m, inputs[i].now)
  }

  lemma {:induction false} LogIsGenuine(h: seq<CheckRow>, owner: nat, accepted: seq<bool>, x: Input)
    requires |accepted| == |h| && Plausible(x, Sent(h, owner, accepted, |h|), h)
    ensures Genuine(x, h)
  {
    if x.FromSocket? {
      var m :| m in Sent(h, owner, accepted, |h|) && x == ToInput(m, x.now);
      SentMembers(h, owner, accepted, |h|, m);
      var j :| 0 <= j < |h| && Announced(h, j) && accepted[j] && m == MessageFor(h[j], owner);
      assert Announces(x, h, j);
    }
  }

  /** If the newest change was accepted by the channel, its message is in the log and tells the change. */
  lemma {:induction false} AcceptedChangeTells(h: seq<CheckRow>, owner: nat, accepted: seq<bool>, inputs: seq<Input>)
    requires |accepted| == |h| && (h != [] ==> accepted[LastChange(h, |h|)])
    requires forall m :: m in Sent(h, owner, accepted, |h|) ==> HasArrived(inputs, m)
    ensures Told(inputs, h)
  {
    if h != [] {
      var p := LastChange(h, |h|);
      var m := MessageFor(h[p], owner);
      SentMembers(h, owner, accepted, |h|, m);
      assert HasArrived(inputs, m);
      var i :| 0 <= i < |inputs| && inputs[i].FromSocket? && inputs[i] == ToInput(m, inputs[i].now);
      assert TellsChange(inputs[i], h);
    }
  }

  /**
    End to end: after any orderly run of checks, whichever publishes were lost, a dashboard row
    whose inputs are published messages and snapshots, one of which tells the newest change, shows
    the health of the endpoint's latest database row.
  */
  lemma {:induction false} DashboardFollowsDatabase(
    w: World, events: seq<Event>, endpoint: nat, owner: nat, accepted: seq<bool>, inputs: seq<Input>)
    requires PossibleRun(w, events) && LogMatches(w, endpoint, owner, accepted)
    requires forall i :: 0 <= i < |events| ==> Orderly(After(w, events, i), events[i], endpoint, owner)
    requires var v := After(w, events, |events|);
      && (forall i :: 0 <= i < |inputs| ==> Plausible(inputs[i], PublishLog(v, endpoint), History(v, endpoint)))
      && Told(inputs, History(v, endpoint))
      && ChangeIsVisible(History(v, endpoint))
    ensures Shown(inputs) == Actual(History(After(w, events, |events|), endpoint))
  {
    RunPublishesChanges(w, events, |events|, endpoint, owner, accepted);
    var h := History(After(w, events, |events|), endpoint);
    var all := accepted + AcceptedBy(events, |events|, endpoint);
    hide After, Plausible, Genuine, PossibleRun, Orderly, ChangeIsVisible, Told, Shown, Actual, Sent, PublishLog, History;
    forall i | 0 <= i < |inputs| ensures Genuine(inputs[i], h) {
      LogIsGenuine(h, owner, all, inputs[i]);
    }
    VisibleIsShown(h, inputs);
  }
}
