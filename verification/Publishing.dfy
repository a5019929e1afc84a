/**
  Publish on change: which checks are announced on the status channel.
*/
module Publishing {
  import opened Common
  import opened Checks
  import opened AlertRuns
  import opened Agreement

  /** Check i is the first of the history or its health differs from that of the check before it. */
  predicate Announced(h: seq<CheckRow>, i: nat)
    requires i < |h|
  {
    i == 0 || Up(h[i]) != Up(h[i - 1])
  }

  function MessageFor(r: CheckRow, owner: nat): Message {
    Message(r.endpoint, owner, r.code, r.at, Up(r))
  }

  /** The announcements owed for the first n checks. */
  function Announcements(h: seq<CheckRow>, owner: nat, n: nat): seq<Message>
    requires n <= |h|
  {
    if n == 0 then []
    else Announcements(h, owner, n - 1) + if Announced(h, n - 1) then [MessageFor(h[n - 1], owner)] else []
  }

  ghost predicate Alternates(m: seq<Message>) {
    forall i :: 0 < i < |m| ==> m[i].up != m[i - 1].up
  }

  /** The announcements are the history of health without stutters: they alternate, and the newest tells the current health. */
  lemma {:induction false} AnnouncementsAlternate(h: seq<CheckRow>, owner: nat, n: nat)
    requires n <= |h|
    ensures Alternates(Announcements(h, owner, n))
    ensures n > 0 ==> var m := Announcements(h, owner, n); m != [] && m[|m| - 1].up == Up(h[n - 1])
    ensures n > 0 ==> Announcements(h, owner, n)[0].at == h[0].at
  {
    if n > 0 {
      AnnouncementsAlternate(h, owner, n - 1);
      hide Up;
      if !Announced(h, n - 1) {
        assert Announcements(h, owner, n) == Announcements(h, owner, n - 1);
      }
    }
  }

  /** The announcements of the first n checks that the channel accepted; the others are lost. */
  function Sent(h: seq<CheckRow>, owner: nat, accepted: seq<bool>, n: nat): seq<Message>
    requires n <= |h| && n <= |accepted|
  {
    if n == 0 then []
    else Sent(h, owner, accepted, n - 1) + if Announced(h, n - 1) && accepted[n - 1] then [MessageFor(h[n - 1], owner)] else []
  }

  lemma {:induction false} AcceptedAll(h: seq<CheckRow>, owner: nat, accepted: seq<bool>, n: nat)
    requires n <= |h| && n <= |accepted| && forall i :: 0 <= i < n ==> accepted[i]
    ensures Sent(h, owner, accepted, n) == Announcements(h, owner, n)
  {
    if n > 0 {
      AcceptedAll(h, owner, accepted, n - 1);
    }
  }

  /** A lost announcement is not made up for: checks that keep the health publish nothing. */
  lemma {:induction false} LostIsNotRepeated(h: seq<CheckRow>, owner: nat, accepted: seq<bool>, i: nat, n: nat)
    requires i < n <= |h| && n <= |accepted| && !accepted[i]
    requires forall j :: i < j < n ==> Up(h[j]) == Up(h[i])
    ensures Sent(h, owner, accepted, n) == Sent(h, owner, accepted, i)
  {
    if n > i + 1 {
      LostIsNotRepeated(h, owner, accepted, i, n - 1);
    }
  }

  lemma {:induction false} SentMembers(h: seq<CheckRow>, owner: nat, accepted: seq<bool>, n: nat, m: Message)
    requires n <= |h| && n <= |accepted|
    ensures m in Sent(h, owner, accepted, n) <==>
      exists j :: 0 <= j < n && Announced(h, j) && accepted[j] && m == MessageFor(h[j], owner)
  {
    if n > 0 {
      SentMembers(h, owner, accepted, n - 1, m);
      hide MessageFor, Announced;
    }
  }

  function PublishedFor(m: seq<Message>, n: nat, endpoint: nat): seq<Message>
    requires n <= |m|
  {
    if n == 0 then []
    else PublishedFor(m, n - 1, endpoint) + if m[n - 1].endpoint == endpoint then [m[n - 1]] else []
  }

  function PublishLog(w: World, endpoint: nat): seq<Message> {
    PublishedFor(w.published, |w.published|, endpoint)
  }

  lemma {:induction false} PublishedPrefix(m: seq<Message>, more: seq<Message>, n: nat, endpoint: nat)
    requires n <= |m| <= |more| && forall i :: 0 <= i < n ==> m[i] == more[i]
    ensures PublishedFor(m, n, endpoint) == PublishedFor(more, n, endpoint)
  {
    if n > 0 {
      PublishedPrefix(m, more, n - 1, endpoint);
    }
  }

  lemma {:induction false} PublishLogAppend(w: World, v: World, extra: seq<Message>, endpoint: nat)
    requires v.published == w.published + extra && |extra| <= 1
    ensures PublishLog(v, endpoint) == PublishLog(w, endpoint) + if extra != [] && extra[0].endpoint == endpoint then extra else []
  {
    PublishedPrefix(w.published, v.published, |w.published|, endpoint);
    if extra == [] {
      assert v.published == w.published;
      assert PublishLog(w, endpoint) + [] == PublishLog(w, endpoint);
    } else {
      assert extra == [extra[0]];
    }
  }

  lemma {:induction false} SentAppend(h: seq<CheckRow>, r: CheckRow, owner: nat, accepted: seq<bool>, ok: bool, n: nat)
    requires n <= |h| && n <= |accepted|
    ensures Sent(h + [r], owner, accepted + [ok], n) == Sent(h, owner, accepted, n)
  {
    if n > 0 {
      SentAppend(h, r, owner, accepted, ok, n - 1);
    }
  }

  /** The event commits a check of the endpoint. */
  predicate Commits(e: Event, endpoint: nat) {
    e.Checked? && e.choices.failAt.None? && e.p.endpoint == endpoint
  }

  function Outcome(e: Event, endpoint: nat): seq<bool> {
    if Commits(e, endpoint) then [e.choices.publishOk] else []
  }

  /** Which of the endpoint's committed checks could reach the channel. */
  function AcceptedBy(events: seq<Event>, k: nat, endpoint: nat): seq<bool>
    requires k <= |events|
  {
    if k == 0 then [] else AcceptedBy(events, k - 1, endpoint) + Outcome(events[k - 1], endpoint)
  }

  /**
    The endpoint belongs to this owner, its checks commit in increasing order of checked_at, and no
    row of it is stored without a check.
  */
  ghost predicate Orderly(w: World, e: Event, endpoint: nat, owner: nat) {
    && (e.Stored? ==> e.endpoint != endpoint)
    && (Commits(e, endpoint) ==> e.choices.owner == Some(owner) && forall r :: r in History(w, endpoint) ==> r.at < e.p.at)
  }

  ghost predicate LogMatches(w: World, endpoint: nat, owner: nat, accepted: seq<bool>) {
    && StrictlyOrdered(History(w, endpoint))
    && |accepted| == |History(w, endpoint)|
    && PublishLog(w, endpoint) == Sent(History(w, endpoint), owner, accepted, |accepted|)
  }

  /** With an ordered history the row read before the insert is the newest one. */
  lemma {:induction false} PrevIsNewest(w: World, endpoint: nat, prev: Option<CheckRow>)
    requires StrictlyOrdered(History(w, endpoint)) && IsLatest(ResultsFor(w.results, endpoint), prev)
    ensures var h := History(w, endpoint); prev == if h == [] then None else Some(h[|h| - 1])
  {
    var h := History(w, endpoint);
    HistoryMembers(w.results, |w.results|, endpoint);
    assert w.results[..|w.results|] == w.results;
    assert forall r :: r in h <==> r in ResultsFor(w.results, endpoint);
    if h == [] {
      assert ResultsFor(w.results, endpoint) == {};
    } else {
      assert h[|h| - 1] in h;
      assert h[|h| - 1] in ResultsFor(w.results, endpoint);
      assert prev.value in h;
      var i :| 0 <= i < |h| && h[i] == prev.value;
    }
  }

  lemma {:induction false} CommitMatches(w: World, p: Probe, ch: Choices, owner: nat, accepted: seq<bool>)
    requires Allowed(w, p, ch) && ch.failAt.None?
    requires LogMatches(w, p.endpoint, owner, accepted) && Orderly(w, Checked(p, ch), p.endpoint, owner)
    ensures LogMatches(Attempt(w, p, ch), p.endpoint, owner, accepted + [ch.publishOk])
  {
    hide *;
    var h, r, v := History(w, p.endpoint), NewRow(w, p), Attempt(w, p, ch);
    CommitStores(w, p, ch, owner);
    PrevIsNewest(w, p.endpoint, ch.prev);
    SaysChange(w, p, ch, owner, h);
    MatchesNext(w, v, h, r, owner, accepted, ch.publishOk, Announcement(p, ch));
  }

  /** What the commit changes, and what an orderly commit and a matching log mean. */
  lemma {:induction false} CommitStores(w: World, p: Probe, ch: Choices, owner: nat)
    requires Allowed(w, p, ch) && ch.failAt.None? && Orderly(w, Checked(p, ch), p.endpoint, owner)
    ensures var v, r := Attempt(w, p, ch), NewRow(w, p);
      && v.results == w.results + [r] && v.published == w.published + Announcement(p, ch) && r.endpoint == p.endpoint
      && IsLatest(ResultsFor(w.results, p.endpoint), ch.prev) && ch.owner == Some(owner)
      && forall q :: q in History(w, p.endpoint) ==> q.at < r.at
    ensures forall accepted :: LogMatches(w, p.endpoint, owner, accepted) ==> StrictlyOrdered(History(w, p.endpoint))
  {
    hide VisitAll;
  }

  lemma {:induction false} SaysChange(w: World, p: Probe, ch: Choices, owner: nat, h: seq<CheckRow>)
    requires ch.owner == Some(owner) && ch.prev == if h == [] then None else Some(h[|h| - 1])
    ensures Announcement(p, ch) == if Announced(h + [NewRow(w, p)], |h|) && ch.publishOk then [MessageFor(NewRow(w, p), owner)] else []
  {
  }

  lemma {:induction false} MatchesNext(w: World, v: World, h: seq<CheckRow>, r: CheckRow, owner: nat, accepted: seq<bool>, ok: bool, extra: seq<Message>)
    requires v.results == w.results + [r] && v.published == w.published + extra && h == History(w, r.endpoint)
    requires LogMatches(w, r.endpoint, owner, accepted) && forall q :: q in h ==> q.at < r.at
    requires extra == if Announced(h + [r], |h|) && ok then [MessageFor(r, owner)] else []
    ensures LogMatches(v, r.endpoint, owner, accepted + [ok])
  {
    HistoryAppend(w, v, r, r.endpoint);
    PublishLogAppend(w, v, extra, r.endpoint);
    SentAppend(h, r, owner, accepted, ok, |h|);
    hide History, PublishLog, Announced;
    assert StrictlyOrdered(h + [r]);
  }

  lemma {:induction false} OtherMatches(w: World, e: Event, endpoint: nat, owner: nat, accepted: seq<bool>)
    requires LogMatches(w, endpoint, owner, accepted)
    requires !Commits(e, endpoint) && (e.Stored? ==> e.endpoint != endpoint)
    ensures LogMatches(Apply(w, e), endpoint, owner, accepted)
  {
    hide VisitAll;
    var v := Apply(w, e);
    HistoryPrefix(w.results, v.results, |w.results|, endpoint);
    PublishLogAppend(w, v, if e.Checked? && e.choices.failAt.None? then Announcement(e.p, e.choices) else [], endpoint);
    assert PublishLog(w, endpoint) + [] == PublishLog(w, endpoint);
  }

  lemma {:induction false} StepMatches(w: World, e: Event, endpoint: nat, owner: nat, accepted: seq<bool>)
    requires Possible(w, e) && LogMatches(w, endpoint, owner, accepted) && Orderly(w, e, endpoint, owner)
    ensures LogMatches(Apply(w, e), endpoint, owner, accepted + Outcome(e, endpoint))
  {
    if Commits(e, endpoint) {
      hide LogMatches;
      CommitMatches(w, e.p, e.choices, owner, accepted);
    } else {
      assert accepted + [] == accepted;
      hide LogMatches;
      OtherMatches(w, e, endpoint, owner, accepted);
    }
  }

  /**
    Throughout a run, the published messages of an endpoint are exactly the announcements of its
    history that the channel accepted.
  */
  lemma {:induction false} RunPublishesChanges(w: World, events: seq<Event>, k: nat, endpoint: nat, owner: nat, accepted: seq<bool>)
    requires PossibleRun(w, events) && k <= |events| && LogMatches(w, endpoint, owner, accepted)
    requires forall i :: 0 <= i < k ==> Orderly(After(w, events, i), events[i], endpoint, owner)
    ensures LogMatches(After(w, events, k), endpoint, owner, accepted + AcceptedBy(events, k, endpoint))
  {
    hide *;
    if k == 0 {
      NoStep(w, events, 0);
      NoneAccepted(events, endpoint);
      assert accepted + [] == accepted;
    } else {
      var more := Outcome(events[k - 1], endpoint);
      LastStep(w, events, k, 0);
      LastAccepted(events, k, endpoint);
      RunPublishesChanges(w, events, k - 1, endpoint, owner, accepted);
      StepMatches(After(w, events, k - 1), events[k - 1], endpoint, owner, accepted + AcceptedBy(events, k - 1, endpoint));
      assert accepted + AcceptedBy(events, k - 1, endpoint) + more == accepted + (AcceptedBy(events, k - 1, endpoint) + more);
    }
  }

  lemma {:induction false} NoneAccepted(events: seq<Event>, endpoint: nat)
    ensures AcceptedBy(events, 0, endpoint) == []
  {
  }

  lemma {:induction false} LastAccepted(events: seq<Event>, k: nat, endpoint: nat)
    requires 0 < k <= |events|
    ensures AcceptedBy(events, k, endpoint) == AcceptedBy(events, k - 1, endpoint) + Outcome(events[k - 1], endpoint)
  {
  }
}
