/**
  The dashboard's copy of endpoint status: snapshots over HTTP and changes over the socket, merged
  row by row by timestamp, whatever order they arrive in.
*/
module Dashboard {
  import opened Common
  import opened Publishing

  /** A browser Date has millisecond resolution; the server's timestamps have microseconds. */
  function Millis(t: Time): int {
    t / 1_000
  }

  datatype Row = Row(code: Option<int>, at: Option<int>, overdue: bool)

  const BLANK := Row(None, None, false)

  /** One endpoint of a snapshot: its latest result as the status query joined it. */
  datatype Listed = Listed(id: nat, code: Option<int>, at: Option<Time>, overdue: bool)

  /** One message from the socket. */
  datatype Delta = Delta(id: nat, code: Option<int>, at: Option<Time>)

  datatype Verdict = UpNow | DownNow | Unknown

  function HealthOf(code: Option<int>, at: Option<int>): Verdict {
    if at.None? then Unknown
    else if code.None? then DownNow
    else if code.value >= 200 && code.value < 400 then UpNow else DownNow
  }

  /* ---------- the merges ---------- */

  function Stamp(at: Option<Time>): Option<int> {
    if at.None? then None else Some(Millis(at.value))
  }

  function MergeListed(row: Row, e: Listed): Row {
    var at := Stamp(e.at);
    if row.at.None? || (at.Some? && at.value >= row.at.value) then Row(e.code, at, e.overdue)
    else row.(overdue := e.overdue)
  }

  function MergeDelta(row: Row, d: Delta, now: Time): Row {
    var at := Millis(if d.at.Some? then d.at.value else now);
    if row.at.Some? && at < row.at.value then row else Row(d.code, Some(at), false)
  }

  function RowOf(rows: map<nat, Row>, id: nat): Row {
    if id in rows then rows[id] else BLANK
  }

  function MergeAll(rows: map<nat, Row>, endpoints: seq<Listed>, k: nat): map<nat, Row>
    requires k <= |endpoints|
  {
    if k == 0 then rows else
      var before, e := MergeAll(rows, endpoints, k - 1), endpoints[k - 1];
      before[e.id := MergeListed(RowOf(before, e.id), e)]
  }

  function Ids(endpoints: seq<Listed>): set<nat> {
    set e | e in endpoints :: e.id
  }

  /** A snapshot merges every endpoint it lists and drops the rows of all others. */
  function Rendered(rows: map<nat, Row>, endpoints: seq<Listed>): map<nat, Row> {
    var merged := MergeAll(rows, endpoints, |endpoints|);
    map id | id in merged && id in Ids(endpoints) :: merged[id]
  }

  /** The row takes the message unless it already shows something newer; then it is checked, so not overdue. */
  predicate TakesMessage(row: Row, after: Row, code: Option<int>, at: int) {
    if row.at.Some? && row.at.value > at then after == row else after == Row(code, Some(at), false)
  }

  /**
    After a snapshot exactly the listed endpoints have rows. Each shows the snapshot's overdue flag,
    and its code and timestamp unless the row already showed something newer or the snapshot has no
    result.
  */
  ghost predicate ShowsSnapshot(before: map<nat, Row>, after: map<nat, Row>, endpoints: seq<Listed>) {
    && (forall id :: id in after <==> exists i :: 0 <= i < |endpoints| && endpoints[i].id == id)
    && ((forall i, j :: 0 <= i < j < |endpoints| ==> endpoints[i].id != endpoints[j].id) ==>
          forall i :: 0 <= i < |endpoints| ==> endpoints[i].id in after && TakesSnapshot(before, after[endpoints[i].id], endpoints[i]))
  }

  predicate TakesSnapshot(before: map<nat, Row>, row: Row, e: Listed) {
    && row.overdue == e.overdue
    && (if e.id in before && before[e.id].at.Some? && (e.at.None? || e.at.value / 1_000 < before[e.id].at.value)
        then row.at == before[e.id].at && row.code == before[e.id].code
        else row.code == e.code && row.at == if e.at.Some? then Some(e.at.value / 1_000) else None)
  }

  lemma {:induction false} MergeTakes(before: map<nat, Row>, e: Listed)
    ensures TakesSnapshot(before, MergeListed(RowOf(before, e.id), e), e)
  {
  }

  lemma {:induction false} SnapshotIsShown(before: map<nat, Row>, endpoints: seq<Listed>)
    ensures ShowsSnapshot(before, Rendered(before, endpoints), endpoints)
  {
    var after := Rendered(before, endpoints);
    MergedKeys(before, endpoints, |endpoints|);
    if forall i, j :: 0 <= i < j < |endpoints| ==> endpoints[i].id != endpoints[j].id {
      forall i | 0 <= i < |endpoints| ensures endpoints[i].id in after && TakesSnapshot(before, after[endpoints[i].id], endpoints[i]) {
        MergeAllTouches(before, endpoints, |endpoints|, endpoints[i].id);
        MergeTakes(before, endpoints[i]);
        hide TakesSnapshot, MergeListed, MergeAll;
      }
    }
  }

  lemma {:induction false} MergedKeys(before: map<nat, Row>, endpoints: seq<Listed>, k: nat)
    requires k <= |endpoints|
    ensures forall i :: 0 <= i < k ==> endpoints[i].id in MergeAll(before, endpoints, k)
  {
    if k > 0 {
      MergedKeys(before, endpoints, k - 1);
      hide MergeListed;
    }
  }

  class Table {
    var rows: map<nat, Row>

    constructor ()
      ensures rows == map[]
    {
      rows := map[];
    }

    method Render(endpoints: seq<Listed>)
      modifies this
      ensures rows == Rendered(old(rows), endpoints)
      ensures ShowsSnapshot(old(rows), rows, endpoints)
    {
      SnapshotIsShown(rows, endpoints);
      if |endpoints| == 0 {
        rows := map[];
        return;
      }
      hide ShowsSnapshot, MergeListed;
      ghost var before := rows;
      var seen: set<nat> := {};
      var k := 0;
      while k < |endpoints|
        invariant 0 <= k <= |endpoints|
        invariant rows == MergeAll(before, endpoints, k)
        invariant seen == Ids(endpoints[..k])
      {
        seen := seen + {endpoints[k].id};
        Merge(endpoints[k]);
        assert endpoints[..k + 1] == endpoints[..k] + [endpoints[k]];
        k := k + 1;
      }
      assert endpoints[..k] == endpoints;
      Drop(seen);
    }

    method Merge(e: Listed)
      modifies this
      ensures rows == old(rows)[e.id := MergeListed(RowOf(old(rows), e.id), e)]
    {
      if e.id !in rows {
        rows := rows[e.id := BLANK];
      }
      var row := rows[e.id];
      var at := Stamp(e.at);
      row := row.(overdue := e.overdue);
      if row.at.None? || (at.Some? && at.value >= row.at.value) {
        row := row.(code := e.code, at := at);
      }
      rows := rows[e.id := row];
    }

    /** Removes the rows that the snapshot did not list. */
    method Drop(seen: set<nat>)
      modifies this
      ensures rows == map id | id in old(rows) && id in seen :: old(rows)[id]
    {
      ghost var before := rows;
      var left := rows.Keys;
      while left != {}
        invariant left <= before.Keys
        invariant rows == map id | id in before && (id in left || id in seen) :: before[id]
        decreases left
      {
        var id :| id in left;
        left := left - {id};
        if id !in seen {
          rows := rows - {id};
        }
      }
    }

    /** Returns whether a fresh snapshot is needed because the row is unknown. */
    method ApplyUpdate(d: Delta, now: Time) returns (reload: bool)
      modifies this
      ensures reload <==> d.id !in old(rows)
      ensures rows == if reload then old(rows) else old(rows)[d.id := MergeDelta(old(rows)[d.id], d, now)]
      ensures !reload ==> TakesMessage(old(rows)[d.id], rows[d.id], d.code, (if d.at.Some? then d.at.value else now) / 1_000)
    {
      if d.id !in rows {
        return true;
      }
      var row := rows[d.id];
      var at := Millis(if d.at.Some? then d.at.value else now);
      if row.at.Some? && at < row.at.value {
        assert rows == rows[d.id := row];
        return false;
      }
      rows := rows[d.id := Row(d.code, Some(at), false)];
      return false;
    }
  }

  /** Rows that a snapshot lists or a message names change as merged; a message touches no other row. */
  lemma {:induction false} MergeAllTouches(rows: map<nat, Row>, endpoints: seq<Listed>, k: nat, id: nat)
    requires k <= |endpoints|
    requires forall i, j :: 0 <= i < j < |endpoints| ==> endpoints[i].id != endpoints[j].id
    ensures var merged := MergeAll(rows, endpoints, k);
      if exists i :: 0 <= i < k && endpoints[i].id == id
      then id in merged && exists i :: 0 <= i < k && endpoints[i].id == id && merged[id] == MergeListed(RowOf(rows, id), endpoints[i])
      else (id in merged <==> id in rows) && (id in rows ==> merged[id] == rows[id])
  {
    if k > 0 {
      MergeAllTouches(rows, endpoints, k - 1, id);
      hide MergeListed;
      if endpoints[k - 1].id == id {
        assert MergeAll(rows, endpoints, k)[id] == MergeListed(RowOf(rows, id), endpoints[k - 1]);
      }
    }
  }

  /* ---------- convergence of one row ---------- */

  /** What one row receives while it stays in the table. */
  datatype Input = FromSnapshot(e: Listed) | FromSocket(d: Delta, now: Time)

  function Receive(row: Row, x: Input): Row {
    match x
    case FromSnapshot(e) => MergeListed(row, e)
    case FromSocket(d, now) => MergeDelta(row, d, now)
  }

  function Received(row: Row, inputs: seq<Input>, k: nat): Row
    requires k <= |inputs|
  {
    if k == 0 then row else Receive(Received(row, inputs, k - 1), inputs[k - 1])
  }

  function StampOf(x: Input): Option<int> {
    match x
    case FromSnapshot(e) => Stamp(e.at)
    case FromSocket(d, now) => Some(Millis(if d.at.Some? then d.at.value else now))
  }

  function CodeOf(x: Input): Option<int> {
    match x
    case FromSnapshot(e) => e.code
    case FromSocket(d, _) => d.code
  }

  /** The status query joins either a whole result row or nothing, so without a timestamp there is no code. */
  predicate WellFormed(x: Input) {
    StampOf(x).None? ==> CodeOf(x).None?
  }

  /** No input is newer than the row, and the row shows one of the newest inputs. */
  ghost predicate ShowsNewest(row: Row, inputs: seq<Input>, k: nat) {
    && k <= |inputs|
    && (forall i :: 0 <= i < k && StampOf(inputs[i]).Some? ==> row.at.Some? && StampOf(inputs[i]).value <= row.at.value)
    && (row.at.None? ==> row.code.None?)
    && (row.at.Some? ==> exists i :: 0 <= i < k && StampOf(inputs[i]) == row.at && CodeOf(inputs[i]) == row.code)
  }

  /**
    After any snapshots and messages in any order, with duplicates, a row shows the greatest
    timestamp received and a code received with that timestamp.
  */
  lemma {:induction false} RowShowsNewest(inputs: seq<Input>, k: nat)
    requires k <= |inputs| && forall i :: 0 <= i < |inputs| ==> WellFormed(inputs[i])
    ensures ShowsNewest(Received(BLANK, inputs, k), inputs, k)
  {
    if k > 0 {
      RowShowsNewest(inputs, k - 1);
      var before, after := Received(BLANK, inputs, k - 1), Received(BLANK, inputs, k);
      assert WellFormed(inputs[k - 1]);
      ReceiveMerges(before, inputs[k - 1]);
      hide Receive, StampOf, CodeOf;
      if after.at.Some? && after.at == before.at && after.code == before.code {
        var i :| 0 <= i < k - 1 && StampOf(inputs[i]) == before.at && CodeOf(inputs[i]) == before.code;
        assert StampOf(inputs[i]) == after.at;
      }
    }
  }

  /** A merge keeps the older pair or takes the newer one whole; the timestamp never decreases. */
  lemma {:induction false} ReceiveMerges(row: Row, x: Input)
    requires WellFormed(x) && (row.at.None? ==> row.code.None?)
    ensures var after := Receive(row, x);
      && (row.at.Some? ==> after.at.Some? && after.at.value >= row.at.value)
      && (StampOf(x).Some? ==> after.at.Some? && after.at.value >= StampOf(x).value)
      && ((after.at == row.at && after.code == row.code) || (after.at == StampOf(x) && after.code == CodeOf(x)))
      && (after.at.None? ==> after.code.None?)
  {
  }

  ghost predicate SameInputs(inputs: seq<Input>, other: seq<Input>) {
    forall x :: x in inputs <==> x in other
  }

  /** Equal timestamps carry equal codes. */
  ghost predicate Consistent(inputs: seq<Input>) {
    forall x, y :: x in inputs && y in inputs && StampOf(x) == StampOf(y) ==> CodeOf(x) == CodeOf(y)
  }

  /** Reordering and repeating inputs does not change what the row ends up showing. */
  lemma {:induction false} OrderDoesNotMatter(inputs: seq<Input>, other: seq<Input>)
    requires SameInputs(inputs, other) && Consistent(inputs)
    requires forall i :: 0 <= i < |inputs| ==> WellFormed(inputs[i])
    ensures var a, b := Received(BLANK, inputs, |inputs|), Received(BLANK, other, |other|); a.at == b.at && a.code == b.code
  {
    forall i | 0 <= i < |other| ensures WellFormed(other[i]) {
      assert other[i] in inputs;
    }
    RowShowsNewest(inputs, |inputs|);
    RowShowsNewest(other, |other|);
    NewestAgree(Received(BLANK, inputs, |inputs|), inputs, Received(BLANK, other, |other|), other);
  }

  lemma {:induction false} NewestAgree(a: Row, inputs: seq<Input>, b: Row, other: seq<Input>)
    requires SameInputs(inputs, other) && Consistent(inputs)
    requires ShowsNewest(a, inputs, |inputs|) && ShowsNewest(b, other, |other|)
    ensures a.at == b.at && a.code == b.code
  {
    hide StampOf, CodeOf;
    if a.at.Some? {
      var i :| 0 <= i < |inputs| && StampOf(inputs[i]) == a.at && CodeOf(inputs[i]) == a.code;
      assert inputs[i] in inputs && inputs[i] in other;
    }
    if b.at.Some? {
      var j :| 0 <= j < |other| && StampOf(other[j]) == b.at && CodeOf(other[j]) == b.code;
      assert other[j] in other && other[j] in inputs;
    }
  }
}
