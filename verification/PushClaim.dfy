/**
 Which due rows CLAIM_SQL takes (api/push_delivery.py): the first rows no other claimer has locked, by next
 attempt and id; of those, the rows of the first devices.
 */
module PushClaim {
  import opened Common
  import opened PushDelivery

  /** ORDER BY a time, then an id. */
  datatype Turn = Turn(at: real, id: int)

  predicate Sooner(a: Turn, b: Turn) {
    a.at < b.at || (a.at == b.at && a.id < b.id)
  }

  /** No two keys share a turn. */
  ghost predicate OwnTurns(turns: map<int, Turn>) {
    forall x, y :: x in turns && y in turns && x != y ==> turns[x].id != turns[y].id
  }

  ghost predicate IsFirst(turns: map<int, Turn>, k: int) {
    k in turns && forall j :: j in turns && j != k ==> Sooner(turns[k], turns[j])
  }

  lemma {:induction false} FirstExists(turns: map<int, Turn>)
    requires turns != map[] && OwnTurns(turns)
    ensures exists k :: IsFirst(turns, k)
    decreases |turns|
  {
    assert turns.Keys != {};
    var a := SomeElement(turns.Keys);
    var rest := turns - {a};
    if rest == map[] {
      assert forall j :: j in turns && j != a ==> j in rest;
      assert IsFirst(turns, a);
    } else {
      FirstExists(rest);
      var b :| IsFirst(rest, b);
      var k := if Sooner(turns[a], turns[b]) then a else b;
      assert forall j :: j in turns && j != a ==> j in rest;
      assert IsFirst(turns, k);
    }
  }

  function First(turns: map<int, Turn>): (k: int)
    requires turns != map[] && OwnTurns(turns)
    ensures IsFirst(turns, k)
  {
    FirstExists(turns);
    var k :| k in turns && forall j :: j in turns && j != k ==> Sooner(turns[k], turns[j]);
    k
  }

  predicate AllIn(ks: seq<int>, turns: map<int, Turn>) {
    forall i :: 0 <= i < |ks| ==> ks[i] in turns
  }

  /** ORDER BY ... LIMIT n. */
  function FirstN(turns: map<int, Turn>, n: nat): (ks: seq<int>)
    requires OwnTurns(turns)
    ensures |ks| <= n && AllIn(ks, turns)
    decreases |turns|
  {
    if n == 0 || turns == map[] then []
    else
      var k := First(turns);
      [k] + FirstN(turns - {k}, n - 1)
  }

  /** In order, as many as the limit or all there are; what is left out comes after all of them. */
  ghost predicate InFront(turns: map<int, Turn>, ks: seq<int>, n: nat)
    requires AllIn(ks, turns)
  {
    && (forall i, j :: 0 <= i < j < |ks| ==> Sooner(turns[ks[i]], turns[ks[j]]))
    && (|ks| < n ==> forall k :: k in turns ==> k in ks)
    && (forall i, k :: 0 <= i < |ks| && k in turns && k !in ks ==> Sooner(turns[ks[i]], turns[k]))
  }

  lemma {:induction false} OneMoreInFront(turns: map<int, Turn>, k: int, rest: seq<int>, n: nat)
    requires IsFirst(turns, k) && AllIn(rest, turns - {k}) && InFront(turns - {k}, rest, n)
    ensures AllIn([k] + rest, turns) && InFront(turns, [k] + rest, n + 1)
  {
    var ks := [k] + rest;
    assert AllIn(ks, turns);
    forall i, j | 0 <= i < j < |ks| ensures Sooner(turns[ks[i]], turns[ks[j]]) {
      assert ks[j] == rest[j - 1] && rest[j - 1] in turns - {k};
      if i > 0 {
        assert ks[i] == rest[i - 1];
      }
    }
    forall i, x | 0 <= i < |ks| && x in turns && x !in ks ensures Sooner(turns[ks[i]], turns[x]) {
      assert x != k && x !in rest && x in turns - {k};
      if i > 0 {
        assert ks[i] == rest[i - 1];
      }
    }
    if |ks| < n + 1 {
      forall x | x in turns ensures x in ks {
        assert x == k || x in turns - {k};
      }
    }
  }

  lemma {:induction false} FirstNExact(turns: map<int, Turn>, n: nat)
    requires OwnTurns(turns)
    ensures InFront(turns, FirstN(turns, n), n)
    decreases |turns|
  {
    if n != 0 && turns != map[] {
      var k := First(turns);
      FirstNExact(turns - {k}, n - 1);
      OneMoreInFront(turns, k, FirstN(turns - {k}, n - 1), n - 1);
    }
  }

  function TimeOf(d: Delivery): real {
    if d.next.At? then d.next.t else 0.0
  }

  /** The due rows no other claimer has locked. */
  function DueTurns(rows: map<int, Delivery>, holds: map<int, real>, locked: set<int>, now: real)
    : (turns: map<int, Turn>)
    ensures OwnTurns(turns)
    ensures forall id :: id in turns <==> id in rows && Claimable(rows[id], holds, now) && id !in locked
    ensures forall id :: id in turns ==> turns[id] == Turn(TimeOf(rows[id]), id)
  {
    map id | id in rows && Claimable(rows[id], holds, now) && id !in locked :: Turn(TimeOf(rows[id]), id)
  }

  /** The due rows of one device. */
  function RowsFor(rows: map<int, Delivery>, due: seq<int>, device: int): set<int> {
    set id | id in due && id in rows && rows[id].device == device
  }

  function Devices(rows: map<int, Delivery>, due: seq<int>): set<int> {
    set id | id in due && id in rows :: rows[id].device
  }

  function SoonestTime(times: set<real>): (t: real)
    requires times != {}
    ensures t in times && forall x :: x in times ==> t <= x
  {
    SoonestExists(times);
    var t :| t in times && forall x :: x in times ==> t <= x;
    t
  }

  lemma {:induction false} SoonestExists(times: set<real>)
    requires times != {}
    ensures exists t :: t in times && forall x :: x in times ==> t <= x
  {
    var a := SomeElement(times);
    var rest := times - {a};
    if rest == {} {
      assert forall x :: x in times ==> x == a || x in rest;
    } else {
      SoonestExists(rest);
      var b: real :| b in rest && forall x :: x in rest ==> b <= x;
      var t := if a < b then a else b;
      assert forall x :: x in times ==> x == a || x in rest;
      assert t in times && forall x :: x in times ==> t <= x;
    }
  }

  /** min(next_attempt_at), min(id) over the device's due rows. */
  function DeviceTurn(rows: map<int, Delivery>, due: seq<int>, device: int): (t: Turn)
    requires device in Devices(rows, due)
    ensures t.id in RowsFor(rows, due, device) && forall id :: id in RowsFor(rows, due, device) ==> t.id <= id
    ensures forall id :: id in RowsFor(rows, due, device) && rows[id].next.At? ==> t.at <= rows[id].next.t
    ensures (forall id :: id in due && id in rows ==> rows[id].next.At?) ==>
              exists id :: id in RowsFor(rows, due, device) && rows[id].next.t == t.at
  {
    var ids := RowsFor(rows, due, device);
    var id :| id in due && id in rows && rows[id].device == device;
    assert id in ids && rows[id].device == device;
    var times := set i | i in ids :: TimeOf(rows[i]);
    assert TimeOf(rows[id]) in times;
    var soonest := SoonestTime(times);
    assert forall i :: i in ids ==> TimeOf(rows[i]) in times;
    assert exists i :: i in ids && TimeOf(rows[i]) == soonest;
    Turn(soonest, Least(ids))
  }

  function DeviceTurns(rows: map<int, Delivery>, due: seq<int>): (turns: map<int, Turn>)
    ensures OwnTurns(turns) && turns.Keys == Devices(rows, due)
    ensures forall d :: d in turns ==> turns[d] == DeviceTurn(rows, due, d)
  {
    var turns := map d | d in Devices(rows, due) :: DeviceTurn(rows, due, d);
    assert forall d :: d in turns ==> rows[turns[d].id].device == d;
    turns
  }

  /** `due`: the rows the statement locks. */
  function Due(rows: map<int, Delivery>, holds: map<int, real>, locked: set<int>, now: real, maxRows: nat): seq<int> {
    FirstN(DueTurns(rows, holds, locked, now), maxRows)
  }

  /** The rows of the chosen devices, in order. */
  function Chosen(rows: map<int, Delivery>, due: seq<int>, devices: seq<int>): (ids: seq<int>)
    ensures |ids| <= |due|
    ensures forall id :: id in ids <==> id in due && id in rows && rows[id].device in devices
  {
    if due == [] then []
    else
      var n := |due| - 1;
      var front := Chosen(rows, due[..n], devices);
      assert due == due[..n] + [due[n]];
      if due[n] in rows && rows[due[n]].device in devices then front + [due[n]] else front
  }

  /** The ids CLAIM_SQL claims. */
  function Plan(rows: map<int, Delivery>, holds: map<int, real>, locked: set<int>, now: real, maxRows: nat,
                maxDevices: nat): seq<int>
  {
    var due := Due(rows, holds, locked, now, maxRows);
    Chosen(rows, due, FirstN(DeviceTurns(rows, due), maxDevices))
  }

  lemma {:induction false} ChosenOnce(rows: map<int, Delivery>, due: seq<int>, devices: seq<int>)
    requires NoRepeats(due)
    ensures NoRepeats(Chosen(rows, due, devices))
  {
    if due != [] {
      var n := |due| - 1;
      ChosenOnce(rows, due[..n], devices);
      assert forall i :: 0 <= i < n ==> due[i] == due[..n][i] && due[i] != due[n];
    }
  }

  lemma {:induction false} SoonerOnce(turns: map<int, Turn>, ks: seq<int>)
    requires AllIn(ks, turns)
    requires forall i, j :: 0 <= i < j < |ks| ==> Sooner(turns[ks[i]], turns[ks[j]])
    ensures NoRepeats(ks)
  {}

  /** A set all of whose members are listed is no larger than the list. */
  lemma {:induction false} ListedSize(s: set<int>, ks: seq<int>)
    requires forall x :: x in s ==> x in ks
    ensures |s| <= |ks|
  {
    if ks == [] {
      assert forall x :: x !in s;
    } else {
      var n := |ks| - 1;
      assert ks == ks[..n] + [ks[n]];
      ListedSize(s - {ks[n]}, ks[..n]);
      if ks[n] in s {
        assert |s - {ks[n]}| == |s| - 1;
      } else {
        assert s - {ks[n]} == s;
      }
    }
  }

  /** The claim's devices, whatever the limits, are among those chosen. */
  function ClaimedDevices(rows: map<int, Delivery>, ids: seq<int>): set<int> {
    set id | id in ids && id in rows :: rows[id].device
  }

  /** As many other devices as the limit had rows due, each with a sooner turn, and only theirs were taken. */
  ghost predicate PassedOver(rows: map<int, Delivery>, due: seq<int>, ids: seq<int>, device: int, maxDevices: nat) {
    && device in Devices(rows, due)
    && exists devices: seq<int> :: Full(rows, due, ids, devices, device, maxDevices)
  }

  ghost predicate Full(rows: map<int, Delivery>, due: seq<int>, ids: seq<int>, devices: seq<int>, device: int,
                       maxDevices: nat)
    requires device in Devices(rows, due)
  {
    && |devices| == maxDevices && NoRepeats(devices)
    && (forall d :: d in devices ==>
          d in Devices(rows, due)
          && var mine, own := DeviceTurn(rows, due, d), DeviceTurn(rows, due, device);
             mine.at < own.at || (mine.at == own.at && mine.id < own.id))
    && (forall id :: id in ids <==> id in due && id in rows && rows[id].device in devices)
  }

  lemma {:induction false} PassesOver(rows: map<int, Delivery>, due: seq<int>, devices: seq<int>, device: int,
                                      maxDevices: nat)
    requires devices == FirstN(DeviceTurns(rows, due), maxDevices)
    requires device in Devices(rows, due) && device !in devices
    ensures PassedOver(rows, due, Chosen(rows, due, devices), device, maxDevices)
  {
    var turns := DeviceTurns(rows, due);
    FirstNExact(turns, maxDevices);
    SoonerOnce(turns, devices);
    forall d | d in devices
      ensures d in Devices(rows, due) && Sooner(DeviceTurn(rows, due, d), DeviceTurn(rows, due, device))
    {
      var i :| 0 <= i < |devices| && devices[i] == d;
    }
    assert Full(rows, due, Chosen(rows, due, devices), devices, device, maxDevices);
  }

  lemma {:induction false} ChosenAllIn(ids: seq<int>, due: seq<int>, turns: map<int, Turn>)
    requires AllIn(due, turns) && forall id :: id in ids ==> id in due
    ensures AllIn(ids, turns)
  {
    forall k | 0 <= k < |ids| ensures ids[k] in turns {
      var id := ids[k];
      assert id in ids;
      assert id in due;
      var i :| 0 <= i < |due| && due[i] == id;
    }
  }

  /** A row waiting to be claimed: open, due, attempts left, not locked, and its device not on hold. */
  ghost predicate Waiting(rows: map<int, Delivery>, holds: map<int, real>, locked: set<int>, now: real, id: int) {
    && id in rows && id !in locked && (rows[id].status == Pending || rows[id].status == Failed)
    && rows[id].next.At? && rows[id].next.t <= now && rows[id].attempts < 5
    && (rows[id].device in holds ==> holds[rows[id].device] <= now)
  }

  /** A whole window of other waiting rows comes before this one, by next attempt, then id. */
  ghost predicate BehindAll(rows: map<int, Delivery>, holds: map<int, real>, locked: set<int>, now: real,
                            due: seq<int>, id: int)
    requires Waiting(rows, holds, locked, now, id)
  {
    NoRepeats(due)
    && forall k :: 0 <= k < |due| ==>
         Waiting(rows, holds, locked, now, due[k])
         && (rows[due[k]].next.t < rows[id].next.t || (rows[due[k]].next.t == rows[id].next.t && due[k] < id))
  }

  /** The claim takes waiting rows, each once, within both limits. */
  lemma {:induction false} PlanWithinLimits(rows: map<int, Delivery>, holds: map<int, real>, locked: set<int>,
                                            now: real, maxRows: nat, maxDevices: nat)
    ensures var ids := Plan(rows, holds, locked, now, maxRows, maxDevices);
            && NoRepeats(ids) && |ids| <= maxRows && |ClaimedDevices(rows, ids)| <= maxDevices
            && forall id :: id in ids ==> Waiting(rows, holds, locked, now, id)
  {
    PlanIsDue(rows, holds, locked, now, maxRows, maxDevices);
    var turns := DueTurns(rows, holds, locked, now);
    var due := Due(rows, holds, locked, now, maxRows);
    var devices := FirstN(DeviceTurns(rows, due), maxDevices);
    FirstNExact(turns, maxRows);
    SoonerOnce(turns, due);
    ChosenOnce(rows, due, devices);
    ListedSize(ClaimedDevices(rows, Chosen(rows, due, devices)), devices);
    forall id | id in Plan(rows, holds, locked, now, maxRows, maxDevices)
      ensures Waiting(rows, holds, locked, now, id)
    {
      var ids := Plan(rows, holds, locked, now, maxRows, maxDevices);
      var k :| 0 <= k < |ids| && ids[k] == id;
      assert id in turns;
    }
  }

  lemma {:induction false} PlanIsDue(rows: map<int, Delivery>, holds: map<int, real>, locked: set<int>, now: real,
                                     maxRows: nat, maxDevices: nat)
    ensures AllIn(Plan(rows, holds, locked, now, maxRows, maxDevices), DueTurns(rows, holds, locked, now))
  {
    var due := Due(rows, holds, locked, now, maxRows);
    ChosenAllIn(Plan(rows, holds, locked, now, maxRows, maxDevices), due, DueTurns(rows, holds, locked, now));
  }

  /**
   It passes over a waiting row only for a full window of sooner rows, or for a full set of devices with
   sooner turns.
   */
  lemma {:induction false} PlanTakesTheFirst(rows: map<int, Delivery>, holds: map<int, real>, locked: set<int>,
                                             now: real, maxRows: nat, maxDevices: nat, id: int)
    requires Waiting(rows, holds, locked, now, id)
    requires id !in Plan(rows, holds, locked, now, maxRows, maxDevices)
    ensures var due := Due(rows, holds, locked, now, maxRows);
            if id !in due then |due| == maxRows && BehindAll(rows, holds, locked, now, due, id)
            else PassedOver(rows, due, Plan(rows, holds, locked, now, maxRows, maxDevices), rows[id].device, maxDevices)
  {
    var turns, due := DueTurns(rows, holds, locked, now), Due(rows, holds, locked, now, maxRows);
    FirstNExact(turns, maxRows);
    SoonerOnce(turns, due);
    assert id in turns;
    forall k | 0 <= k < |due|
      ensures due[k] in turns && (id !in due ==> Sooner(turns[due[k]], turns[id]))
    {
    }
    if id in due {
      PassesOver(rows, due, FirstN(DeviceTurns(rows, due), maxDevices), rows[id].device, maxDevices);
    }
  }

  /** So the protocol may run it: what CLAIM_SQL takes is a step of every reachable state. */
  lemma {:induction false} PlanIsEnabled(w: World, now: real, locked: set<int>)
    requires w.clock <= now
    ensures Enabled(w, Event(now, ClaimDue(Plan(w.rows, w.holds, locked, now, MAX_ROWS, MAX_DEVICES))))
  {
    PlanWithinLimits(w.rows, w.holds, locked, now, MAX_ROWS, MAX_DEVICES);
    PlanIsDue(w.rows, w.holds, locked, now, MAX_ROWS, MAX_DEVICES);
    ClaimEnabled(w, now, locked, Plan(w.rows, w.holds, locked, now, MAX_ROWS, MAX_DEVICES));
  }

  lemma {:induction false} SubsetSize(a: set<int>, c: set<int>)
    requires a <= c
    ensures |a| <= |c|
  {
    assert c == a + (c - a);
  }

  lemma {:induction false} ClaimEnabled(w: World, now: real, locked: set<int>, ids: seq<int>)
    requires w.clock <= now && NoRepeats(ids) && |ids| <= MAX_ROWS && |ClaimedDevices(w.rows, ids)| <= MAX_DEVICES
    requires AllIn(ids, DueTurns(w.rows, w.holds, locked, now))
    ensures Enabled(w, Event(now, ClaimDue(ids)))
  {
    forall k | 0 <= k < |ids|
      ensures ids[k] in w.rows && Claimable(w.rows[ids[k]], w.holds, now)
    {
      assert ids[k] in DueTurns(w.rows, w.holds, locked, now);
    }
    forall d | d in PushDelivery.Devices(w, ids) ensures d in ClaimedDevices(w.rows, ids) {
      var k :| 0 <= k < |ids| && w.rows[ids[k]].device == d;
      assert ids[k] in ids;
    }
    SubsetSize(PushDelivery.Devices(w, ids), ClaimedDevices(w.rows, ids));
  }

  /** Leasing claimable rows: each as claimed under the attempts just spent, and not due. */
  lemma {:induction false} LeaseTokens(rows: map<int, Delivery>, holds: map<int, real>, now: real, ids: seq<int>)
    requires forall k :: 0 <= k < |ids| ==> ids[k] in rows && Claimable(rows[ids[k]], holds, now)
    ensures var leased := LeaseRows(rows, ids, now);
            forall k :: 0 <= k < |ids| ==>
              ids[k] in leased && leased[ids[k]].attempts <= MAX_ATTEMPTS
              && AsClaimed(leased[ids[k]], leased[ids[k]].attempts) && !DueBy(leased[ids[k]], now)
  {}

  lemma {:induction false} PlanLeases(rows: map<int, Delivery>, holds: map<int, real>, locked: set<int>, now: real,
                                      maxRows: nat, maxDevices: nat)
    ensures var ids := Plan(rows, holds, locked, now, maxRows, maxDevices);
            var leased := LeaseRows(rows, ids, now);
            forall k :: 0 <= k < |ids| ==>
              ids[k] in leased && leased[ids[k]].attempts <= MAX_ATTEMPTS
              && AsClaimed(leased[ids[k]], leased[ids[k]].attempts) && !DueBy(leased[ids[k]], now)
  {
    var ids := Plan(rows, holds, locked, now, maxRows, maxDevices);
    PlanIsDue(rows, holds, locked, now, maxRows, maxDevices);
    forall k | 0 <= k < |ids|
      ensures ids[k] in rows && Claimable(rows[ids[k]], holds, now)
    {
      assert ids[k] in DueTurns(rows, holds, locked, now);
    }
    LeaseTokens(rows, holds, now, ids);
  }
}
