/**
 The push lane's statements and loops over the two tables it updates in place
 (api/push_delivery.py: claim, finalize, the partition and the device loop of deliver_once).
 */
module PushLane {
  import opened Common
  import opened PushDelivery
  import opened PushClaim
  import opened PushOutcome

  /** One claimed delivery as CLAIM_SQL returns it, with the re-check's four answers. */
  datatype Claimed = Claimed(
    id: int, device: int, attempts: nat, seen: bool, visible: bool, stale: bool, deviceEnded: bool)

  /** The reasons of a skip, as `sorted` orders them. */
  const REASONS := ["device_ended", "hidden", "seen", "stale"]

  /** skip_reason: the first of the four re-checks that fails. */
  function SkipReason(c: Claimed): (why: Option<string>)
    ensures why == None <==> !c.seen && c.visible && !c.stale && !c.deviceEnded
    ensures why == Some("seen") <==> c.seen
    ensures why == Some("hidden") <==> !c.visible && !c.seen
    ensures why == Some("stale") <==> c.stale && c.visible && !c.seen
    ensures why == Some("device_ended") <==> c.deviceEnded && !c.stale && c.visible && !c.seen
    ensures why.Some? ==> why.value in REASONS
  {
    if c.seen then Some("seen")
    else if !c.visible then Some("hidden")
    else if c.stale then Some("stale")
    else if c.deviceEnded then Some("device_ended")
    else None
  }

  // ---- grouping the claimed rows ---------------------------------------------------------------

  /** The claimed rows that `p` holds of, in claim order. */
  function Picked(rows: seq<Claimed>, p: Claimed -> bool): seq<Claimed> {
    if rows == [] then []
    else Picked(rows[..|rows| - 1], p) + (if p(rows[|rows| - 1]) then [rows[|rows| - 1]] else [])
  }

  function Pushed(device: int): Claimed -> bool {
    (c: Claimed) => SkipReason(c) == None && c.device == device
  }

  function Skipping(why: string): Claimed -> bool {
    (c: Claimed) => SkipReason(c) == Some(why)
  }

  function PairsOf(rows: seq<Claimed>): (ps: seq<(int, nat)>)
    ensures |ps| == |rows|
    ensures forall i :: 0 <= i < |rows| ==> ps[i] == (rows[i].id, rows[i].attempts)
  {
    seq(|rows|, i requires 0 <= i < |rows| => (rows[i].id, rows[i].attempts))
  }

  /** The (id, attempts) pairs skipped for `why`, in claim order. */
  function SkippedFor(rows: seq<Claimed>, why: string): seq<(int, nat)> {
    PairsOf(Picked(rows, Skipping(why)))
  }

  /** The rows to push to `device`, in claim order. */
  function KeptFor(rows: seq<Claimed>, device: int): seq<Claimed> {
    Picked(rows, Pushed(device))
  }

  ghost predicate Ascend(at: seq<nat>, n: nat) {
    (forall j, k :: 0 <= j < k < |at| ==> at[j] < at[k]) && (forall k :: 0 <= k < |at| ==> at[k] < n)
  }

  ghost predicate Covers(rows: seq<Claimed>, at: seq<nat>, p: Claimed -> bool) {
    forall i {:trigger rows[i]} :: 0 <= i < |rows| && p(rows[i]) ==> i in at
  }

  /** The picked rows are those at `at`, ascending, and `at` misses none that `p` holds of. */
  ghost predicate InClaimOrder(picked: seq<Claimed>, rows: seq<Claimed>, at: seq<nat>, p: Claimed -> bool) {
    Ascend(at, |rows|) && Covers(rows, at, p) && Reads(picked, rows, at, p)
  }

  ghost predicate Reads(picked: seq<Claimed>, rows: seq<Claimed>, at: seq<nat>, p: Claimed -> bool) {
    && |picked| == |at|
    && forall k :: 0 <= k < |at| ==> at[k] < |rows| && picked[k] == rows[at[k]] && p(picked[k])
  }

  lemma ReadsOneMore(picked: seq<Claimed>, init: seq<Claimed>, last: Claimed, front: seq<nat>, p: Claimed -> bool)
    requires Reads(picked, init, front, p) && Ascend(front, |init|)
    ensures p(last) ==> Reads(picked + [last], init + [last], front + [|init|], p)
                        && Ascend(front + [|init|], |init| + 1)
    ensures Reads(picked, init + [last], front, p) && Ascend(front, |init| + 1)
  {}

  lemma CoversOneMore(init: seq<Claimed>, last: Claimed, front: seq<nat>, p: Claimed -> bool)
    requires Covers(init, front, p)
    ensures Covers(init + [last], if p(last) then front + [|init|] else front, p)
  {
    var rows, at := init + [last], if p(last) then front + [|init|] else front;
    forall i | 0 <= i < |rows| && p(rows[i])
      ensures i in at
    {
      if i < |init| {
        assert p(init[i]);
        assert i in front;
      } else {
        assert at[|front|] == i;
      }
    }
  }

  lemma {:induction false} PickedInClaimOrder(rows: seq<Claimed>, p: Claimed -> bool) returns (at: seq<nat>)
    ensures InClaimOrder(Picked(rows, p), rows, at, p)
  {
    if rows == [] {
      at := [];
    } else {
      var init, last := rows[..|rows| - 1], rows[|rows| - 1];
      assert rows == init + [last];
      var front := PickedInClaimOrder(init, p);
      at := if p(last) then front + [|init|] else front;
      CoversOneMore(init, last, front, p);
      ReadsOneMore(Picked(init, p), init, last, front, p);
    }
  }

  /** A pass keeps for each device, and skips for each reason, exactly the claimed rows due there, in claim order. */
  lemma GroupsInClaimOrder(rows: seq<Claimed>, device: int, why: string) returns (kept: seq<nat>, skipped: seq<nat>)
    ensures InClaimOrder(KeptFor(rows, device), rows, kept,
                         (c: Claimed) => SkipReason(c) == None && c.device == device)
    ensures InClaimOrder(Picked(rows, Skipping(why)), rows, skipped, (c: Claimed) => SkipReason(c) == Some(why))
    ensures |SkippedFor(rows, why)| == |skipped|
    ensures forall k :: 0 <= k < |skipped| ==>
              SkippedFor(rows, why)[k] == (rows[skipped[k]].id, rows[skipped[k]].attempts)
  {
    kept := PickedInClaimOrder(rows, Pushed(device));
    skipped := PickedInClaimOrder(rows, Skipping(why));
  }

  lemma {:induction false} PickedAre(rows: seq<Claimed>, p: Claimed -> bool, c: Claimed)
    ensures c in Picked(rows, p) <==> c in rows && p(c)
  {
    if rows != [] {
      var n := |rows| - 1;
      PickedAre(rows[..n], p, c);
      assert rows == rows[..n] + [rows[n]];
    }
  }

  /** Every claimed row is pushed to its own device or skipped, never both and never dropped. */
  lemma EveryRowGoesOnePlace(rows: seq<Claimed>, i: nat)
    requires i < |rows|
    ensures SkipReason(rows[i]) == None ==> rows[i] in KeptFor(rows, rows[i].device)
    ensures SkipReason(rows[i]).Some? ==> (rows[i].id, rows[i].attempts) in SkippedFor(rows, SkipReason(rows[i]).value)
    ensures forall d, c :: c in KeptFor(rows, d) ==> SkipReason(c) == None && c.device == d && c in rows
  {
    var row := rows[i];
    PickedAre(rows, Pushed(row.device), row);
    if SkipReason(row).Some? {
      var picked := Picked(rows, Skipping(SkipReason(row).value));
      PickedAre(rows, Skipping(SkipReason(row).value), row);
      var k :| 0 <= k < |picked| && picked[k] == row;
      assert PairsOf(picked)[k] == (row.id, row.attempts);
    }
    forall d, c | c in KeptFor(rows, d)
      ensures SkipReason(c) == None && c.device == d && c in rows
    {
      PickedAre(rows, Pushed(d), c);
    }
  }

  /** `dict.get(k, [])`. */
  function ListAt<K, V>(m: map<K, seq<V>>, k: K): seq<V> {
    if k in m then m[k] else []
  }

  /** `dict.setdefault(k, []).append(v)`. */
  function Append<K(!new), V>(m: map<K, seq<V>>, k: K, v: V): (r: map<K, seq<V>>)
    ensures r.Keys == m.Keys + {k}
    ensures forall j :: ListAt(r, j) == if j == k then ListAt(m, j) + [v] else ListAt(m, j)
  {
    m[k := ListAt(m, k) + [v]]
  }

  lemma SkippedOfPrefix(rows: seq<Claimed>, i: nat, why: string)
    requires i < |rows|
    ensures SkippedFor(rows[..i + 1], why)
         == if SkipReason(rows[i]) == Some(why) then SkippedFor(rows[..i], why) + [(rows[i].id, rows[i].attempts)]
            else SkippedFor(rows[..i], why)
  {
    assert rows[..i + 1][..i] == rows[..i];
  }

  lemma KeptOfPrefix(rows: seq<Claimed>, i: nat, d: int)
    requires i < |rows|
    ensures KeptFor(rows[..i + 1], d)
         == if SkipReason(rows[i]) == None && rows[i].device == d then KeptFor(rows[..i], d) + [rows[i]]
            else KeptFor(rows[..i], d)
  {
    assert rows[..i + 1][..i] == rows[..i];
  }

  ghost predicate SkipsAre(skips: map<string, seq<(int, nat)>>, rows: seq<Claimed>) {
    forall why {:trigger SkippedFor(rows, why)} :: ListAt(skips, why) == SkippedFor(rows, why)
  }

  ghost predicate DevicesAre(devices: map<int, seq<Claimed>>, rows: seq<Claimed>) {
    forall d {:trigger KeptFor(rows, d)} :: ListAt(devices, d) == KeptFor(rows, d)
  }

  lemma SkipsGrow(skips: map<string, seq<(int, nat)>>, rows: seq<Claimed>, i: nat)
    requires i < |rows| && SkipsAre(skips, rows[..i])
    ensures SkipReason(rows[i]) == None ==> SkipsAre(skips, rows[..i + 1])
    ensures SkipReason(rows[i]).Some? ==>
              SkipsAre(Append(skips, SkipReason(rows[i]).value, (rows[i].id, rows[i].attempts)), rows[..i + 1])
  {
    forall why
      ensures SkippedFor(rows[..i + 1], why)
           == if SkipReason(rows[i]) == Some(why) then ListAt(skips, why) + [(rows[i].id, rows[i].attempts)]
              else ListAt(skips, why)
    {
      assert ListAt(skips, why) == SkippedFor(rows[..i], why);
      SkippedOfPrefix(rows, i, why);
    }
  }

  lemma DevicesGrow(devices: map<int, seq<Claimed>>, rows: seq<Claimed>, i: nat)
    requires i < |rows| && DevicesAre(devices, rows[..i])
    ensures SkipReason(rows[i]).Some? ==> DevicesAre(devices, rows[..i + 1])
    ensures SkipReason(rows[i]) == None ==> DevicesAre(Append(devices, rows[i].device, rows[i]), rows[..i + 1])
  {
    forall d
      ensures KeptFor(rows[..i + 1], d)
           == if SkipReason(rows[i]) == None && rows[i].device == d then ListAt(devices, d) + [rows[i]]
              else ListAt(devices, d)
    {
      assert ListAt(devices, d) == KeptFor(rows[..i], d);
      KeptOfPrefix(rows, i, d);
    }
  }

  /** No device has two turns. */
  ghost predicate OneTurnEach(order: seq<int>) {
    forall j, k :: 0 <= j < k < |order| ==> order[j] != order[k]
  }

  /** `order` lists the keys of `devices`, each once, and each has rows. */
  ghost predicate TurnsAre(order: seq<int>, devices: map<int, seq<Claimed>>) {
    OneTurnEach(order) && forall d :: (d in order <==> d in devices) && (d in order ==> ListAt(devices, d) != [])
  }

  lemma TurnsGrow(order: seq<int>, devices: map<int, seq<Claimed>>, device: int, row: Claimed)
    requires TurnsAre(order, devices)
    ensures TurnsAre(if device in devices then order else order + [device], Append(devices, device, row))
  {}

  /** The `skips` and `devices` dicts of a pass; `order` is the insertion order of `devices`. */
  method Partition(rows: seq<Claimed>)
    returns (skips: map<string, seq<(int, nat)>>, devices: map<int, seq<Claimed>>, order: seq<int>)
    ensures SkipsAre(skips, rows) && DevicesAre(devices, rows)
    ensures TurnsAre(order, devices)
  {
    skips, devices, order := map[], map[], [];
    for i := 0 to |rows|
      invariant SkipsAre(skips, rows[..i]) && DevicesAre(devices, rows[..i])
      invariant TurnsAre(order, devices)
    {
      var row := rows[i];
      SkipsGrow(skips, rows, i);
      DevicesGrow(devices, rows, i);
      var why := SkipReason(row);
      if why.Some? {
        skips := Append(skips, why.value, (row.id, row.attempts));
      } else {
        TurnsGrow(order, devices, row.device, row);
        if row.device !in devices {
          order := order + [row.device];
        }
        devices := Append(devices, row.device, row);
      }
    }
    assert rows[..|rows|] == rows;
  }

  // ---- the tables ------------------------------------------------------------------------------

  /** `_as_claimed`: the two arrays unnest() pairs up, as a map from row to claimed attempts. */
  function BatchOf(claims: seq<(int, nat)>): (b: map<int, nat>)
    ensures forall id :: id in b ==> (id, b[id]) in claims
    ensures forall c :: c in claims ==> c.0 in b
  {
    if claims == [] then map[] else BatchOf(claims[..|claims| - 1])[claims[|claims| - 1].0 := claims[|claims| - 1].1]
  }

  /** `outcome.kind`, or that the device raised. */
  datatype Kind = SentKind | GoneKind | ThrottledKind | RetryKind | FailedKind | Raised

  function KindOf(answer: Option<Outcome>): Kind {
    match answer
    case None => Raised
    case Some(SentOut(_)) => SentKind
    case Some(GoneOut(_)) => GoneKind
    case Some(ThrottledOut(_, _)) => ThrottledKind
    case Some(RetryOut(_)) => RetryKind
    case Some(FailedOut(_)) => FailedKind
  }

  /** The counters of `last` and `errors`: how many devices answered each kind. */
  function Kinds(answers: seq<Option<Outcome>>): seq<Kind> {
    seq(|answers|, k requires 0 <= k < |answers| => KindOf(answers[k]))
  }

  /** The turns among these that were answered so. */
  ghost function TurnsAnswered(answers: seq<Option<Outcome>>, p: Option<Outcome> -> bool): set<nat> {
    set k: nat | k < |answers| && p(answers[k])
  }

  lemma {:induction false} KindCounted(answers: seq<Option<Outcome>>, kind: Kind, p: Option<Outcome> -> bool)
    requires forall a :: p(a) <==> KindOf(a) == kind
    ensures multiset(Kinds(answers))[kind] == |TurnsAnswered(answers, p)|
  {
    if answers == [] {
      assert TurnsAnswered(answers, p) == {};
    } else {
      var n := |answers| - 1;
      KindCounted(answers[..n], kind, p);
      assert Kinds(answers) == Kinds(answers[..n]) + [KindOf(answers[n])];
      assert TurnsAnswered(answers, p)
          == TurnsAnswered(answers[..n], p) + (if p(answers[n]) then {n} else {});
    }
  }

  /** Six counters: how many of the turns were answered each way. */
  ghost predicate Counted(counts: multiset<Kind>, answers: seq<Option<Outcome>>) {
    && counts[SentKind] == |TurnsAnswered(answers, (a: Option<Outcome>) => a.Some? && a.value.SentOut?)|
    && counts[GoneKind] == |TurnsAnswered(answers, (a: Option<Outcome>) => a.Some? && a.value.GoneOut?)|
    && counts[ThrottledKind] == |TurnsAnswered(answers, (a: Option<Outcome>) => a.Some? && a.value.ThrottledOut?)|
    && counts[RetryKind] == |TurnsAnswered(answers, (a: Option<Outcome>) => a.Some? && a.value.RetryOut?)|
    && counts[FailedKind] == |TurnsAnswered(answers, (a: Option<Outcome>) => a.Some? && a.value.FailedOut?)|
    && counts[Raised] == |TurnsAnswered(answers, (a: Option<Outcome>) => a.None?)|
  }

  /** So the counters of a pass say how many devices answered sent, gone, throttled, retry or failed, or raised. */
  lemma KindsCounted(answers: seq<Option<Outcome>>)
    ensures Counted(multiset(Kinds(answers)), answers)
  {
    KindCounted(answers, SentKind, (a: Option<Outcome>) => a.Some? && a.value.SentOut?);
    KindCounted(answers, GoneKind, (a: Option<Outcome>) => a.Some? && a.value.GoneOut?);
    KindCounted(answers, ThrottledKind, (a: Option<Outcome>) => a.Some? && a.value.ThrottledOut?);
    KindCounted(answers, RetryKind, (a: Option<Outcome>) => a.Some? && a.value.RetryOut?);
    KindCounted(answers, FailedKind, (a: Option<Outcome>) => a.Some? && a.value.FailedOut?);
    KindCounted(answers, Raised, (a: Option<Outcome>) => a.None?);
  }

  datatype Tables = Tables(rows: map<int, Delivery>, holds: map<int, real>, ended: set<int>)

  /** The tables after one push's rows are finalized. */
  function Finalized(t: Tables, device: int, claims: seq<(int, nat)>, outcome: Outcome, now: real): Tables {
    Tables(CompareAndSet(t.rows, BatchOf(claims), Posted(outcome), now),
           HoldsAfter(t.holds, device, Posted(outcome), now),
           EndedAfter(t.ended, device, Posted(outcome)))
  }

  /** The tables after one device of a pass: finalized by its answer, untouched when it raised. */
  function Answered(t: Tables, device: int, rows: seq<Claimed>, answer: Option<Outcome>, now: real): (r: Tables)
    ensures r.rows.Keys == t.rows.Keys
  {
    if answer.None? then t else Finalized(t, device, PairsOf(rows), answer.value, now)
  }

  /** The tables before and after each device a pass reached, each device finalized at its own time. */
  ghost predicate PassTables(ts: seq<Tables>, order: seq<int>, devices: map<int, seq<Claimed>>,
                             answers: seq<Option<Outcome>>, times: seq<real>) {
    && 1 <= |ts| <= |order| + 1 && |answers| == |times| == |order|
    && forall k :: 0 <= k < |ts| - 1 ==>
         ts[k + 1] == Answered(ts[k], order[k], ListAt(devices, order[k]), answers[k], times[k])
  }

  lemma PassExtends(ts: seq<Tables>, order: seq<int>, devices: map<int, seq<Claimed>>,
                    answers: seq<Option<Outcome>>, times: seq<real>, n: nat, after: Tables)
    requires PassTables(ts, order, devices, answers, times) && |ts| == n + 1 <= |order|
    requires after == Answered(ts[n], order[n], ListAt(devices, order[n]), answers[n], times[n])
    ensures PassTables(ts + [after], order, devices, answers, times)
  {}

  // ---- what a pass leaves on a claimed row -----------------------------------------------------

  /** The pass's rows: claimed by this pass, each once. */
  ghost predicate ClaimedNow(t: Tables, rows: seq<Claimed>) {
    && (forall i :: 0 <= i < |rows| ==> rows[i].id in t.rows && AsClaimed(t.rows[rows[i].id], rows[i].attempts))
    && DistinctIds(rows)
  }

  ghost predicate DistinctIds(rows: seq<Claimed>) {
    forall j, k :: 0 <= j < k < |rows| ==> rows[j].id != rows[k].id
  }

  /** A token in a device's batch is one of its kept rows' own. */
  lemma BatchHoldsKept(kept: seq<Claimed>, id: int) returns (c: Claimed)
    requires id in BatchOf(PairsOf(kept))
    ensures c in kept && c.id == id && c.attempts == BatchOf(PairsOf(kept))[id]
  {
    var claims := PairsOf(kept);
    var k :| 0 <= k < |claims| && claims[k] == (id, BatchOf(claims)[id]);
    c := kept[k];
  }

  lemma KeptIsInBatch(kept: seq<Claimed>, c: Claimed)
    requires c in kept
    ensures c.id in BatchOf(PairsOf(kept))
  {}

  /** A batch of distinct rows carries each row's own token. */
  lemma BatchHoldsToken(kept: seq<Claimed>, c: Claimed)
    requires c in kept && DistinctIds(kept)
    ensures c.id in BatchOf(PairsOf(kept)) && BatchOf(PairsOf(kept))[c.id] == c.attempts
  {
    KeptIsInBatch(kept, c);
    var other := BatchHoldsKept(kept, c.id);
    assert other == c;
  }

  /** A device's batch carries a row's token exactly when the row is kept for that device. */
  lemma BatchCarriesItsRows(rows: seq<Claimed>, i: nat, device: int)
    requires i < |rows| && SkipReason(rows[i]) == None && DistinctIds(rows)
    ensures var batch := BatchOf(PairsOf(KeptFor(rows, device)));
            (rows[i].id in batch <==> rows[i].device == device)
            && (rows[i].id in batch ==> batch[rows[i].id] == rows[i].attempts)
  {
    EveryRowGoesOnePlace(rows, i);
    var kept := KeptFor(rows, device);
    if rows[i].id in BatchOf(PairsOf(kept)) {
      var c := BatchHoldsKept(kept, rows[i].id);
      assert c in rows;
    }
    if rows[i].device == device {
      KeptIsInBatch(kept, rows[i]);
    }
  }

  /** `batch` carries the row's token, or does not carry the row. */
  ghost predicate CarriesRow(batch: map<int, nat>, id: int, token: nat, carries: bool) {
    (id in batch <==> carries) && (carries ==> batch[id] == token)
  }

  /** The device's turn among the first `n`, if it had one. */
  function TurnOf(order: seq<int>, device: int, n: nat): (k: Option<nat>)
    requires n <= |order|
    ensures k.Some? ==> k.value < n && order[k.value] == device
    ensures k.None? ==> forall j :: 0 <= j < n ==> order[j] != device
  {
    if n == 0 then None else if order[n - 1] == device then Some(n - 1) else TurnOf(order, device, n - 1)
  }

  /** How a pass leaves a row: its device's outcome recorded at its turn, or as it was. */
  function LeftAs(d: Delivery, turn: Option<nat>, answers: seq<Option<Outcome>>, times: seq<real>): Delivery
    requires turn.Some? ==> turn.value < |answers| == |times|
  {
    if turn.Some? && answers[turn.value].Some? then Record(d, Posted(answers[turn.value].value), times[turn.value])
    else d
  }

  /** The rows after one device of a pass. */
  function RowsAfter(rows: map<int, Delivery>, batch: map<int, nat>, answer: Option<Outcome>, now: real)
    : map<int, Delivery>
  {
    if answer.None? then rows else CompareAndSet(rows, batch, Posted(answer.value), now)
  }

  /** The rows alone, before and after each device a pass reached. */
  ghost predicate RowsThrough(rs: seq<map<int, Delivery>>, batches: seq<map<int, nat>>,
                              answers: seq<Option<Outcome>>, times: seq<real>)
  {
    && 1 <= |rs| <= |batches| + 1 && |answers| == |times| == |batches|
    && forall k :: 0 <= k < |rs| - 1 ==> rs[k + 1] == RowsAfter(rs[k], batches[k], answers[k], times[k])
  }

  /** One more device, seen from a row that only its own device's batch carries. */
  lemma NextTurn(rows: map<int, Delivery>, was: Delivery, id: int, token: nat, own: bool, batch: map<int, nat>,
                 answer: Option<Outcome>, now: real)
    requires id in rows && AsClaimed(was, token)
    requires CarriesRow(batch, id, token, own)
    requires own ==> rows[id] == was
    ensures id in RowsAfter(rows, batch, answer, now)
    ensures RowsAfter(rows, batch, answer, now)[id]
         == if own && answer.Some? then Record(was, Posted(answer.value), now) else rows[id]
  {}

  /** The row is carried, under its token, at its own device's turn and at no other. */
  ghost predicate OnlyItsTurnCarries(batches: seq<map<int, nat>>, order: seq<int>, id: int, token: nat, device: int)
    requires |batches| == |order|
  {
    forall k :: 0 <= k < |order| ==> CarriesRow(batches[k], id, token, order[k] == device)
  }

  ghost predicate NoTurnCarries(batches: seq<map<int, nat>>, id: int) {
    forall k :: 0 <= k < |batches| ==> id !in batches[k]
  }

  /** A row that only its own device's batch carries, through the first `n` devices. */
  lemma {:induction false} RowThroughPass(rs: seq<map<int, Delivery>>, id: int, token: nat, device: int,
                                          order: seq<int>, batches: seq<map<int, nat>>,
                                          answers: seq<Option<Outcome>>, times: seq<real>, n: nat)
    requires RowsThrough(rs, batches, answers, times) && n < |rs| && |order| == |batches| && OneTurnEach(order)
    requires OnlyItsTurnCarries(batches, order, id, token, device)
    requires id in rs[0] && AsClaimed(rs[0][id], token)
    ensures id in rs[n] && rs[n][id] == LeftAs(rs[0][id], TurnOf(order, device, n), answers, times)
  {
    if n > 0 {
      RowThroughPass(rs, id, token, device, order, batches, answers, times, n - 1);
      var k := n - 1;
      assert rs[k + 1] == RowsAfter(rs[k], batches[k], answers[k], times[k]);
      NextTurn(rs[k], rs[0][id], id, token, order[k] == device, batches[k], answers[k], times[k]);
    }
  }

  /** A row no device's batch carries comes through the loop as it was. */
  lemma {:induction false} UncarriedThroughPass(rs: seq<map<int, Delivery>>, id: int, batches: seq<map<int, nat>>,
                                                answers: seq<Option<Outcome>>, times: seq<real>, n: nat)
    requires RowsThrough(rs, batches, answers, times) && n < |rs|
    requires NoTurnCarries(batches, id)
    requires id in rs[0]
    ensures id in rs[n] && rs[n][id] == rs[0][id]
  {
    if n > 0 {
      UncarriedThroughPass(rs, id, batches, answers, times, n - 1);
      assert rs[n - 1 + 1] == RowsAfter(rs[n - 1], batches[n - 1], answers[n - 1], times[n - 1]);
    }
  }

  function RowsOf(ts: seq<Tables>): (rs: seq<map<int, Delivery>>)
    ensures |rs| == |ts| && forall k :: 0 <= k < |ts| ==> rs[k] == ts[k].rows
  {
    seq(|ts|, k requires 0 <= k < |ts| => ts[k].rows)
  }

  /** Each device's tokens, in the order of their turns. */
  function Batches(order: seq<int>, devices: map<int, seq<Claimed>>): (bs: seq<map<int, nat>>)
    ensures |bs| == |order|
    ensures forall k :: 0 <= k < |order| ==> bs[k] == BatchOf(PairsOf(ListAt(devices, order[k])))
  {
    seq(|order|, k requires 0 <= k < |order| => BatchOf(PairsOf(ListAt(devices, order[k]))))
  }

  lemma PassRunsThrough(ts: seq<Tables>, order: seq<int>, devices: map<int, seq<Claimed>>,
                        answers: seq<Option<Outcome>>, times: seq<real>)
    requires PassTables(ts, order, devices, answers, times)
    ensures RowsThrough(RowsOf(ts), Batches(order, devices), answers, times)
  {
    var rs, bs := RowsOf(ts), Batches(order, devices);
    forall k | 0 <= k < |rs| - 1
      ensures rs[k + 1] == RowsAfter(rs[k], bs[k], answers[k], times[k])
    {
      assert ts[k + 1] == Answered(ts[k], order[k], ListAt(devices, order[k]), answers[k], times[k]);
    }
  }

  /** Each turn's batch carries a kept row exactly when it is that row's own device's turn. */
  lemma {:induction false} TurnsCarry(rows: seq<Claimed>, i: nat, order: seq<int>, devices: map<int, seq<Claimed>>)
    requires DistinctIds(rows) && i < |rows| && SkipReason(rows[i]) == None && DevicesAre(devices, rows)
    ensures OnlyItsTurnCarries(Batches(order, devices), order, rows[i].id, rows[i].attempts, rows[i].device)
  {
    forall k | 0 <= k < |order|
      ensures CarriesRow(Batches(order, devices)[k], rows[i].id, rows[i].attempts, order[k] == rows[i].device)
    {
      assert ListAt(devices, order[k]) == KeptFor(rows, order[k]);
      BatchCarriesItsRows(rows, i, order[k]);
    }
  }

  lemma {:induction false} TurnRecordsRow(ts: seq<Tables>, id: int, token: nat, device: int, order: seq<int>,
                                          devices: map<int, seq<Claimed>>,
                                          answers: seq<Option<Outcome>>, times: seq<real>, n: nat)
    requires PassTables(ts, order, devices, answers, times) && OneTurnEach(order) && n < |ts|
    requires OnlyItsTurnCarries(Batches(order, devices), order, id, token, device)
    requires id in ts[0].rows && AsClaimed(ts[0].rows[id], token)
    ensures id in ts[n].rows && ts[n].rows[id] == LeftAs(ts[0].rows[id], TurnOf(order, device, n), answers, times)
  {
    PassRunsThrough(ts, order, devices, answers, times);
    RowThroughPass(RowsOf(ts), id, token, device, order, Batches(order, devices), answers, times, n);
  }

  /**
   A kept row carries its device's outcome, recorded once at that device's turn; a row whose device
   raised or was never reached is as the claim left it, leased.
   */
  lemma {:induction false} PassRecordsEachRow(ts: seq<Tables>, rows: seq<Claimed>, i: nat, order: seq<int>,
                                              devices: map<int, seq<Claimed>>,
                                              answers: seq<Option<Outcome>>, times: seq<real>)
    requires PassTables(ts, order, devices, answers, times) && DistinctIds(rows) && OneTurnEach(order)
    requires i < |rows| && SkipReason(rows[i]) == None && DevicesAre(devices, rows)
    requires rows[i].id in ts[0].rows && AsClaimed(ts[0].rows[rows[i].id], rows[i].attempts)
    ensures rows[i].id in ts[|ts| - 1].rows
    ensures var was, row := ts[0].rows[rows[i].id], ts[|ts| - 1].rows[rows[i].id];
            var turn := TurnOf(order, rows[i].device, |ts| - 1);
            if turn.Some? && answers[turn.value].Some?
            then Leaves(was, row, Posted(answers[turn.value].value), times[turn.value])
            else row == was
  {
    KeptRowLeftAs(ts, rows, i, order, devices, answers, times);
    var turn := TurnOf(order, rows[i].device, |ts| - 1);
    if turn.Some? && answers[turn.value].Some? {
      RecordLeaves(ts[0].rows[rows[i].id], Posted(answers[turn.value].value), times[turn.value]);
    }
  }

  lemma {:induction false} KeptRowLeftAs(ts: seq<Tables>, rows: seq<Claimed>, i: nat, order: seq<int>,
                                         devices: map<int, seq<Claimed>>,
                                         answers: seq<Option<Outcome>>, times: seq<real>)
    requires PassTables(ts, order, devices, answers, times) && DistinctIds(rows) && OneTurnEach(order)
    requires i < |rows| && SkipReason(rows[i]) == None && DevicesAre(devices, rows)
    requires rows[i].id in ts[0].rows && AsClaimed(ts[0].rows[rows[i].id], rows[i].attempts)
    ensures rows[i].id in ts[|ts| - 1].rows
    ensures ts[|ts| - 1].rows[rows[i].id]
         == LeftAs(ts[0].rows[rows[i].id], TurnOf(order, rows[i].device, |ts| - 1), answers, times)
  {
    TurnsCarry(rows, i, order, devices);
    TurnRecordsRow(ts, rows[i].id, rows[i].attempts, rows[i].device, order, devices, answers, times, |ts| - 1);
  }

  /** A row that was not kept, claimed or not, is in no device's batch. */
  lemma {:induction false} NotKeptIsUncarried(rows: seq<Claimed>, id: int, device: int)
    requires forall j :: 0 <= j < |rows| && SkipReason(rows[j]) == None ==> rows[j].id != id
    ensures id !in BatchOf(PairsOf(KeptFor(rows, device)))
  {
    var kept := KeptFor(rows, device);
    forall c | c in kept
      ensures c.id != id
    {
      EveryRowGoesOnePlace(rows, 0);
      assert c in rows;
    }
    if id in BatchOf(PairsOf(kept)) {
      var c := BatchHoldsKept(kept, id);
      assert false;
    }
  }

  // ---- what the skip statements leave on a claimed row -------------------------------------------

  /** The skip statements' effect: a row changes by a skip whose token it carries, and each such row ends skipped. */
  ghost predicate SkipsLanded(before: map<int, Delivery>, after: map<int, Delivery>,
                              skips: map<string, seq<(int, nat)>>, reasons: seq<string>)
  {
    && after.Keys == before.Keys
    && (forall id :: id in after ==>
          after[id] == before[id]
          || (exists why :: why in reasons && SkippedAs(before, after, ListAt(skips, why), id, why)))
    && (forall id, why | id in after && why in reasons && SkipHolds(before, ListAt(skips, why), id) ::
          after[id].status == Skipped)
  }

  /** The claim list holds the row under the token it still carries. */
  ghost predicate SkipHolds(before: map<int, Delivery>, claims: seq<(int, nat)>, id: int) {
    id in before && id in BatchOf(claims) && AsClaimed(before[id], BatchOf(claims)[id])
  }

  ghost predicate SkippedAs(before: map<int, Delivery>, after: map<int, Delivery>, claims: seq<(int, nat)>, id: int,
                            why: string)
  {
    SkipHolds(before, claims, id) && id in after && after[id] == before[id].(status := Skipped, reason := Some(why))
  }

  /** One more skip statement. */
  lemma {:induction false} OneMoreSkip(before: map<int, Delivery>, soFar: map<int, Delivery>,
                                       after: map<int, Delivery>, skips: map<string, seq<(int, nat)>>,
                                       reasons: seq<string>, why: string, now: real)
    requires SkipsLanded(before, soFar, skips, reasons)
    requires after == CompareAndSet(soFar, BatchOf(ListAt(skips, why)), Skip(why), now)
    ensures SkipsLanded(before, after, skips, reasons + [why])
  {
    var claims := ListAt(skips, why);
    var done := reasons + [why];
    forall id | id in after
      ensures after[id] == before[id]
              || (exists r :: r in done && SkippedAs(before, after, ListAt(skips, r), id, r))
    {
      if soFar[id] != before[id] {
        var r :| r in reasons && SkippedAs(before, soFar, ListAt(skips, r), id, r);
        assert after[id] == soFar[id];
        assert r in done && SkippedAs(before, after, ListAt(skips, r), id, r);
      } else if after[id] != before[id] {
        assert why in done && SkippedAs(before, after, claims, id, why);
      }
    }
    forall id, r | id in after && r in done && SkipHolds(before, ListAt(skips, r), id)
      ensures after[id].status == Skipped
    {
      if soFar[id].status != Skipped {
        assert soFar[id] == before[id];
        assert r == why;
      }
    }
  }

  /** A token skipped for `why` belongs to a claimed row with that reason. */
  lemma {:induction false} SkippedIsClaimed(rows: seq<Claimed>, why: string, c: (int, nat)) returns (i: nat)
    requires c in SkippedFor(rows, why)
    ensures i < |rows| && c == (rows[i].id, rows[i].attempts) && SkipReason(rows[i]) == Some(why)
  {
    var picked := Picked(rows, Skipping(why));
    var k :| 0 <= k < |picked| && PairsOf(picked)[k] == c;
    PickedAre(rows, Skipping(why), picked[k]);
    i :| 0 <= i < |rows| && rows[i] == picked[k];
  }

  /** One skip batch carries a claimed row exactly when it is the batch of that row's reason. */
  lemma {:induction false} SkipBatchCarriesItsRows(rows: seq<Claimed>, i: nat, why: string)
    requires i < |rows| && DistinctIds(rows)
    ensures CarriesRow(BatchOf(SkippedFor(rows, why)), rows[i].id, rows[i].attempts, SkipReason(rows[i]) == Some(why))
  {
    var batch := BatchOf(SkippedFor(rows, why));
    if rows[i].id in batch {
      var j := SkippedIsClaimed(rows, why, (rows[i].id, batch[rows[i].id]));
      assert j == i;
    }
    EveryRowGoesOnePlace(rows, i);
  }

  /** A claimed row after the skip statements: skipped for its own reason, or as it was. */
  function SkippedOrKept(d: Delivery, c: Claimed): Delivery {
    if SkipReason(c).Some? then d.(status := Skipped, reason := SkipReason(c)) else d
  }

  /** Each claimed row is skipped for its own reason and no other; a kept row is left alone. */
  lemma {:induction false} SkipsHitTheirRows(before: map<int, Delivery>, after: map<int, Delivery>,
                                             skips: map<string, seq<(int, nat)>>, reasons: seq<string>,
                                             rows: seq<Claimed>, i: nat)
    requires SkipsLanded(before, after, skips, reasons) && SkipsAre(skips, rows) && DistinctIds(rows)
    requires i < |rows| && rows[i].id in before && AsClaimed(before[rows[i].id], rows[i].attempts)
    requires SkipReason(rows[i]).Some? ==> SkipReason(rows[i]).value in reasons
    ensures rows[i].id in after && after[rows[i].id] == SkippedOrKept(before[rows[i].id], rows[i])
  {
    var id := rows[i].id;
    if SkipReason(rows[i]).Some? {
      var own := SkipReason(rows[i]).value;
      SkipBatchCarriesItsRows(rows, i, own);
      assert SkipHolds(before, ListAt(skips, own), id);
      assert after[id] != before[id];
    }
    if after[id] != before[id] {
      var why :| why in reasons && SkippedAs(before, after, ListAt(skips, why), id, why);
      SkipBatchCarriesItsRows(rows, i, why);
    }
  }

  /** A row the pass did not claim is skipped by none of its statements. */
  lemma {:induction false} SkipsMissOthers(before: map<int, Delivery>, after: map<int, Delivery>,
                                           skips: map<string, seq<(int, nat)>>, reasons: seq<string>,
                                           rows: seq<Claimed>, id: int)
    requires SkipsLanded(before, after, skips, reasons) && SkipsAre(skips, rows)
    requires id in before && forall j :: 0 <= j < |rows| ==> rows[j].id != id
    ensures id in after && after[id] == before[id]
  {
    if after[id] != before[id] {
      var why :| why in reasons && SkippedAs(before, after, ListAt(skips, why), id, why);
      var batch := BatchOf(SkippedFor(rows, why));
      var j := SkippedIsClaimed(rows, why, (id, batch[id]));
      assert false;
    }
  }

  // ---- one pass ----------------------------------------------------------------------------------

  /**
   What a pass leaves on a claimed row: skipped for its own reason; else the outcome of its device,
   when that device had its turn and did not raise; else as the claim left it, leased.
   */
  ghost predicate PassEnds(was: Delivery, row: Delivery, c: Claimed, reached: seq<int>,
                           answers: int -> Option<Outcome>, times: int -> real)
  {
    if SkipReason(c).Some? then row == was.(status := Skipped, reason := SkipReason(c))
    else if c.device in reached && answers(c.device).Some? then
      Leaves(was, row, Posted(answers(c.device).value), times(c.device))
    else row == was
  }

  /** The same, computed. */
  function PassLeaves(d: Delivery, c: Claimed, reached: seq<int>,
                      answers: int -> Option<Outcome>, times: int -> real): Delivery
  {
    if SkipReason(c).Some? then SkippedOrKept(d, c)
    else if c.device in reached && answers(c.device).Some? then
      Record(d, Posted(answers(c.device).value), times(c.device))
    else d
  }

  /** `f` of each device, in the order of their turns. */
  function OfEach<T>(order: seq<int>, f: int -> T): (r: seq<T>)
    ensures |r| == |order| && forall k :: 0 <= k < |order| ==> r[k] == f(order[k])
  {
    seq(|order|, k requires 0 <= k < |order| => f(order[k]))
  }

  /** The keys of `skips` in sorted order. */
  function SortedReasons(skips: map<string, seq<(int, nat)>>, n: nat): (r: seq<string>)
    requires n <= |REASONS|
    ensures forall why :: why in r <==> why in skips && why in REASONS[..n]
  {
    if n == 0 then [] else
      var rest := SortedReasons(skips, n - 1);
      assert REASONS[..n] == REASONS[..n - 1] + [REASONS[n - 1]];
      if REASONS[n - 1] in skips then rest + [REASONS[n - 1]] else rest
  }

  /** A kept row through the device loop, told by its device instead of its device's turn. */
  lemma {:induction false} KeptRowLeaves(ts: seq<Tables>, rows: seq<Claimed>, i: nat, order: seq<int>,
                                         devices: map<int, seq<Claimed>>, answers: int -> Option<Outcome>,
                                         times: int -> real)
    requires PassTables(ts, order, devices, OfEach(order, answers), OfEach(order, times))
    requires DistinctIds(rows) && OneTurnEach(order) && DevicesAre(devices, rows)
    requires i < |rows| && SkipReason(rows[i]) == None
    requires rows[i].id in ts[0].rows && AsClaimed(ts[0].rows[rows[i].id], rows[i].attempts)
    ensures rows[i].id in ts[|ts| - 1].rows
    ensures ts[|ts| - 1].rows[rows[i].id]
         == PassLeaves(ts[0].rows[rows[i].id], rows[i], order[..|ts| - 1], answers, times)
  {
    var n := |ts| - 1;
    KeptRowLeftAs(ts, rows, i, order, devices, OfEach(order, answers), OfEach(order, times));
    var turn := TurnOf(order, rows[i].device, n);
    if turn.Some? {
      assert order[..n][turn.value] == rows[i].device;
    }
  }

  lemma {:induction false} NoTurnIsTheirs(rows: seq<Claimed>, id: int, order: seq<int>,
                                          devices: map<int, seq<Claimed>>)
    requires DevicesAre(devices, rows)
    requires forall j :: 0 <= j < |rows| && SkipReason(rows[j]) == None ==> rows[j].id != id
    ensures NoTurnCarries(Batches(order, devices), id)
  {
    forall k | 0 <= k < |order|
      ensures id !in Batches(order, devices)[k]
    {
      assert ListAt(devices, order[k]) == KeptFor(rows, order[k]);
      NotKeptIsUncarried(rows, id, order[k]);
    }
  }

  /** A row the device loop has no business with: skipped, or not claimed by this pass. */
  lemma {:induction false} OtherRowLeaves(ts: seq<Tables>, rows: seq<Claimed>, id: int, order: seq<int>,
                                          devices: map<int, seq<Claimed>>, answers: seq<Option<Outcome>>,
                                          times: seq<real>)
    requires PassTables(ts, order, devices, answers, times) && DevicesAre(devices, rows)
    requires forall j :: 0 <= j < |rows| && SkipReason(rows[j]) == None ==> rows[j].id != id
    requires id in ts[0].rows
    ensures id in ts[|ts| - 1].rows && ts[|ts| - 1].rows[id] == ts[0].rows[id]
  {
    assert RowsOf(ts)[0] == ts[0].rows && RowsOf(ts)[|ts| - 1] == ts[|ts| - 1].rows;
    PassRunsThrough(ts, order, devices, answers, times);
    NoTurnIsTheirs(rows, id, order, devices);
    UncarriedThroughPass(RowsOf(ts), id, Batches(order, devices), answers, times, |ts| - 1);
  }

  /** A device has a turn exactly when a claimed row is kept for it. */
  lemma KeptDeviceHasATurn(rows: seq<Claimed>, i: nat, devices: map<int, seq<Claimed>>)
    requires i < |rows| && SkipReason(rows[i]) == None && DevicesAre(devices, rows)
    ensures rows[i].device in devices
  {
    EveryRowGoesOnePlace(rows, i);
    assert ListAt(devices, rows[i].device) == KeptFor(rows, rows[i].device);
  }

  /** A device that has a turn has a row to push. */
  lemma TurnIsForARow(rows: seq<Claimed>, device: int, devices: map<int, seq<Claimed>>) returns (c: Claimed)
    requires DevicesAre(devices, rows) && ListAt(devices, device) != []
    ensures c in rows && SkipReason(c) == None && c.device == device
  {
    c := KeptFor(rows, device)[0];
    EveryRowGoesOnePlace(rows, 0);
  }

  /** A claimed row's reason has its skip statement. */
  lemma ReasonHasItsStatement(rows: seq<Claimed>, i: nat, skips: map<string, seq<(int, nat)>>)
    requires i < |rows| && SkipReason(rows[i]).Some? && SkipsAre(skips, rows)
    ensures SkipReason(rows[i]).value in SortedReasons(skips, |REASONS|)
  {
    EveryRowGoesOnePlace(rows, i);
    assert ListAt(skips, SkipReason(rows[i]).value) == SkippedFor(rows, SkipReason(rows[i]).value);
    assert REASONS[..|REASONS|] == REASONS;
  }

  /** Everything a pass leaves on one claimed row, through both its halves. */
  lemma {:induction false} ClaimedRowLeaves(before: Tables, ts: seq<Tables>, rows: seq<Claimed>, i: nat,
                                            skips: map<string, seq<(int, nat)>>, order: seq<int>,
                                            devices: map<int, seq<Claimed>>, answers: int -> Option<Outcome>,
                                            times: int -> real)
    requires PassTables(ts, order, devices, OfEach(order, answers), OfEach(order, times))
    requires ClaimedNow(before, rows) && OneTurnEach(order) && DevicesAre(devices, rows) && SkipsAre(skips, rows)
    requires SkipsLanded(before.rows, ts[0].rows, skips, SortedReasons(skips, |REASONS|))
    requires i < |rows|
    ensures rows[i].id in ts[|ts| - 1].rows
    ensures ts[|ts| - 1].rows[rows[i].id]
         == PassLeaves(before.rows[rows[i].id], rows[i], order[..|ts| - 1], answers, times)
  {
    if SkipReason(rows[i]).Some? {
      ReasonHasItsStatement(rows, i, skips);
    }
    SkipsHitTheirRows(before.rows, ts[0].rows, skips, SortedReasons(skips, |REASONS|), rows, i);
    if SkipReason(rows[i]) == None {
      KeptRowLeaves(ts, rows, i, order, devices, answers, times);
    } else {
      OtherRowLeaves(ts, rows, rows[i].id, order, devices, OfEach(order, answers), OfEach(order, times));
    }
  }

  /** A row this pass did not claim. */
  lemma {:induction false} UnclaimedRowLeaves(before: Tables, ts: seq<Tables>, rows: seq<Claimed>, id: int,
                                              skips: map<string, seq<(int, nat)>>, order: seq<int>,
                                              devices: map<int, seq<Claimed>>, answers: seq<Option<Outcome>>,
                                              times: seq<real>)
    requires PassTables(ts, order, devices, answers, times)
    requires DevicesAre(devices, rows) && SkipsAre(skips, rows)
    requires SkipsLanded(before.rows, ts[0].rows, skips, SortedReasons(skips, |REASONS|))
    requires id in before.rows && forall j :: 0 <= j < |rows| ==> rows[j].id != id
    ensures id in ts[|ts| - 1].rows && ts[|ts| - 1].rows[id] == before.rows[id]
  {
    SkipsMissOthers(before.rows, ts[0].rows, skips, SortedReasons(skips, |REASONS|), rows, id);
    OtherRowLeaves(ts, rows, id, order, devices, answers, times);
  }

  lemma {:induction false} PassKeepsIds(ts: seq<Tables>, order: seq<int>, devices: map<int, seq<Claimed>>,
                                        answers: seq<Option<Outcome>>, times: seq<real>, n: nat)
    requires PassTables(ts, order, devices, answers, times) && n < |ts|
    ensures ts[n].rows.Keys == ts[0].rows.Keys
  {
    if n > 0 {
      PassKeepsIds(ts, order, devices, answers, times, n - 1);
    }
  }

  /** The delivery table after a pass over `rows` that reached these devices. */
  ghost predicate PassLeft(before: map<int, Delivery>, after: map<int, Delivery>, rows: seq<Claimed>,
                           reached: seq<int>, answers: int -> Option<Outcome>, times: int -> real)
  {
    && after.Keys == before.Keys
    && (forall i :: 0 <= i < |rows| ==>
          rows[i].id in before
          && PassEnds(before[rows[i].id], after[rows[i].id], rows[i], reached, answers, times))
    && (forall id :: id in before && (forall i :: 0 <= i < |rows| ==> rows[i].id != id) ==> after[id] == before[id])
  }

  /** Every row of the table through one pass. */
  lemma {:induction false} EachRowLeaves(before: Tables, ts: seq<Tables>, rows: seq<Claimed>,
                                         skips: map<string, seq<(int, nat)>>, order: seq<int>,
                                         devices: map<int, seq<Claimed>>, answers: int -> Option<Outcome>,
                                         times: int -> real)
    requires PassTables(ts, order, devices, OfEach(order, answers), OfEach(order, times))
    requires ClaimedNow(before, rows) && OneTurnEach(order) && DevicesAre(devices, rows) && SkipsAre(skips, rows)
    requires SkipsLanded(before.rows, ts[0].rows, skips, SortedReasons(skips, |REASONS|))
    ensures PassLeft(before.rows, ts[|ts| - 1].rows, rows, order[..|ts| - 1], answers, times)
  {
    PassKeepsIds(ts, order, devices, OfEach(order, answers), OfEach(order, times), |ts| - 1);
    forall i | 0 <= i < |rows|
      ensures rows[i].id in ts[|ts| - 1].rows
           && PassEnds(before.rows[rows[i].id], ts[|ts| - 1].rows[rows[i].id], rows[i], order[..|ts| - 1],
                       answers, times)
    {
      ClaimedRowLeaves(before, ts, rows, i, skips, order, devices, answers, times);
      var answer := answers(rows[i].device);
      if answer.Some? {
        RecordLeaves(before.rows[rows[i].id], Posted(answer.value), times(rows[i].device));
      }
    }
    forall id | id in before.rows && (forall i :: 0 <= i < |rows| ==> rows[i].id != id)
      ensures id in ts[|ts| - 1].rows && ts[|ts| - 1].rows[id] == before.rows[id]
    {
      UnclaimedRowLeaves(before, ts, rows, id, skips, order, devices, OfEach(order, answers), OfEach(order, times));
    }
  }

  /** The pass reaches its next device: stop() says no and the budget is not spent. */
  predicate GoesOn(device: int, claimedAt: real, stops: int -> bool, clocks: int -> real) {
    !stops(device) && clocks(device) - claimedAt < CLAIM_BUDGET_S
  }

  /** A row kept for a device the pass gave up on before its turn. */
  ghost predicate LeftWaiting(rows: seq<Claimed>, reached: seq<int>, claimedAt: real, stops: int -> bool,
                              clocks: int -> real)
  {
    exists c :: c in rows && SkipReason(c) == None && c.device !in reached
                && !GoesOn(c.device, claimedAt, stops, clocks)
  }

  /** The first `n` devices are every kept row's, unless the pass gave up at the next. */
  lemma {:induction false} TurnsReach(rows: seq<Claimed>, order: seq<int>, devices: map<int, seq<Claimed>>, n: nat,
                                      claimedAt: real, stops: int -> bool, clocks: int -> real)
    requires DevicesAre(devices, rows) && TurnsAre(order, devices) && n <= |order|
    requires forall k :: 0 <= k < n ==>
      !OfEach(order, stops)[k] && OfEach(order, clocks)[k] - claimedAt < CLAIM_BUDGET_S
    ensures forall d :: d in order[..n] ==> GoesOn(d, claimedAt, stops, clocks)
    ensures n == |order| ==> forall c :: c in rows && SkipReason(c) == None ==> c.device in order[..n]
    ensures n < |order| && !GoesOn(order[n], claimedAt, stops, clocks) ==>
              LeftWaiting(rows, order[..n], claimedAt, stops, clocks)
  {
    forall d | d in order[..n]
      ensures GoesOn(d, claimedAt, stops, clocks)
    {
      var k :| 0 <= k < n && order[k] == d;
      assert !OfEach(order, stops)[k];
    }
    if n < |order| {
      var c := TurnIsForARow(rows, order[n], devices);
      assert c.device !in order[..n];
    } else {
      assert order[..n] == order;
      forall i | 0 <= i < |rows| && SkipReason(rows[i]) == None
        ensures rows[i].device in order
      {
        KeptDeviceHasATurn(rows, i, devices);
      }
    }
  }

  /** The rows exhaustion meets: open, their five attempts spent, and due. */
  ghost function ExhaustedIds(rows: map<int, Delivery>, now: real): set<int> {
    set id | id in rows && (rows[id].status == Pending || rows[id].status == Failed)
             && rows[id].attempts >= 5 && rows[id].next.At? && rows[id].next.t <= now
  }

  /** The device is held for the later of two times; no other hold changes. */
  ghost predicate HeldFor(was: map<int, real>, holds: map<int, real>, device: int, until: real) {
    && device in holds && holds[device] == (if device in was && was[device] > until then was[device] else until)
    && forall d :: d != device ==> (d in holds <==> d in was) && (d in holds ==> holds[d] == was[d])
  }

  /** No row is claimed twice in a batch. */
  ghost predicate OneClaimEach(claims: seq<(int, nat)>) {
    forall j, k :: 0 <= j < k < |claims| ==> claims[j].0 != claims[k].0
  }

  /** A batch written back: each of its rows under its own token, and no other row. */
  ghost predicate WrittenBack(was: map<int, Delivery>, rows: map<int, Delivery>, claims: seq<(int, nat)>,
                              outcome: Outcome, now: real)
  {
    && rows.Keys == was.Keys
    && (forall k :: 0 <= k < |claims| && claims[k].0 in was ==>
          Writes(was[claims[k].0], rows[claims[k].0], claims[k].1, Posted(outcome), now))
    && (forall id :: id in was && (forall k :: 0 <= k < |claims| ==> claims[k].0 != id) ==> rows[id] == was[id])
  }

  lemma BatchToken(claims: seq<(int, nat)>, k: nat)
    requires OneClaimEach(claims) && k < |claims|
    ensures claims[k].0 in BatchOf(claims) && BatchOf(claims)[claims[k].0] == claims[k].1
  {
    assert claims[k] in claims;
    assert (claims[k].0, BatchOf(claims)[claims[k].0]) in claims;
  }

  lemma NotInBatch(claims: seq<(int, nat)>, id: int)
    requires forall k :: 0 <= k < |claims| ==> claims[k].0 != id
    ensures id !in BatchOf(claims)
  {}

  lemma {:induction false} BatchWritesBack(was: map<int, Delivery>, claims: seq<(int, nat)>, outcome: Outcome,
                                           now: real)
    requires OneClaimEach(claims)
    ensures WrittenBack(was, CompareAndSet(was, BatchOf(claims), Posted(outcome), now), claims, outcome, now)
  {
    var rows, batch := CompareAndSet(was, BatchOf(claims), Posted(outcome), now), BatchOf(claims);
    forall k | 0 <= k < |claims| && claims[k].0 in was
      ensures Writes(was[claims[k].0], rows[claims[k].0], claims[k].1, Posted(outcome), now)
    {
      BatchToken(claims, k);
      WritesOne(was, batch, Posted(outcome), now, claims[k].0);
    }
    forall id | id in was && (forall k :: 0 <= k < |claims| ==> claims[k].0 != id)
      ensures rows[id] == was[id]
    {
      NotInBatch(claims, id);
    }
  }

  /** The pairs a claim returns: each id with the attempts spent on it. */
  function ClaimedAs(rows: map<int, Delivery>, ids: seq<int>): (got: seq<(int, nat)>)
    requires forall k :: 0 <= k < |ids| ==> ids[k] in rows
  {
    seq(|ids|, k requires 0 <= k < |ids| => (ids[k], rows[ids[k]].attempts))
  }

  /** The rows leased for two minutes, an attempt spent on each, and the tokens they now carry; no other row changed. */
  ghost predicate Leased(was: map<int, Delivery>, rows: map<int, Delivery>, ids: seq<int>, got: seq<(int, nat)>,
                         now: real)
  {
    && rows.Keys == was.Keys && |got| == |ids|
    && (forall k :: 0 <= k < |ids| ==> ids[k] in rows && got[k] == (ids[k], rows[ids[k]].attempts))
    && (forall k :: 0 <= k < |ids| ==> AsClaimed(rows[ids[k]], got[k].1) && got[k].1 <= MAX_ATTEMPTS)
    && (forall id :: id in rows ==>
          if id in ids then rows[id] == was[id].(next := At(now + 120.0), attempts := was[id].attempts + 1)
          else rows[id] == was[id])
  }

  lemma {:induction false} PlanIsLeased(rows: map<int, Delivery>, holds: map<int, real>, locked: set<int>, now: real,
                                        maxRows: nat, maxDevices: nat)
    ensures var ids := Plan(rows, holds, locked, now, maxRows, maxDevices);
            var leased := LeaseRows(rows, ids, now);
            (forall k :: 0 <= k < |ids| ==> ids[k] in leased)
            && Leased(rows, leased, ids, ClaimedAs(leased, ids), now)
  {
    PlanLeases(rows, holds, locked, now, maxRows, maxDevices);
  }

  class Lane {
    /** notification_deliveries by id. */
    var rows: map<int, Delivery>
    /** push_subscriptions.hold_until by device; absent is NULL. */
    var holds: map<int, real>
    /** push_subscriptions whose ended_at is set. */
    var ended: set<int>

    ghost function View(): Tables
      reads this
    {
      Tables(rows, holds, ended)
    }

    constructor ()
      ensures View() == Tables(map[], map[], {})
    {
      rows, holds, ended := map[], map[], {};
    }

    /** EXHAUSTED_SQL; `n` is its row count. */
    method Exhaust(now: real) returns (n: nat)
      modifies this
      ensures rows == ExhaustRows(old(rows), now) && holds == old(holds) && ended == old(ended)
      ensures rows.Keys == old(rows).Keys && n == |ExhaustedIds(old(rows), now)|
      ensures forall id :: id in ExhaustedIds(old(rows), now) ==>
        var was, row := old(rows)[id], rows[id];
        row == was.(status := Failed, next := Never, reason := row.reason)
        && row.reason == (if was.reason.Some? then was.reason else Some("lease_expired"))
      ensures forall id :: id in rows && id !in ExhaustedIds(old(rows), now) ==> rows[id] == old(rows)[id]
    {
      var met := set id | id in rows && Exhausted(rows[id], now);
      assert met == ExhaustedIds(rows, now);
      n := |met|;
      rows := ExhaustRows(rows, now);
    }

    /**
     CLAIM_SQL, past the rows other claimers have `locked`: the planned rows are leased, each with the
     attempts just spent, and no other row changes.
     */
    method Claim(now: real, locked: set<int>, maxRows: nat, maxDevices: nat) returns (got: seq<(int, nat)>)
      modifies this
      ensures Leased(old(rows), rows, Plan(old(rows), old(holds), locked, now, maxRows, maxDevices), got, now)
      ensures holds == old(holds) && ended == old(ended)
    {
      var ids := Plan(rows, holds, locked, now, maxRows, maxDevices);
      PlanIsLeased(rows, holds, locked, now, maxRows, maxDevices);
      var leased := LeaseRows(rows, ids, now);
      got := ClaimedAs(leased, ids);
      rows := leased;
    }

    /** The skip statements of a pass, one per reason. */
    method SkipAll(now: real, skips: map<string, seq<(int, nat)>>, reasons: seq<string>)
      requires forall why :: why in reasons ==> why in skips
      modifies this`rows
      ensures SkipsLanded(old(rows), rows, skips, reasons)
    {
      for i := 0 to |reasons|
        invariant SkipsLanded(old(rows), rows, skips, reasons[..i])
      {
        var why := reasons[i];
        ghost var soFar := rows;
        rows := CompareAndSet(rows, BatchOf(skips[why]), Skip(why), now);
        assert reasons[..i + 1] == reasons[..i] + [why];
        OneMoreSkip(old(rows), soFar, rows, skips, reasons[..i], why, now);
      }
      assert reasons[..|reasons|] == reasons;
    }

    /** finalize: the outcome picks the row statement; gone and throttled also write the device. */
    method Finalize(now: real, device: int, claims: seq<(int, nat)>, outcome: Outcome)
      modifies this
      ensures OneClaimEach(claims) ==> WrittenBack(old(rows), rows, claims, outcome, now)
      ensures ended == if outcome.GoneOut? then old(ended) + {device} else old(ended)
      ensures !outcome.ThrottledOut? ==> holds == old(holds)
      ensures outcome.ThrottledOut? ==> forall s :: Waits(outcome.retryAfter, s) ==>
                HeldFor(old(holds), holds, device, now + (s as real))
      ensures View() == Finalized(old(View()), device, claims, outcome, now)
    {
      var batch := BatchOf(claims);
      if OneClaimEach(claims) {
        BatchWritesBack(rows, claims, outcome, now);
      }
      match outcome {
        case GoneOut(_) =>
          rows := CompareAndSet(rows, batch, Posted(outcome), now);
          ended := ended + {device};
        case ThrottledOut(_, after) =>
          rows := CompareAndSet(rows, batch, Posted(outcome), now);
          holds := HoldDevice(holds, device, now + (HoldSeconds(after) as real));
        case _ =>
          rows := CompareAndSet(rows, batch, Posted(outcome), now);
      }
    }

    /**
     One device of the loop: a raise leaves every table as it was, the rows to their lease. Otherwise
     each row of the batch that is still as claimed takes the outcome, and no other row changes.
     */
    method Deliver(now: real, device: int, batch: seq<Claimed>, answer: Option<Outcome>)
      modifies this
      ensures answer == None ==> View() == old(View())
      ensures rows.Keys == old(rows).Keys
      ensures forall id :: id in rows && (forall c :: c in batch ==> c.id != id) ==> rows[id] == old(rows)[id]
      ensures answer.Some? && DistinctIds(batch) ==> forall c :: c in batch && c.id in rows ==>
        Writes(old(rows)[c.id], rows[c.id], c.attempts, Posted(answer.value), now)
      ensures ended == if answer.Some? && answer.value.GoneOut? then old(ended) + {device} else old(ended)
      ensures answer.Some? && answer.value.ThrottledOut? ==> forall s :: Waits(answer.value.retryAfter, s) ==>
                HeldFor(old(holds), holds, device, now + (s as real))
      ensures !(answer.Some? && answer.value.ThrottledOut?) ==> holds == old(holds)
      ensures View() == Answered(old(View()), device, batch, answer, now)
    {
      if answer.Some? {
        forall id | id in BatchOf(PairsOf(batch))
          ensures exists c :: c in batch && c.id == id
        {
          var c := BatchHoldsKept(batch, id);
        }
        if DistinctIds(batch) {
          forall c | c in batch
            ensures c.id in BatchOf(PairsOf(batch)) && BatchOf(PairsOf(batch))[c.id] == c.attempts
          {
            BatchHoldsToken(batch, c);
          }
        }
        Finalize(now, device, PairsOf(batch), answer.value);
      }
    }

    /** One turn of the device loop: its delivery, raising or not. */
    method TakeTurn(now: real, device: int, batch: seq<Claimed>, answer: Option<Outcome>)
      modifies this
      ensures View() == Answered(old(View()), device, batch, answer, now)
    {
      Deliver(now, device, batch, answer);
    }

    /**
     deliver_once's device loop. `stops` and `clocks` are what stop() and clock() answer before each
     device, `answers` what its delivery yields (None: it raised), `times` when it is finalized.
     */
    method DeliverDevices(claimedAt: real, order: seq<int>, devices: map<int, seq<Claimed>>,
                          stops: seq<bool>, clocks: seq<real>, answers: seq<Option<Outcome>>, times: seq<real>)
      returns (reached: nat, counts: multiset<Kind>, stopped: bool, late: bool, ghost ts: seq<Tables>)
      requires |stops| == |clocks| == |answers| == |times| == |order|
      modifies this
      ensures reached <= |order|
      ensures forall k :: 0 <= k < reached ==> !stops[k] && clocks[k] - claimedAt < CLAIM_BUDGET_S
      ensures stopped <==> reached < |order| && stops[reached]
      ensures late <==> reached < |order| && !stops[reached] && clocks[reached] - claimedAt >= CLAIM_BUDGET_S
      ensures reached == |order| || stopped || late
      ensures PassTables(ts, order, devices, answers, times) && |ts| == reached + 1
      ensures ts[0] == old(View()) && View() == ts[reached]
      ensures counts == multiset(Kinds(answers[..reached])) && |counts| == reached
    {
      reached := 0;
      counts := multiset{};
      ts := [View()];
      while reached < |order| && !stops[reached] && clocks[reached] - claimedAt < CLAIM_BUDGET_S
        invariant reached <= |order|
        invariant forall k :: 0 <= k < reached ==> !stops[k] && clocks[k] - claimedAt < CLAIM_BUDGET_S
        invariant PassTables(ts, order, devices, answers, times) && |ts| == reached + 1
        invariant ts[0] == old(View()) && View() == ts[reached]
        invariant counts == multiset(Kinds(answers[..reached])) && |counts| == reached
      {
        TakeTurn(times[reached], order[reached], ListAt(devices, order[reached]), answers[reached]);
        PassExtends(ts, order, devices, answers, times, reached, View());
        ts := ts + [View()];
        counts := counts + multiset{KindOf(answers[reached])};
        assert Kinds(answers[..reached + 1]) == Kinds(answers[..reached]) + [KindOf(answers[reached])];
        reached := reached + 1;
      }
      stopped := reached < |order| && stops[reached];
      late := reached < |order| && !stopped;
    }

    /**
     deliver_once after its claim: group the rows, run the skip statements, then the device loop.
     `stops`, `clocks`, `answers` and `times` tell, for each device, what stop() and clock() say
     before its turn, what its delivery yields (None: it raised), and when it is finalized.
     */
    method Pass(claimed: seq<Claimed>, skippedAt: real, claimedAt: real, stops: int -> bool, clocks: int -> real,
                answers: int -> Option<Outcome>, times: int -> real)
      returns (reached: seq<int>, stopped: bool, late: bool)
      requires ClaimedNow(View(), claimed)
      modifies this
      ensures PassLeft(old(rows), rows, claimed, reached, answers, times)
      ensures forall d :: d in reached ==> GoesOn(d, claimedAt, stops, clocks)
      ensures if stopped || late then LeftWaiting(claimed, reached, claimedAt, stops, clocks)
              else forall c :: c in claimed && SkipReason(c) == None ==> c.device in reached
    {
      ghost var before := View();
      var skips, devices, order := Partition(claimed);
      var reasons := SortedReasons(skips, |REASONS|);
      SkipAll(skippedAt, skips, reasons);
      var n: nat;
      var counts: multiset<Kind>;
      ghost var ts: seq<Tables>;
      n, counts, stopped, late, ts := DeliverDevices(claimedAt, order, devices, OfEach(order, stops),
        OfEach(order, clocks), OfEach(order, answers), OfEach(order, times));
      reached := order[..n];
      EachRowLeaves(before, ts, claimed, skips, order, devices, answers, times);
      TurnsReach(claimed, order, devices, n, claimedAt, stops, clocks);
    }
  }
}
