/**
 What an outcome leaves on the row it lands on, and what the rows of any run say of their claims
 (api/push_delivery.py:73-155).
 */
module PushOutcome {
  import opened Common
  import opened PushDelivery
  import opened PushProtocol

  /** The wait after a retry, by the attempts spent: a minute, doubled by each attempt. */
  const RETRY_DELAYS_S: seq<real> := [60.0, 120.0, 240.0, 480.0, 960.0]

  ghost predicate SameSchedule(was: Delivery, row: Delivery) {
    row.attempts == was.attempts && row.next == was.next
  }

  ghost predicate SameReceipt(was: Delivery, row: Delivery) {
    row.sentAt == was.sentAt && row.messageId == was.messageId
  }

  /** A row after a write landed on it, column by column. */
  ghost predicate Leaves(was: Delivery, row: Delivery, w: Write, at: real) {
    && row.device == was.device
    && match w
       case Skip(why) =>
         row.status == Skipped && row.reason == Some(why) && SameSchedule(was, row) && SameReceipt(was, row)
       case Posted(SentOut(id)) =>
         row.status == Sent && row.reason == None && SameSchedule(was, row)
         && row.sentAt == Some(at) && row.messageId == id
       case Posted(GoneOut(why)) =>
         row.status == Gone && row.reason == Some(why) && SameSchedule(was, row) && SameReceipt(was, row)
       case Posted(ThrottledOut(why, _)) =>
         row.status == was.status && row.reason == Some(why) && row.next == At(at) && SameReceipt(was, row)
         && (was.attempts > 0 ==> row.attempts == was.attempts - 1) && (was.attempts == 0 ==> row.attempts == 0)
       case Posted(RetryOut(why)) =>
         row.status == Failed && row.reason == Some(why) && row.attempts == was.attempts && SameReceipt(was, row)
         && (was.attempts < 5 ==> row.next == At(at + RETRY_DELAYS_S[was.attempts]))
         && (was.attempts >= 5 ==> row.next == Never)
       case Posted(FailedOut(why)) =>
         row.status == Failed && row.reason == Some(why) && row.attempts == was.attempts && SameReceipt(was, row)
         && row.next == Never
  }

  /** A write-back meeting a row under a token: it lands on an open row that still carries it, and on no other. */
  ghost predicate Writes(was: Delivery, row: Delivery, token: nat, w: Write, at: real) {
    if (was.status == Pending || was.status == Failed) && was.attempts == token then Leaves(was, row, w, at)
    else row == was
  }

  lemma RecordLeaves(d: Delivery, w: Write, at: real)
    ensures Leaves(d, Record(d, w, at), w, at)
  {
    if w.Posted? && w.outcome.RetryOut? && d.attempts < 5 {
      var delays := [Pow2(0), Pow2(1), Pow2(2), Pow2(3), Pow2(4)];
      assert delays[d.attempts] == Pow2(d.attempts);
      assert delays == [1, 2, 4, 8, 16];
    }
  }

  lemma WritesOne(rows: map<int, Delivery>, batch: map<int, nat>, w: Write, at: real, id: int)
    requires id in rows
    ensures id in CompareAndSet(rows, batch, w, at)
    ensures id in batch ==> Writes(rows[id], CompareAndSet(rows, batch, w, at)[id], batch[id], w, at)
    ensures id !in batch ==> CompareAndSet(rows, batch, w, at)[id] == rows[id]
  {
    RecordLeaves(rows[id], w, at);
  }

  /** What a write-back of a run leaves on any row, by the claim it holds on the row. */
  lemma WriteBackLeaves(ws: seq<World>, es: seq<Event>, i: nat, id: int)
    requires Trace(ws, es) && i < |es| && es[i].step.WriteBack? && id in ws[i].rows
    ensures id in ws[i + 1].rows
    ensures var holder, was, row := es[i].step.holder, ws[i].rows[id], ws[i + 1].rows[id];
            if id in holder then
              holder[id] < |ws[i].claims|
              && Writes(was, row, ws[i].claims[holder[id]].token, es[i].step.write, es[i].now)
            else row == was
  {
    assert ws[i + 1] == Apply(ws[i], es[i]);
    WritesOne(ws[i].rows, Tokens(ws[i], es[i].step.holder), es[i].step.write, es[i].now, id);
  }

  // ---- what a row's columns say of its claims ----------------------------------------------------

  /** The row a recorded write left, as it still stands. */
  ghost predicate Bears(row: Delivery, w: Write, at: real) {
    match w
    case Skip(why) => row.status == Skipped && row.reason == Some(why)
    case Posted(SentOut(id)) =>
      row.status == Sent && row.reason == None && row.sentAt == Some(at) && row.messageId == id
    case Posted(GoneOut(why)) => row.status == Gone && row.reason == Some(why)
    case Posted(ThrottledOut(_, _)) => false
    case _ => row.status != Pending
  }

  /** Each recorded write shows on its row. */
  ghost predicate RecordsShow(w: World) {
    forall c :: 0 <= c < |w.claims| && w.claims[c].fate.Recorded? ==>
      w.claims[c].row in w.rows && Bears(w.rows[w.claims[c].row], w.claims[c].fate.write, w.claims[c].fate.at)
  }

  lemma WriteBackShows(w: World, e: Event)
    requires TokensInv(w) && RecordsShow(w) && Enabled(w, e) && e.step.WriteBack?
    ensures RecordsShow(Apply(w, e))
  {
    var v, h := Apply(w, e), e.step.holder;
    forall c | 0 <= c < |v.claims| && v.claims[c].fate.Recorded?
      ensures v.claims[c].row in v.rows && Bears(v.rows[v.claims[c].row], v.claims[c].fate.write, v.claims[c].fate.at)
    {
      WriteBackFates(w, e, c);
      WritesOne(w.rows, Tokens(w, h), e.step.write, e.now, w.claims[c].row);
    }
  }

  lemma StepShows(w: World, e: Event)
    requires TokensInv(w) && RecordsShow(w) && Enabled(w, e)
    ensures RecordsShow(Apply(w, e))
  {
    if e.step.WriteBack? {
      WriteBackShows(w, e);
    } else if e.step.ClaimDue? {
      ClaimAppends(w, e);
    } else {
      assert forall c :: 0 <= c < |w.claims| ==> Apply(w, e).claims[c].(post := None) == w.claims[c].(post := None);
    }
  }

  lemma {:induction false} RecordsAlwaysShow(ws: seq<World>, es: seq<Event>, i: nat)
    requires Trace(ws, es) && i < |ws|
    ensures RecordsShow(ws[i])
  {
    if i > 0 {
      TokensAlways(ws, es, i - 1);
      RecordsAlwaysShow(ws, es, i - 1);
      StepShows(ws[i - 1], es[i - 1]);
    }
  }

  ghost predicate SaysSent(fate: Fate) {
    fate.Recorded? && fate.write.Posted? && fate.write.outcome.SentOut?
  }

  ghost predicate SaysGone(fate: Fate) {
    fate.Recorded? && fate.write.Posted? && fate.write.outcome.GoneOut?
  }

  ghost predicate SaysSkipped(fate: Fate) {
    fate.Recorded? && fate.write.Skip?
  }

  ghost predicate SaysRecorded(fate: Fate) {
    fate.Recorded?
  }

  /** One of the row's claims has such a fate. */
  ghost predicate SomeClaim(claims: seq<Claim>, id: int, p: Fate -> bool) {
    exists c :: 0 <= c < |claims| && claims[c].row == id && p(claims[c].fate)
  }

  /** Before event `i` the row was fanned out past the sharer cap. */
  ghost predicate CappedBefore(es: seq<Event>, i: nat, id: int)
    requires i <= |es|
  {
    exists j :: 0 <= j < i && es[j].step.FanOut? && es[j].step.id == id && es[j].step.capped
  }

  /** Before event `i` the exhaustion statement met the row: open, five attempts spent, and due. */
  ghost predicate ExhaustedBefore(ws: seq<World>, es: seq<Event>, i: nat, id: int)
    requires i <= |es| < |ws|
  {
    exists j :: 0 <= j < i && es[j].step.Exhaust? && MeetsExhaustion(ws[j], id, es[j].now)
  }

  ghost predicate MeetsExhaustion(w: World, id: int, now: real) {
    && id in w.rows && (w.rows[id].status == Pending || w.rows[id].status == Failed)
    && w.rows[id].attempts >= 5 && w.rows[id].next.At? && w.rows[id].next.t <= now
  }

  /** What put the row where it is. */
  ghost predicate Explained(ws: seq<World>, es: seq<Event>, i: nat, id: int)
    requires i <= |es| < |ws| && id in ws[i].rows
  {
    var row, claims := ws[i].rows[id], ws[i].claims;
    match row.status
    case Sent => SomeClaim(claims, id, SaysSent)
    case Gone => SomeClaim(claims, id, SaysGone)
    case Skipped => SomeClaim(claims, id, SaysSkipped) || (CappedBefore(es, i, id) && row.reason == Some("capped"))
    case Failed => SomeClaim(claims, id, SaysRecorded) || ExhaustedBefore(ws, es, i, id)
    case Pending => !CappedBefore(es, i, id) && !ExhaustedBefore(ws, es, i, id)
  }

  lemma {:induction false} RecordsStay(ws: seq<World>, es: seq<Event>, i: nat, id: int, p: Fate -> bool)
    requires Trace(ws, es) && i < |es| && SomeClaim(ws[i].claims, id, p)
    requires forall fate :: p(fate) ==> fate.Recorded?
    ensures SomeClaim(ws[i + 1].claims, id, p)
  {
    var c :| 0 <= c < |ws[i].claims| && ws[i].claims[c].row == id && p(ws[i].claims[c].fate);
    ClaimsPersist(ws, es, i, i + 1, c);
    assert p(ws[i + 1].claims[c].fate);
  }

  lemma {:induction false} RecordsAllStay(ws: seq<World>, es: seq<Event>, i: nat, id: int)
    requires Trace(ws, es) && i < |es|
    ensures SomeClaim(ws[i].claims, id, SaysSent) ==> SomeClaim(ws[i + 1].claims, id, SaysSent)
    ensures SomeClaim(ws[i].claims, id, SaysGone) ==> SomeClaim(ws[i + 1].claims, id, SaysGone)
    ensures SomeClaim(ws[i].claims, id, SaysSkipped) ==> SomeClaim(ws[i + 1].claims, id, SaysSkipped)
    ensures SomeClaim(ws[i].claims, id, SaysRecorded) ==> SomeClaim(ws[i + 1].claims, id, SaysRecorded)
  {
    if SomeClaim(ws[i].claims, id, SaysSent) { RecordsStay(ws, es, i, id, SaysSent); }
    if SomeClaim(ws[i].claims, id, SaysGone) { RecordsStay(ws, es, i, id, SaysGone); }
    if SomeClaim(ws[i].claims, id, SaysSkipped) { RecordsStay(ws, es, i, id, SaysSkipped); }
    if SomeClaim(ws[i].claims, id, SaysRecorded) { RecordsStay(ws, es, i, id, SaysRecorded); }
  }

  /** A row that was capped or met by exhaustion was there by then. */
  lemma {:induction false} WasThere(ws: seq<World>, es: seq<Event>, i: nat, id: int)
    requires Trace(ws, es) && i <= |es| && (CappedBefore(es, i, id) || ExhaustedBefore(ws, es, i, id))
    ensures id in ws[i].rows
  {
    if CappedBefore(es, i, id) {
      var j :| 0 <= j < i && es[j].step.FanOut? && es[j].step.id == id && es[j].step.capped;
      assert ws[j + 1] == Apply(ws[j], es[j]);
      RowsPersist(ws, es, j + 1, i, id);
    } else {
      var j :| 0 <= j < i && es[j].step.Exhaust? && MeetsExhaustion(ws[j], id, es[j].now);
      RowsPersist(ws, es, j, i, id);
    }
  }

  lemma {:induction false} WriteBackExplains(ws: seq<World>, es: seq<Event>, i: nat, id: int)
    requires Trace(ws, es) && i < |es| && es[i].step.WriteBack? && id in ws[i].rows
    requires Explained(ws, es, i, id)
    ensures id in ws[i + 1].rows && Explained(ws, es, i + 1, id)
  {
    RecordsAllStay(ws, es, i, id);
    WriteBackLeaves(ws, es, i, id);
    var w, e := ws[i], es[i];
    assert CappedBefore(es, i + 1, id) <==> CappedBefore(es, i, id);
    assert ExhaustedBefore(ws, es, i + 1, id) <==> ExhaustedBefore(ws, es, i, id);
    if id in e.step.holder {
      var c := e.step.holder[id];
      assert w.claims[c].row == id;
      WriteBackFates(w, e, c);
      assert ws[i + 1].claims[c].fate == FateAfter(w, c, e.step.write, e.now);
    }
  }

  lemma {:induction false} OtherStepExplains(ws: seq<World>, es: seq<Event>, i: nat, id: int)
    requires Trace(ws, es) && i < |es| && !es[i].step.WriteBack? && id in ws[i].rows
    requires Explained(ws, es, i, id)
    ensures id in ws[i + 1].rows && Explained(ws, es, i + 1, id)
  {
    RecordsAllStay(ws, es, i, id);
    assert ws[i + 1] == Apply(ws[i], es[i]);
    assert CappedBefore(es, i + 1, id) <==> CappedBefore(es, i, id);
    assert ExhaustedBefore(ws, es, i + 1, id) <==>
      ExhaustedBefore(ws, es, i, id) || (es[i].step.Exhaust? && MeetsExhaustion(ws[i], id, es[i].now));
  }

  lemma {:induction false} FanOutExplains(ws: seq<World>, es: seq<Event>, i: nat, id: int)
    requires Trace(ws, es) && i < |es| && id !in ws[i].rows && id in ws[i + 1].rows
    ensures Explained(ws, es, i + 1, id)
  {
    assert ws[i + 1] == Apply(ws[i], es[i]);
    assert es[i].step.FanOut? && es[i].step.id == id;
    if CappedBefore(es, i, id) || ExhaustedBefore(ws, es, i, id) {
      WasThere(ws, es, i, id);
    }
    assert CappedBefore(es, i + 1, id) <==> CappedBefore(es, i, id) || es[i].step.capped;
    assert ExhaustedBefore(ws, es, i + 1, id) <==> ExhaustedBefore(ws, es, i, id);
  }

  lemma {:induction false} AlwaysExplained(ws: seq<World>, es: seq<Event>, i: nat, id: int)
    requires Trace(ws, es) && i < |ws| && id in ws[i].rows
    ensures Explained(ws, es, i, id)
  {
    if i > 0 {
      if id !in ws[i - 1].rows {
        FanOutExplains(ws, es, i - 1, id);
      } else {
        AlwaysExplained(ws, es, i - 1, id);
        if es[i - 1].step.WriteBack? {
          WriteBackExplains(ws, es, i - 1, id);
        } else {
          OtherStepExplains(ws, es, i - 1, id);
        }
      }
    }
  }

  /** A row is sent exactly when one of its claims recorded a sent outcome; it then bears that outcome. */
  lemma SentIff(ws: seq<World>, es: seq<Event>, i: nat, id: int)
    requires Trace(ws, es) && i < |ws| && id in ws[i].rows
    ensures ws[i].rows[id].status == Sent <==> SomeClaim(ws[i].claims, id, SaysSent)
    ensures forall c | 0 <= c < |ws[i].claims| && ws[i].claims[c].row == id && SaysSent(ws[i].claims[c].fate) ::
              var row, fate := ws[i].rows[id], ws[i].claims[c].fate;
              row.sentAt == Some(fate.at) && row.messageId == fate.write.outcome.messageId && row.reason == None
  {
    AlwaysExplained(ws, es, i, id);
    RecordsAlwaysShow(ws, es, i);
  }

  /** A row is gone exactly when one of its claims recorded a gone outcome, whose reason it bears. */
  lemma GoneIff(ws: seq<World>, es: seq<Event>, i: nat, id: int)
    requires Trace(ws, es) && i < |ws| && id in ws[i].rows
    ensures ws[i].rows[id].status == Gone <==> SomeClaim(ws[i].claims, id, SaysGone)
    ensures forall c | 0 <= c < |ws[i].claims| && ws[i].claims[c].row == id && SaysGone(ws[i].claims[c].fate) ::
              ws[i].rows[id].reason == Some(ws[i].claims[c].fate.write.outcome.reason)
  {
    AlwaysExplained(ws, es, i, id);
    RecordsAlwaysShow(ws, es, i);
  }

  lemma {:induction false} CappedStaysSkipped(ws: seq<World>, es: seq<Event>, i: nat, id: int)
    requires Trace(ws, es) && i < |ws| && CappedBefore(es, i, id)
    ensures id in ws[i].rows && ws[i].rows[id].status == Skipped && ws[i].rows[id].reason == Some("capped")
  {
    var j :| 0 <= j < i && es[j].step.FanOut? && es[j].step.id == id && es[j].step.capped;
    assert ws[j + 1] == Apply(ws[j], es[j]);
    ClosedRowsNeverChange(ws, es, j + 1, i, id);
  }

  /** A row is skipped exactly when it was fanned out past the cap or one of its claims recorded a skip. */
  lemma SkippedIff(ws: seq<World>, es: seq<Event>, i: nat, id: int)
    requires Trace(ws, es) && i < |ws| && id in ws[i].rows
    ensures ws[i].rows[id].status == Skipped <==>
              CappedBefore(es, i, id) || SomeClaim(ws[i].claims, id, SaysSkipped)
    ensures CappedBefore(es, i, id) ==> ws[i].rows[id].reason == Some("capped")
    ensures forall c | 0 <= c < |ws[i].claims| && ws[i].claims[c].row == id && SaysSkipped(ws[i].claims[c].fate) ::
              ws[i].rows[id].reason == Some(ws[i].claims[c].fate.write.reason)
  {
    AlwaysExplained(ws, es, i, id);
    RecordsAlwaysShow(ws, es, i);
    if CappedBefore(es, i, id) {
      CappedStaysSkipped(ws, es, i, id);
    }
  }

  /** A row is pending exactly while nothing was recorded on it: no cap, no exhaustion, no claim's write. */
  lemma PendingIff(ws: seq<World>, es: seq<Event>, i: nat, id: int)
    requires Trace(ws, es) && i < |ws| && id in ws[i].rows
    ensures ws[i].rows[id].status == Pending <==>
              !CappedBefore(es, i, id) && !ExhaustedBefore(ws, es, i, id)
              && !SomeClaim(ws[i].claims, id, SaysRecorded)
  {
    AlwaysExplained(ws, es, i, id);
    RecordsAlwaysShow(ws, es, i);
  }

  // ---- a device on hold --------------------------------------------------------------------------

  /** Retry-After, or a minute when there is none. */
  ghost predicate Waits(retryAfter: Option<int>, s: int) {
    match retryAfter
    case None => s == 60
    case Some(given) => s == if given == 0 then 60 else given
  }

  ghost predicate HeldUntil(holds: map<int, real>, device: int, until: real) {
    device in holds && holds[device] >= until
  }

  lemma {:induction false} HoldsStay(ws: seq<World>, es: seq<Event>, i: nat, j: nat, device: int, until: real)
    requires Trace(ws, es) && i <= j < |ws| && HeldUntil(ws[i].holds, device, until)
    ensures HeldUntil(ws[j].holds, device, until)
    decreases j - i
  {
    if i < j {
      HoldsStay(ws, es, i, j - 1, device, until);
      assert ws[j] == Apply(ws[j - 1], es[j - 1]);
    }
  }

  /** From a 429 until its wait is over no claim of a run takes a row of that device. */
  lemma HeldDeviceIsNotClaimed(ws: seq<World>, es: seq<Event>, i: nat, j: nat, s: int, k: nat)
    requires Trace(ws, es) && i < j < |es| && es[i].step.WriteBack?
    requires es[i].step.write.Posted? && es[i].step.write.outcome.ThrottledOut?
    requires Waits(es[i].step.write.outcome.retryAfter, s) && es[j].now < es[i].now + (s as real)
    requires es[j].step.ClaimDue? && k < |es[j].step.ids|
    ensures es[j].step.ids[k] in ws[j].rows && ws[j].rows[es[j].step.ids[k]].device != es[i].step.device
  {
    assert ws[i + 1] == Apply(ws[i], es[i]);
    HoldsStay(ws, es, i + 1, j, es[i].step.device, es[i].now + (s as real));
    assert Claimable(ws[j].rows[es[j].step.ids[k]], ws[j].holds, es[j].now);
  }

  /** Before event `i` a gone outcome came from the device. */
  ghost predicate GoneBefore(es: seq<Event>, i: nat, device: int)
    requires i <= |es|
  {
    exists j :: 0 <= j < i && EndsDevice(es[j].step, device)
  }

  ghost predicate EndsDevice(step: Step, device: int) {
    step.WriteBack? && step.device == device && step.write.Posted? && step.write.outcome.GoneOut?
  }

  /** A device ends in a run exactly when one of its POSTs is answered gone, landed or not. */
  lemma {:induction false} EndedIff(ws: seq<World>, es: seq<Event>, i: nat, device: int)
    requires Trace(ws, es) && i < |ws|
    ensures device in ws[i].ended <==> device in ws[0].ended || GoneBefore(es, i, device)
  {
    if i > 0 {
      EndedIff(ws, es, i - 1, device);
      assert ws[i] == Apply(ws[i - 1], es[i - 1]);
      assert GoneBefore(es, i, device) <==> GoneBefore(es, i - 1, device) || EndsDevice(es[i - 1].step, device);
    }
  }
}
