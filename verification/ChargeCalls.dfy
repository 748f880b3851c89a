/** What single billing calls decide, and that repeating them changes nothing. */
module ChargeCalls {
  import opened Prelude
  import Calendar
  import opened Charges
  import opened ChargeRuns

  /** Only the row of one charge differs. */
  ghost predicate OnlyRow(b: Billing, t: Billing, id: nat) {
    && t.charges.Keys == b.charges.Keys && t.nextId == b.nextId && t.inboxes == b.inboxes
      && t.registrations == b.registrations
    && forall x :: x in b.charges && x != id ==> t.charges[x] == b.charges[x]
  }

  /** A cancellation succeeds exactly on a cancelled charge, or on one neither PAID nor FAILED with a known
      motive that the gateway, when it knows the charge, accepts. It announces itself once: repeating it,
      with any arguments, changes nothing. */
  lemma CancelIff(b: Billing, id: nat, motiveKnown: bool, gatewayAccepts: bool, again: bool, accepts: bool)
    ensures var (t, res) := Cancel(b, id, motiveKnown, gatewayAccepts);
      && (res.Ok? <==>
            && id in b.charges
            && (|| b.charges[id].status.Cancelled?
                || (!b.charges[id].status.Paid? && !b.charges[id].status.Failed? && motiveKnown
                    && (b.charges[id].gatewayRef == "" || gatewayAccepts))))
      && (res.Err? ==> t == b)
      && (res.Ok? ==>
            && OnlyRow(b, t, id) && t.events == b.events
            && t.charges[id] == b.charges[id].(status := Cancelled)
            && t.outbox == b.outbox + (if b.charges[id].status.Cancelled? then [] else [ChargeCancelled(id)])
            && Cancel(t, id, again, accepts) == (t, Ok(id)))
  {
    assert b.outbox + [] == b.outbox;
  }

  lemma ApplyTwice(c: Charge, r: GatewayResult, today: Calendar.Date)
    ensures var d := LocalOverdue(ApplyBoletoResult(c, r, true), today);
      LocalOverdue(ApplyBoletoResult(d, r, true), today) == d
  {
  }

  /** Polling the gateway twice with the same answer is polling it once: no second event, no second
      message, the same row. */
  lemma SyncIsIdempotent(b: Billing, id: nat, r: GatewayResult, today: Calendar.Date)
    requires Sync(b, id, Found(r), today).1.Ok?
    ensures var t := Sync(b, id, Found(r), today).0; Sync(t, id, Found(r), today) == (t, Ok(id))
  {
    var t := Sync(b, id, Found(r), today).0;
    ApplyTwice(b.charges[id], r, today);
    EventAppended(b.events, PaymentEvent(id, None, SyncAmount(b.charges[id], r)), id);
    assert t.charges[id := t.charges[id]] == t.charges;
  }

  /** A sync never records a payment for a charge it does not leave PAID, and records one exactly when it
      does and none was recorded. */
  lemma SyncRecordsIff(b: Billing, id: nat, r: GatewayResult, today: Calendar.Date)
    requires id in b.charges && Sync(b, id, Found(r), today).1.Ok?
    ensures var t := Sync(b, id, Found(r), today).0;
      && OnlyRow(b, t, id)
      && EventCount(t.events, id) ==
           EventCount(b.events, id) + (if t.charges[id].status.Paid? && EventCount(b.events, id) == 0 then 1 else 0)
      && (t.charges[id].status.Paid? <==>
        b.charges[id].status.Paid? || (r.status == Some(Paid) && !b.charges[id].status.Cancelled?))
  {
    EventAppended(b.events, PaymentEvent(id, None, SyncAmount(b.charges[id], r)), id);
  }

  /** The job makes OVERDUE exactly the open charges of its batch that are past due, and running it again
      on the same day changes nothing. */
  lemma OverdueIff(b: Billing, today: Calendar.Date, batch: set<nat>, id: nat)
    requires id in b.charges
    ensures var c, d := b.charges[id], MarkOverdue(b, today, batch).charges[id];
      && d.(status := c.status) == c
      && (if id in batch && (c.status.Pending? || c.status.Registered?) && !Calendar.Leq(today, c.due)
        then d.status.Overdue?
          else d.status == c.status)
    ensures MarkOverdue(MarkOverdue(b, today, batch), today, batch) == MarkOverdue(b, today, batch)
  {
    var once := MarkOverdue(b, today, batch);
    assert MarkOverdue(once, today, batch).charges == once.charges;
  }
}
