/** The billing services as methods that update the tenant's rows step by step:
    apps/billing/services.py. Every method is atomic; a raise restores the rows. */
module BillingServices {
  import opened Prelude
  import Calendar
  import Plan
  import opened Charges

  class BillingService {
    var charges: map<nat, Charge>
    var nextId: nat
    var inboxes: seq<Inbox>
    var events: seq<PaymentEvent>
    var outbox: seq<Message>
    var registrations: seq<Registration>

    function Rows(): Billing
      reads this
    {
      Billing(charges, nextId, inboxes, events, outbox, registrations)
    }

    constructor ()
      ensures Rows() == Billing(map[], 0, [], [], [], [])
    {
      charges, nextId, inboxes, events, outbox, registrations := map[], 0, [], [], [], [];
    }

    method EnrichBoletoArtifacts(id: nat, lookups: seq<Lookup>)
      requires id in charges
      modifies this`charges
      ensures Rows() == old(Rows()).(charges := old(charges)[id := Enrich(old(charges[id]), lookups, ENRICH_ATTEMPTS)])
    {
      var i := 0;
      while i < ENRICH_ATTEMPTS && i < |lookups|
        invariant 0 <= i <= ENRICH_ATTEMPTS && i <= |lookups| && id in charges
        invariant charges == old(charges)[id := charges[id]]
        invariant Enrich(charges[id], lookups[i..], ENRICH_ATTEMPTS - i)
            == Enrich(old(charges[id]), lookups, ENRICH_ATTEMPTS)
      {
        assert lookups[i..][0] == lookups[i] && lookups[i..][1..] == lookups[i + 1..];
        if lookups[i].Found? {
          charges := charges[id := ApplyBoletoResult(charges[id], lookups[i].result, true)];
          if charges[id].artifacts {
            return;
          }
        }
        i := i + 1;
      }
    }

    /** Registers one stored charge; `done` is false when the call raises, with the rows unchanged. */
    method Register(id: nat, answer: RegisterAnswer) returns (done: bool)
      requires id in charges
      modifies this`charges, this`outbox, this`registrations
      ensures (Rows(), done) == RegisterOne(old(Rows()), id, answer)
    {
      if answer.Refused? {
        return false;
      }
      if answer.Lost? {
        registrations := registrations + [Registration(id, charges[id].key, false)];
        return false;
      }
      var charge := charges[id].(gatewayRef := answer.ref, status := Registered);
      registrations := registrations + [Registration(id, charge.key, true)];
      charge := ApplyBoletoResult(charge, answer.result, false);
      charges := charges[id := charge];
      if !charge.artifacts {
        EnrichBoletoArtifacts(id, answer.lookups);
      }
      outbox := outbox + [ChargeRegistered(id)];
      done := true;
      EnrichKeepsKey(charge, answer.lookups, ENRICH_ATTEMPTS);
      assert charges == old(charges)[id := RegisteredCharge(old(charges[id]), answer)];
    }

    method EmitPendingCharge(id: nat, fallback: string, answer: RegisterAnswer, minimum: Calendar.Date)
      returns (res: Result<seq<nat>, BillingError>)
      modifies this
      ensures (Rows(), res) == Emit(old(Rows()), id, fallback, answer, minimum)
    {
      if id !in charges {
        return Err(ChargeMissing);
      }
      var charge := charges[id];
      if charge.gatewayRef != "" {
        return Ok([id]);
      }
      if charge.status !in {Pending, Failed} {
        return Err(InvalidInput);
      }
      if charge.amount < Plan.CHARGE_MIN_AMOUNT_CENTS || !Calendar.Leq(minimum, charge.due) {
        return Err(InvalidInput);
      }
      var saved := charges;
      charges := charges[id := EmitRow(charge, fallback)];
      var done := Register(id, answer);
      if !done {
        charges := saved;
        return Err(GatewayRefused);
      }
      res := Ok([id]);
    }

    /** Inserts and registers the parts in order. */
    method RegisterParts(parts: seq<Charge>, answers: seq<RegisterAnswer>) returns (failure: Option<BillingError>)
      modifies this
      ensures (Rows(), failure) == AddParts(old(Rows()), parts, answers)
    {
      var rest, left := parts, answers;
      while rest != []
        invariant AddParts(Rows(), rest, left) == AddParts(old(Rows()), parts, answers)
        decreases |rest|
      {
        if FindKey(Rows(), rest[0].key).Some? {
          return Some(DuplicateKey);
        }
        var id := nextId;
        charges, nextId := charges[id := rest[0]], nextId + 1;
        var done := Register(id, FirstAnswer(left));
        if !done {
          return Some(GatewayRefused);
        }
        rest, left := rest[1..], OtherAnswers(left);
      }
      failure := None;
    }

    method CreateCharge(r: Request, answers: seq<RegisterAnswer>, minimum: Calendar.Date)
      returns (res: Result<seq<nat>, BillingError>)
      requires Calendar.Representable(r.due) && (r.end.Some? ==> Calendar.Representable(r.end.value))
      modifies this
      ensures (Rows(), res) == Create(old(Rows()), r, answers, minimum)
    {
      PlanShape(r);
      var existing := FindKey(Rows(), r.key);
      if existing.Some? {
        var charge := charges[existing.value];
        if charge.gatewayRef != "" {
          if charge.group.Some? {
            return Ok(GroupMembers(charges, nextId, charge.group.value));
          }
          return Ok([existing.value]);
        }
        if charge.status in {Pending, Failed} {
          res := EmitPendingCharge(existing.value, r.generated, FirstAnswer(answers), minimum);
          return;
        }
        return Ok([existing.value]);
      }
      if r.amount < Plan.CHARGE_MIN_AMOUNT_CENTS || !Calendar.Leq(minimum, r.due) {
        return Err(InvalidInput);
      }
      var control := Control(r);
      if control.Err? {
        return Err(ControlRefused(control.error));
      }
      var plan := Plan.ResolveOccurrencePlan(r.kind, r.due, r.amount, r.installments, r.end);
      if plan.Err? {
        return Err(PlanRefused(plan.error));
      }
      var first, saved := nextId, Rows();
      var failure := RegisterParts(Parts(r, plan.value, control.value, first), answers);
      if failure.Some? {
        charges, inboxes, events, outbox := saved.charges, saved.inboxes, saved.events, saved.outbox;
        return Err(failure.value);
      }
      res := Ok(Consecutive(first, |plan.value.amounts|));
    }

    method CancelCharge(id: nat, motiveKnown: bool, gatewayAccepts: bool) returns (res: Result<nat, BillingError>)
      modifies this`charges, this`outbox
      ensures (Rows(), res) == Cancel(old(Rows()), id, motiveKnown, gatewayAccepts)
    {
      if id !in charges {
        return Err(ChargeMissing);
      }
      var charge := charges[id];
      if charge.status == Paid {
        return Err(IncompatibleStatus);
      }
      if charge.status == Cancelled {
        return Ok(id);
      }
      if charge.status == Failed {
        return Err(IncompatibleStatus);
      }
      if !motiveKnown {
        return Err(InvalidInput);
      }
      if charge.gatewayRef != "" && !gatewayAccepts {
        return Err(GatewayRefused);
      }
      charges := charges[id := charge.(status := Cancelled)];
      outbox := outbox + [ChargeCancelled(id)];
      res := Ok(id);
    }

    method SyncChargeFromGateway(id: nat, lookup: Lookup, today: Calendar.Date) returns (res: Result<nat, BillingError>)
      modifies this`charges, this`events, this`outbox
      ensures (Rows(), res) == Sync(old(Rows()), id, lookup, today)
    {
      if id !in charges || charges[id].gatewayRef == "" {
        return Err(ChargeMissing);
      }
      if lookup.Unreachable? {
        return Err(GatewayRefused);
      }
      var saved, charge := charges, charges[id];
      charge := ApplyBoletoResult(charge, lookup.result, true);
      charge := LocalOverdue(charge, today);
      charges := charges[id := charge];
      if charge.status == Paid && EventCount(events, id) == 0 {
        var amount := SyncAmount(charge, lookup.result);
        if amount <= 0 {
          charges := saved;
          return Err(ConstraintViolation);
        }
        events := events + [PaymentEvent(id, None, amount)];
        outbox := outbox + [ChargePaid(id)];
      }
      res := Ok(id);
    }

    /** `batch` is the ordered, limited selection of the query. */
    method MarkOverdueCharges(today: Calendar.Date, batch: set<nat>)
      modifies this`charges
      ensures Rows() == MarkOverdue(old(Rows()), today, batch)
    {
      var rest := batch;
      while rest != {}
        invariant rest <= batch
        invariant charges.Keys == old(charges).Keys
        invariant forall id :: id in charges ==>
          charges[id] == if id in batch - rest then LocalOverdue(old(charges)[id], today) else old(charges)[id]
        decreases |rest|
      {
        var id :| id in rest;
        if id in charges && PastDue(charges[id], today) {
          charges := charges[id := charges[id].(status := Overdue)];
        }
        rest := rest - {id};
      }
    }

    method SetInboxStatus(i: nat, status: InboxStatus)
      requires i < |inboxes|
      modifies this`inboxes
      ensures Rows() == SetInbox(old(Rows()), i, status)
    {
      inboxes := inboxes[i := inboxes[i].(status := status)];
    }

    /** Applies a final payload to a known charge. */
    method SettleInbox(i: nat, id: nat, p: Payload)
      requires i < |inboxes| && id in charges
      modifies this`charges, this`inboxes, this`events, this`outbox
      ensures Rows() == Settle(old(Rows()), i, id, p)
    {
      var charge := charges[id];
      if !IsPayment(p) {
        charges := charges[id := charge.(status := LifecycleStatus(charge.status, p.hub.value))];
        SetInboxStatus(i, Processed);
        return;
      }
      if p.amount.None? || p.amount.value != charge.amount {
        SetInboxStatus(i, Rejected);
        return;
      }
      if EventCount(events, id) == 0 && !OwnsEvent(events, i) {
        events := events + [PaymentEvent(id, Some(i), p.amount.value)];
      }
      charges := charges[id := charge.(status := Paid)];
      if charge.status != Paid {
        outbox := outbox + [ChargePaid(id)];
      }
      SetInboxStatus(i, Processed);
    }

    /** Completes a light payload with the gateway's answer, storing what it says of the charge. */
    method EnrichWebhookFromGateway(i: nat, id: nat, r: GatewayResult) returns (p: Payload)
      requires i < |inboxes| && id in charges
      modifies this`charges, this`inboxes
      ensures p == EnrichedPayload(old(inboxes[i].payload), old(charges[id]), r)
      ensures Rows() == old(Rows()).(charges := old(charges)[id := ApplyBoletoResult(old(charges[id]), r, true)],
                                     inboxes := old(inboxes)[i := old(inboxes[i]).(payload := p)])
    {
      var charge := charges[id];
      p := EnrichedPayload(inboxes[i].payload, charge, r);
      charges := charges[id := ApplyBoletoResult(charge, r, true)];
      inboxes := inboxes[i := inboxes[i].(payload := p)];
    }

    method ProcessWebhookInbox(i: nat, lookup: Lookup)
      requires i < |inboxes|
      modifies this`charges, this`inboxes, this`events, this`outbox
      ensures Rows() == Process(old(Rows()), i, lookup)
    {
      if inboxes[i].status == Processed {
        return;
      }
      ghost var before := Rows();
      var p := inboxes[i].payload;
      SetInboxStatus(i, Processing);
      var found := FindCharge(Rows(), p);
      assert found == FindCharge(before, p);
      if found.None? {
        SetInboxStatus(i, Rejected);
        return;
      }
      var id := found.value;
      if NeedsLookup(p, charges[id]) {
        if lookup.Unreachable? {
          SetInboxStatus(i, Rejected);
          return;
        }
        p := EnrichWebhookFromGateway(i, id, lookup.result);
        before := before.(charges := charges, inboxes := before.inboxes[i := before.inboxes[i].(payload := p)]);
        assert Rows() == SetInbox(before, i, Processing);
      }
      SettleInbox(i, id, p);
      SettleIgnoresStatus(before, i, id, p, Processing);
    }

    method IngestGatewayWebhook(provider: string, key: string, payload: Payload, lookup: Lookup)
      returns (res: Result<nat, BillingError>)
      modifies this`charges, this`inboxes, this`events, this`outbox
      ensures (Rows(), res) == Ingest(old(Rows()), provider, key, payload, lookup)
    {
      if key == "" {
        return Err(ChargeMissing);
      }
      var existing := FindInbox(inboxes, provider, key);
      if existing.Some? {
        return Ok(existing.value);
      }
      var i := |inboxes|;
      inboxes := inboxes + [Inbox(provider, key, Received, payload)];
      ProcessWebhookInbox(i, lookup);
      res := Ok(i);
    }

    method ReprocessWebhook(i: nat, lookup: Lookup)
      requires i < |inboxes|
      modifies this`charges, this`inboxes, this`events, this`outbox
      ensures Rows() == Reprocess(old(Rows()), i, lookup)
    {
      if inboxes[i].status !in {Rejected, Received, Processing} {
        return;
      }
      SetInboxStatus(i, Received);
      ProcessWebhookInbox(i, lookup);
    }
  }

  /** The intermediate inbox status is not observable once the callback is applied. */
  lemma SettleIgnoresStatus(b: Billing, i: nat, id: nat, p: Payload, status: InboxStatus)
    requires i < |b.inboxes| && id in b.charges
    ensures Settle(SetInbox(b, i, status), i, id, p) == Settle(b, i, id, p)
  {
  }

  lemma {:induction false} EnrichKeepsKey(c: Charge, lookups: seq<Lookup>, attempts: nat)
    ensures Enrich(c, lookups, attempts).key == c.key
    decreases attempts
  {
    if attempts > 0 && lookups != [] {
      EnrichKeepsKey(if lookups[0].Found? then ApplyBoletoResult(c, lookups[0].result, true)
          else c, lookups[1..], attempts - 1);
    }
  }
}
