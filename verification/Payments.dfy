/** When PAID, the recorded event and the announced payment agree: exactly which steps break it, and over runs. */
module Payments {
  import opened Prelude
  import Calendar
  import Announcements
  import opened Charges
  import opened ChargeRuns
  import opened PlanReach

  /** PAID if and only if recorded exactly once if and only if announced exactly once. */
  ghost predicate Agree(b: Billing) {
    forall id: nat ::
      && PaidMessages(b.outbox, id) == EventCount(b.events, id)
      && (id in b.charges && b.charges[id].status.Paid? ==> EventCount(b.events, id) == 1)
  }

  /** Rewrites that do not newly pay keep the agreement. */
  ghost predicate PaysNothing(b: Billing, t: Billing) {
    && t.events == b.events
    && (forall id: nat :: PaidMessages(t.outbox, id) == PaidMessages(b.outbox, id))
    && (forall id :: id in t.charges && t.charges[id].status.Paid? ==> id in b.charges && b.charges[id].status.Paid?)
  }

  lemma PaysNothingAgrees(b: Billing, t: Billing)
    requires Agree(b) && PaysNothing(b, t)
    ensures Agree(t)
  {
  }

  // ---- the steps that break it --------------------------------------------------------------------

  /** The callback's own lookup sets PAID a charge that is neither PAID nor CANCELLED. */
  predicate PaysOnLookup(b: Billing, p: Payload, lookup: Lookup) {
    var found := FindCharge(b, p);
    && found.Some? && NeedsLookup(p, b.charges[found.value])
    && lookup.Found? && lookup.result.status == Some(Paid)
    && !b.charges[found.value].status.Paid? && !b.charges[found.value].status.Cancelled?
  }

  /** The emission is accepted and a lookup after it reports PAID. */
  predicate EmitPays(b: Billing, id: nat, fallback: string, answer: RegisterAnswer, minimum: Calendar.Date) {
    Emittable(b, id, minimum) && answer.Accepted?
        && RegisteredCharge(EmitRow(b.charges[id], fallback), answer).status.Paid?
  }

  predicate PartPays(part: Charge, answer: RegisterAnswer) {
    answer.Accepted? && RegisteredCharge(part, answer).status.Paid?
  }

  /** Every part is stored, and a lookup after one of them reports PAID. */
  ghost predicate PlanPays(b: Billing, parts: seq<Charge>, answers: seq<RegisterAnswer>) {
    && Reached(b, parts, answers) == |parts|
    && exists k: nat :: k < |parts| && PartPays(parts[k], AnswerAt(answers, k))
  }

  /** A lookup leaves a charge PAID in this step, so that nothing records it. */
  ghost predicate PaidByLookup(b: Billing, step: Step) {
    match step
    case CreateStep(r, answers, minimum) =>
      if NewPlan(b, r, minimum) then PlanPays(b, PlannedParts(b, r, minimum), answers)
      else Taken(b, r.key) && EmitPays(b, FindKey(b, r.key).value, r.generated, FirstAnswer(answers), minimum)
    case EmitStep(id, fallback, answer, minimum) => EmitPays(b, id, fallback, answer, minimum)
    case IngestStep(provider, key, payload, lookup) =>
      key != "" && FindInbox(b.inboxes, provider, key).None? && PaysOnLookup(b, payload, lookup)
    case ReprocessStep(i, lookup) =>
      i < |b.inboxes| && !b.inboxes[i].status.Processed? && PaysOnLookup(b, b.inboxes[i].payload, lookup)
    case _ => false
  }

  lemma EmitAgreesIff(b: Billing, id: nat, fallback: string, answer: RegisterAnswer, minimum: Calendar.Date)
    requires Safe(b) && Agree(b)
    ensures Agree(Emit(b, id, fallback, answer, minimum).0) <==> !EmitPays(b, id, fallback, answer, minimum)
  {
    var t := Emit(b, id, fallback, answer, minimum).0;
    if Emittable(b, id, minimum) && answer.Accepted? {
      forall x: nat ensures PaidMessages(t.outbox, x) == PaidMessages(b.outbox, x) {
        MessageAppended(b.outbox, ChargeRegistered(id), x);
      }
      assert EventCount(b.events, id) == 0;
      assert t.charges[id] == RegisteredCharge(EmitRow(b.charges[id], fallback), answer);
    }
  }

  lemma PlanAgreesIff(b: Billing, r: Request, answers: seq<RegisterAnswer>, minimum: Calendar.Date)
    requires Safe(b) && Agree(b) && NewPlan(b, r, minimum)
    ensures Agree(Create(b, r, answers, minimum).0) <==> !PlanPays(b, PlannedParts(b, r, minimum), answers)
  {
    var parts := PlannedParts(b, r, minimum);
    var n, t := Reached(b, parts, answers), Create(b, r, answers, minimum).0;
    PlanReaches(b, r, answers, minimum);
    NewPlanCreates(b, r, answers, minimum);
    Announcements.PartsKeepEvents(b, parts, answers);
    forall x: nat ensures PaidMessages(t.outbox, x) == PaidMessages(b.outbox, x) {
      Announcements.PartsKeepAnnounced(b, parts, answers, x);
    }
    if n == |parts| {
      StoredPartsAgreeIff(b, t, parts, answers);
    }
  }

  lemma StoredPartsAgreeIff(b: Billing, t: Billing, parts: seq<Charge>, answers: seq<RegisterAnswer>)
    requires Safe(b) && Agree(b) && Reached(b, parts, answers) == |parts|
    requires RowsAdded(b, t, parts, answers, |parts|) && t.nextId == b.nextId + |parts| && IdsUsed(t)
    requires t.events == b.events && forall x: nat :: PaidMessages(t.outbox, x) == PaidMessages(b.outbox, x)
    ensures Agree(t) <==> !PlanPays(b, parts, answers)
  {
    forall id | b.nextId <= id < t.nextId
      ensures EventCount(t.events, id) == 0 && PartStored(t, b.nextId, parts, answers, id)
      ensures t.charges[id].status.Paid? ==> PlanPays(b, parts, answers)
    {
      var k: nat := id - b.nextId;
      assert PartStored(t, b.nextId, parts, answers, id) && AnswerAt(answers, k).Accepted?;
    }
    if PlanPays(b, parts, answers) {
      var k: nat :| k < |parts| && PartPays(parts[k], AnswerAt(answers, k));
      assert PartStored(t, b.nextId, parts, answers, b.nextId + k);
    }
  }

  lemma SyncAgrees(b: Billing, id: nat, lookup: Lookup, today: Calendar.Date)
    requires Safe(b) && Agree(b)
    ensures Agree(Sync(b, id, lookup, today).0)
  {
    var t := Sync(b, id, lookup, today).0;
    if t != b {
      forall x: nat
        ensures PaidMessages(t.outbox, x) == EventCount(t.events, x)
        ensures x in t.charges && t.charges[x].status.Paid? ==> EventCount(t.events, x) == 1
      {
        EventAppended(b.events, PaymentEvent(id, None, SyncAmount(b.charges[id], lookup.result)), x);
        MessageAppended(b.outbox, ChargePaid(id), x);
      }
    }
  }

  lemma SettleAgrees(b: Billing, i: nat, id: nat, p: Payload)
    requires Safe(b) && Agree(b) && i < |b.inboxes| && id in b.charges && !b.inboxes[i].status.Processed?
    ensures Agree(Settle(b, i, id, p))
  {
    var t := Settle(b, i, id, p);
    assert !OwnsEvent(b.events, i);
    forall x: nat
      ensures PaidMessages(t.outbox, x) == EventCount(t.events, x)
      ensures x in t.charges && t.charges[x].status.Paid? ==> EventCount(t.events, x) == 1
    {
      EventAppended(b.events, PaymentEvent(id, Some(i), b.charges[id].amount), x);
      MessageAppended(b.outbox, ChargePaid(id), x);
      assert PaidMessages(b.outbox, x) == EventCount(b.events, x);
      assert EventCount(b.events, id) > 0 ==> b.charges[id].status.Paid?;
    }
  }

  /** Storing what a lookup brought, on the charge and on the inbox, is safe; it pays nothing unless it sets
      PAID. */
  lemma LookupIsSafe(b: Billing, i: nat, id: nat, d: Charge, q: Payload)
    requires Safe(b) && i < |b.inboxes| && !b.inboxes[i].status.Processed? && id in b.charges
        && Follows(b.charges[id], d)
    ensures Safe(b.(charges := b.charges[id := d], inboxes := b.inboxes[i := b.inboxes[i].(payload := q)]))
  {
    Touch(b, id, d);
    var s := b.(charges := b.charges[id := d]);
    TouchInbox(s, i, s.inboxes[i].(payload := q));
  }

  lemma LookupStored(b: Billing, i: nat, id: nat, d: Charge, q: Payload)
    requires Agree(b) && i < |b.inboxes| && id in b.charges && (d.status.Paid? ==> b.charges[id].status.Paid?)
    ensures Agree(b.(charges := b.charges[id := d], inboxes := b.inboxes[i := b.inboxes[i].(payload := q)]))
  {
    PaysNothingAgrees(b, b.(charges := b.charges[id := d], inboxes := b.inboxes[i := b.inboxes[i].(payload := q)]));
  }

  lemma StoredLookupUnpaid(b: Billing, i: nat, id: nat, p: Payload)
    requires Safe(b) && i < |b.inboxes| && id in b.charges && b.charges[id].status.Paid?
    requires EventCount(b.events, id) == 0
    ensures !Agree(Settle(b, i, id, p))
  {
    Announcements.SettleKeepsAnnounced(b, i, id, p, id);
    var t := Settle(b, i, id, p);
    assert PaidMessages(b.outbox, id) <= EventCount(b.events, id);
    assert t.charges[id].status.Paid?;
    assert Agree(t) ==> PaidMessages(t.outbox, id) == EventCount(t.events, id) && EventCount(t.events, id) == 1;
  }

  lemma ProcessAgreesIff(b: Billing, i: nat, lookup: Lookup)
    requires Safe(b) && Agree(b) && i < |b.inboxes| && !b.inboxes[i].status.Processed?
    ensures Agree(Process(b, i, lookup)) <==> !PaysOnLookup(b, b.inboxes[i].payload, lookup)
  {
    var p := b.inboxes[i].payload;
    if FindCharge(b, p).Some? {
      var id := FindCharge(b, p).value;
      var c := b.charges[id];
      if !NeedsLookup(p, c) {
        SettleAgrees(b, i, id, p);
      } else if lookup.Found? {
        LookupAgreesIff(b, i, id, lookup.result);
      }
    }
  }

  lemma LookupAgreesIff(b: Billing, i: nat, id: nat, r: GatewayResult)
    requires Safe(b) && Agree(b) && i < |b.inboxes| && !b.inboxes[i].status.Processed? && id in b.charges
    ensures Agree(Settle(Announcements.LookedUp(b, i, id, r), i, id,
        EnrichedPayload(b.inboxes[i].payload, b.charges[id], r)))
            <==> !(r.status == Some(Paid) && !b.charges[id].status.Paid? && !b.charges[id].status.Cancelled?)
  {
    var c, q := b.charges[id], EnrichedPayload(b.inboxes[i].payload, b.charges[id], r);
    var d := ApplyBoletoResult(c, r, true);
    var u := Announcements.LookedUp(b, i, id, r);
    LookupIsSafe(b, i, id, d, q);
    if d.status.Paid? && !c.status.Paid? {
      assert EventCount(u.events, id) == 0;
      StoredLookupUnpaid(u, i, id, q);
    } else {
      LookupStored(b, i, id, d, q);
      SettleAgrees(u, i, id, q);
    }
  }

  lemma CancelAgrees(b: Billing, id: nat, motiveKnown: bool, gatewayAccepts: bool)
    requires Agree(b)
    ensures Agree(Cancel(b, id, motiveKnown, gatewayAccepts).0)
  {
    var t := Cancel(b, id, motiveKnown, gatewayAccepts).0;
    forall x: nat ensures PaidMessages(t.outbox, x) == PaidMessages(b.outbox, x) {
      MessageAppended(b.outbox, ChargeCancelled(id), x);
    }
    PaysNothingAgrees(b, t);
  }

  lemma IngestAgreesIff(b: Billing, provider: string, key: string, payload: Payload, lookup: Lookup)
    requires Safe(b) && Agree(b)
    ensures Agree(Ingest(b, provider, key, payload, lookup).0) <==>
        !PaidByLookup(b, IngestStep(provider, key, payload, lookup))
  {
    if key != "" && FindInbox(b.inboxes, provider, key).None? {
      NewInboxIsSafe(b, Inbox(provider, key, Received, payload));
      var s := b.(inboxes := b.inboxes + [Inbox(provider, key, Received, payload)]);
      assert FindCharge(s, payload) == FindCharge(b, payload);
      ProcessAgreesIff(s, |b.inboxes|, lookup);
    }
  }

  lemma ReprocessAgreesIff(b: Billing, i: nat, lookup: Lookup)
    requires Safe(b) && Agree(b) && i < |b.inboxes|
    ensures Agree(Reprocess(b, i, lookup)) <==> !PaidByLookup(b, ReprocessStep(i, lookup))
  {
    if !b.inboxes[i].status.Processed? {
      TouchInbox(b, i, b.inboxes[i].(status := Received));
      var s := SetInbox(b, i, Received);
      assert FindCharge(s, s.inboxes[i].payload) == FindCharge(b, b.inboxes[i].payload);
      ProcessAgreesIff(s, i, lookup);
    }
  }

  /** One step keeps the agreement if and only if no lookup in it leaves a charge PAID. */
  lemma StepAgreesIff(b: Billing, step: Step)
    requires Safe(b) && Agree(b) && Admissible(step)
    ensures Agree(Apply(b, step)) <==> !PaidByLookup(b, step)
  {
    match step
    case CreateStep(r, answers, minimum) =>
      PlanShape(r);
      if NewPlan(b, r, minimum) {
        PlanAgreesIff(b, r, answers, minimum);
      } else if Taken(b, r.key) {
        EmitAgreesIff(b, FindKey(b, r.key).value, r.generated, FirstAnswer(answers), minimum);
      }
    case EmitStep(id, fallback, answer, minimum) => EmitAgreesIff(b, id, fallback, answer, minimum);
    case CancelStep(id, m, g) => CancelAgrees(b, id, m, g);
    case SyncStep(id, lookup, today) => SyncAgrees(b, id, lookup, today);
    case OverdueStep(today, batch) => PaysNothingAgrees(b, MarkOverdue(b, today, batch));
    case IngestStep(provider, key, payload, lookup) => IngestAgreesIff(b, provider, key, payload, lookup);
    case ReprocessStep(i, lookup) => if i < |b.inboxes| { ReprocessAgreesIff(b, i, lookup); }
  }

  // ---- runs ---------------------------------------------------------------------------------------

  ghost predicate AgreeThroughout(b: Billing, steps: seq<Step>)
    requires forall s :: s in steps ==> Admissible(s)
    decreases |steps|
  {
    Agree(b) && (steps == [] || AgreeThroughout(Apply(b, steps[0]), steps[1..]))
  }

  ghost predicate NeverPaidByLookup(b: Billing, steps: seq<Step>)
    requires forall s :: s in steps ==> Admissible(s)
    decreases |steps|
  {
    steps == [] || (!PaidByLookup(b, steps[0]) && NeverPaidByLookup(Apply(b, steps[0]), steps[1..]))
  }

  /** Main result: the three agree in every state of a run if and only if no step of it leaves a charge PAID
      by a lookup. */
  lemma {:induction false} AgreeThroughoutIff(b: Billing, steps: seq<Step>)
    requires Safe(b) && Agree(b) && forall s :: s in steps ==> Admissible(s)
    ensures AgreeThroughout(b, steps) <==> NeverPaidByLookup(b, steps)
    decreases |steps|
  {
    if steps != [] {
      StepIsSafe(b, steps[0]);
      StepAgreesIff(b, steps[0]);
      var t := Apply(b, steps[0]);
      if Agree(t) {
        AgreeThroughoutIff(t, steps[1..]);
      }
    }
  }

  lemma {:induction false} RunsAgree(b: Billing, steps: seq<Step>)
    requires Safe(b) && Agree(b) && (forall s :: s in steps ==> Admissible(s)) && NeverPaidByLookup(b, steps)
    ensures Agree(Run(b, steps))
    decreases |steps|
  {
    if steps != [] {
      StepIsSafe(b, steps[0]);
      StepAgreesIff(b, steps[0]);
      RunsAgree(Apply(b, steps[0]), steps[1..]);
    }
  }

  lemma LookupPays(c: Charge, answer: RegisterAnswer)
    requires answer.Accepted? && !answer.result.artifacts && !c.artifacts && |answer.lookups| == 1
    requires answer.lookups[0].Found? && answer.lookups[0].result.status == Some(Paid)
        && answer.lookups[0].result.artifacts
    ensures RegisteredCharge(c, answer).status.Paid?
  {
  }

  /** It happens: every charge that can be emitted and has no boleto yet can be answered so that it is left
      PAID, not recorded and not announced. */
  lemma EmissionCanLeaveUnrecorded(b: Billing, id: nat, fallback: string, minimum: Calendar.Date)
      returns (answer: RegisterAnswer)
    requires Safe(b) && Emittable(b, id, minimum) && !b.charges[id].artifacts
    ensures Admissible(EmitStep(id, fallback, answer, minimum))
        && PaidByLookup(b, EmitStep(id, fallback, answer, minimum))
    ensures var (t, res) := Emit(b, id, fallback, answer, minimum);
      res.Ok? && t.charges[id].status.Paid? && EventCount(t.events, id) == 0 && PaidMessages(t.outbox, id) == 0
  {
    var silent := GatewayResult(None, false, "", None, None, None);
    answer := Accepted("ref", silent, [Found(silent.(status := Some(Paid), artifacts := true))]);
    var c := EmitRow(b.charges[id], fallback);
    LookupPays(c, answer);
    MessageAppended(b.outbox, ChargeRegistered(id), id);
    assert EventCount(b.events, id) == 0 && PaidMessages(b.outbox, id) <= EventCount(b.events, id);
  }
}
