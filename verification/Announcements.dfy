/** Which payments are announced: what a recorded payment's announcement depends on. */
module Announcements {
  import opened Prelude
  import Calendar
  import opened Charges
  import opened ChargeRuns

  lemma SettleKeepsAnnounced(b: Billing, i: nat, id: nat, p: Payload, paid: nat)
    requires i < |b.inboxes| && id in b.charges && paid in b.charges && b.charges[paid].status.Paid?
    ensures PaidMessages(Settle(b, i, id, p).outbox, paid) == PaidMessages(b.outbox, paid)
  {
    MessageAppended(b.outbox, ChargePaid(id), paid);
  }

  lemma {:induction false} PartsKeepAnnounced(b: Billing, parts: seq<Charge>, answers: seq<RegisterAnswer>, paid: nat)
    ensures PaidMessages(AddParts(b, parts, answers).0.outbox, paid) == PaidMessages(b.outbox, paid)
    decreases |parts|
  {
    if parts != [] && FindKey(b, parts[0].key).None? {
      RegisterKeepsAnnounced(Insert(b, parts[0]), b.nextId, FirstAnswer(answers), paid);
      var (t, done) := RegisterOne(Insert(b, parts[0]), b.nextId, FirstAnswer(answers));
      if done { PartsKeepAnnounced(t, parts[1..], OtherAnswers(answers), paid); }
    }
  }

  lemma RegisterKeepsAnnounced(b: Billing, id: nat, answer: RegisterAnswer, paid: nat)
    requires id in b.charges
    ensures PaidMessages(RegisterOne(b, id, answer).0.outbox, paid) == PaidMessages(b.outbox, paid)
  {
    MessageAppended(b.outbox, ChargeRegistered(id), paid);
  }

  lemma CreateKeepsAnnounced(b: Billing, r: Request, answers: seq<RegisterAnswer>, minimum: Calendar.Date, paid: nat)
    requires Admissible(CreateStep(r, answers, minimum))
    ensures PaidMessages(Create(b, r, answers, minimum).0.outbox, paid) == PaidMessages(b.outbox, paid)
  {
    CreateShape(b, r, answers, minimum);
    if FindKey(b, r.key).Some? {
      EmitKeepsAnnounced(b, FindKey(b, r.key).value, r.generated, FirstAnswer(answers), minimum, paid);
    }
    if PlanOf(r).Ok? && Control(r).Ok? {
      PlanShape(r);
      PartsKeepAnnounced(b, Parts(r, PlanOf(r).value, Control(r).value, b.nextId), answers, paid);
    }
  }

  lemma EmitKeepsAnnounced(b: Billing, id: nat, fallback: string, answer: RegisterAnswer, minimum: Calendar.Date,
      paid: nat)
    ensures PaidMessages(Emit(b, id, fallback, answer, minimum).0.outbox, paid) == PaidMessages(b.outbox, paid)
  {
    EmitShape(b, id, fallback, answer, minimum);
    if id in b.charges {
      RegisterKeepsAnnounced(b.(charges := b.charges[id := EmitRow(b.charges[id], fallback)]), id, answer, paid);
    }
  }

  /** Once a payment is recorded, its announcements are final: a step adds none. */
  lemma RecordedIsFinal(b: Billing, step: Step, id: nat)
    requires Safe(b) && Admissible(step) && EventCount(b.events, id) > 0
    ensures PaidMessages(Apply(b, step).outbox, id) == PaidMessages(b.outbox, id)
  {
    match step
    case CreateStep(r, answers, minimum) => CreateKeepsAnnounced(b, r, answers, minimum, id);
    case EmitStep(x, fallback, answer, minimum) => EmitKeepsAnnounced(b, x, fallback, answer, minimum, id);
    case CancelStep(x, _, _) => MessageAppended(b.outbox, ChargeCancelled(x), id);
    case SyncStep(x, _, _) => MessageAppended(b.outbox, ChargePaid(x), id);
    case OverdueStep(_, _) =>
    case IngestStep(provider, key, payload, lookup) =>
      if key != "" && FindInbox(b.inboxes, provider, key).None? {
        ProcessKeepsAnnounced(b.(inboxes := b.inboxes + [Inbox(provider, key, Received, payload)]), |b.inboxes|,
            lookup, id);
      }
    case ReprocessStep(i, lookup) =>
      if i < |b.inboxes| && !b.inboxes[i].status.Processed? {
        ProcessKeepsAnnounced(SetInbox(b, i, Received), i, lookup, id);
      }
  }

  lemma ProcessKeepsAnnounced(b: Billing, i: nat, lookup: Lookup, paid: nat)
    requires i < |b.inboxes| && paid in b.charges && b.charges[paid].status.Paid?
    ensures PaidMessages(Process(b, i, lookup).outbox, paid) == PaidMessages(b.outbox, paid)
  {
    var p := b.inboxes[i].payload;
    if !b.inboxes[i].status.Processed? && FindCharge(b, p).Some? {
      var id := FindCharge(b, p).value;
      if !NeedsLookup(p, b.charges[id]) {
        SettleKeepsAnnounced(b, i, id, p, paid);
      } else if lookup.Found? {
        var q := EnrichedPayload(p, b.charges[id], lookup.result);
        SettleKeepsAnnounced(b.(charges := b.charges[id := ApplyBoletoResult(b.charges[id], lookup.result, true)],
                                inboxes := b.inboxes[i := b.inboxes[i].(payload := q)]), i, id, q, paid);
      }
    }
  }

  lemma {:induction false} RecordedStaysFinal(b: Billing, steps: seq<Step>, id: nat)
    requires Safe(b) && EventCount(b.events, id) > 0 && forall s :: s in steps ==> Admissible(s)
    ensures PaidMessages(Run(b, steps).outbox, id) == PaidMessages(b.outbox, id)
    decreases |steps|
  {
    if steps != [] {
      StepIsSafe(b, steps[0]);
      RecordedIsFinal(b, steps[0], id);
      assert EventCount(b.events, id) <= EventCount(Apply(b, steps[0]).events, id);
      RecordedStaysFinal(Apply(b, steps[0]), steps[1..], id);
    }
  }

  // ---- the step that records ----------------------------------------------------------------------

  /** The status of the charge when a callback's payload is applied: after the callback's own lookup, if it
      makes one. */
  function StatusWhenApplied(c: Charge, p: Payload, lookup: Lookup): Status {
    if NeedsLookup(p, c) && lookup.Found? then MergeStatus(c.status, lookup.result.status) else c.status
  }

  /** The guard of the announcement: a sync always announces what it records; a callback does so when the
      charge is not PAID yet. */
  predicate Announces(b: Billing, step: Step, id: nat) {
    match step
    case SyncStep(_, _, _) => true
    case IngestStep(_, _, payload, lookup) => id in b.charges
        && !StatusWhenApplied(b.charges[id], payload, lookup).Paid?
    case ReprocessStep(i, lookup) =>
      id in b.charges && i < |b.inboxes| && !StatusWhenApplied(b.charges[id], b.inboxes[i].payload, lookup).Paid?
    case _ => false
  }

  lemma SettleAnnounces(b: Billing, i: nat, at: nat, p: Payload, id: nat)
    requires i < |b.inboxes| && at in b.charges && EventCount(b.events, id) == 0
    requires EventCount(Settle(b, i, at, p).events, id) > 0
    ensures at == id
    ensures PaidMessages(Settle(b, i, at, p).outbox, id)
            == PaidMessages(b.outbox, id) + if b.charges[id].status.Paid? then 0 else 1
  {
    EventAppended(b.events, PaymentEvent(at, Some(i), b.charges[at].amount), id);
    MessageAppended(b.outbox, ChargePaid(at), id);
  }

  /** The rows a callback is applied to, once its lookup has answered. */
  function LookedUp(b: Billing, i: nat, at: nat, r: GatewayResult): Billing
    requires i < |b.inboxes| && at in b.charges
  {
    var c, p := b.charges[at], b.inboxes[i].payload;
    b.(charges := b.charges[at := ApplyBoletoResult(c, r, true)],
       inboxes := b.inboxes[i := b.inboxes[i].(payload := EnrichedPayload(p, c, r))])
  }

  lemma ProcessShape(b: Billing, i: nat, lookup: Lookup)
    requires i < |b.inboxes| && Process(b, i, lookup).events != b.events
    ensures !b.inboxes[i].status.Processed? && FindCharge(b, b.inboxes[i].payload).Some?
    ensures var p, at := b.inboxes[i].payload, FindCharge(b, b.inboxes[i].payload).value;
      var c := b.charges[at];
      if NeedsLookup(p, c) then
        && lookup.Found?
        && Process(b, i, lookup) == Settle(LookedUp(b, i, at, lookup.result), i, at,
          EnrichedPayload(p, c, lookup.result))
      else Process(b, i, lookup) == Settle(b, i, at, p)
  {
  }

  lemma ProcessAnnounces(b: Billing, i: nat, lookup: Lookup, id: nat)
    requires i < |b.inboxes| && EventCount(b.events, id) == 0
    requires EventCount(Process(b, i, lookup).events, id) > 0
    ensures id in b.charges
    ensures PaidMessages(Process(b, i, lookup).outbox, id)
            == PaidMessages(b.outbox, id)
               + if StatusWhenApplied(b.charges[id], b.inboxes[i].payload, lookup).Paid? then 0 else 1
  {
    ProcessShape(b, i, lookup);
    var p := b.inboxes[i].payload;
    var at := FindCharge(b, p).value;
    if NeedsLookup(p, b.charges[at]) {
      SettleAnnounces(LookedUp(b, i, at, lookup.result), i, at, EnrichedPayload(p, b.charges[at], lookup.result), id);
    } else {
      SettleAnnounces(b, i, at, p, id);
    }
  }

  lemma {:induction false} PartsKeepEvents(b: Billing, parts: seq<Charge>, answers: seq<RegisterAnswer>)
    ensures AddParts(b, parts, answers).0.events == b.events
    decreases |parts|
  {
    if parts != [] && FindKey(b, parts[0].key).None? {
      var (t, done) := RegisterOne(Insert(b, parts[0]), b.nextId, FirstAnswer(answers));
      if done { PartsKeepEvents(t, parts[1..], OtherAnswers(answers)); }
    }
  }

  lemma CreateKeepsEvents(b: Billing, r: Request, answers: seq<RegisterAnswer>, minimum: Calendar.Date)
    requires Admissible(CreateStep(r, answers, minimum))
    ensures Create(b, r, answers, minimum).0.events == b.events
  {
    CreateShape(b, r, answers, minimum);
    if FindKey(b, r.key).Some? { EmitShape(b, FindKey(b, r.key).value, r.generated, FirstAnswer(answers), minimum); }
    if PlanOf(r).Ok? && Control(r).Ok? {
      PlanShape(r);
      PartsKeepEvents(b, Parts(r, PlanOf(r).value, Control(r).value, b.nextId), answers);
    }
  }

  lemma SyncAnnounces(b: Billing, at: nat, lookup: Lookup, today: Calendar.Date, id: nat)
    requires EventCount(b.events, id) == 0 && EventCount(Sync(b, at, lookup, today).0.events, id) > 0
    ensures PaidMessages(Sync(b, at, lookup, today).0.outbox, id) == PaidMessages(b.outbox, id) + 1
  {
    if at in b.charges && lookup.Found? {
      EventAppended(b.events, PaymentEvent(at, None, SyncAmount(b.charges[at], lookup.result)), id);
      MessageAppended(b.outbox, ChargePaid(at), id);
    }
  }

  lemma StepAnnouncesIff(b: Billing, step: Step, id: nat)
    requires Safe(b) && Admissible(step)
    requires EventCount(b.events, id) == 0 && EventCount(Apply(b, step).events, id) > 0
    ensures step.SyncStep? || step.IngestStep? || step.ReprocessStep?
    ensures PaidMessages(Apply(b, step).outbox, id) == if Announces(b, step, id) then 1 else 0
  {
    assert PaidMessages(b.outbox, id) <= EventCount(b.events, id);
    match step
    case CreateStep(r, answers, minimum) => CreateKeepsEvents(b, r, answers, minimum);
    case EmitStep(x, fallback, answer, minimum) => EmitShape(b, x, fallback, answer, minimum);
    case CancelStep(_, _, _) =>
    case OverdueStep(_, _) =>
    case SyncStep(x, lookup, today) => SyncAnnounces(b, x, lookup, today, id);
    case IngestStep(provider, key, payload, lookup) =>
      ProcessAnnounces(b.(inboxes := b.inboxes + [Inbox(provider, key, Received, payload)]), |b.inboxes|, lookup, id);
    case ReprocessStep(i, lookup) =>
      ProcessAnnounces(SetInbox(b, i, Received), i, lookup, id);
  }

  /** Main result, for every safe state and every step that records the first event of a charge: the payment
      is announced, once and for every continuation, if and only if the step is a sync or a callback applied
      to a charge that was not PAID yet; otherwise no run ever announces it. */
  lemma FirstRecordAnnouncesIff(b: Billing, step: Step, id: nat, steps: seq<Step>)
    requires Safe(b) && Admissible(step) && forall s :: s in steps ==> Admissible(s)
    requires EventCount(b.events, id) == 0 && EventCount(Apply(b, step).events, id) > 0
    ensures step.SyncStep? || step.IngestStep? || step.ReprocessStep?
    ensures var t := Run(Apply(b, step), steps);
      EventCount(t.events, id) == 1 && PaidMessages(t.outbox, id) == if Announces(b, step, id) then 1 else 0
  {
    StepAnnouncesIff(b, step, id);
    StepIsSafe(b, step);
    var t := Apply(b, step);
    RecordedStaysFinal(t, steps, id);
    RunIsSafe(t, steps);
    assert EventCount(t.events, id) <= EventCount(Run(t, steps).events, id) <= 1;
  }

  // ---- which callbacks record ---------------------------------------------------------------------

  /** A fresh callback finds the charge and its final payload is a payment of the charge's amount. */
  predicate Pays(b: Billing, provider: string, key: string, payload: Payload, lookup: Lookup, id: nat) {
    && key != "" && FindInbox(b.inboxes, provider, key).None? && FindCharge(b, payload) == Some(id)
    && (NeedsLookup(payload, b.charges[id]) ==> lookup.Found?)
    && var final := if NeedsLookup(payload, b.charges[id]) then EnrichedPayload(payload, b.charges[id], lookup.result)
      else payload;
       IsPayment(final) && final.amount == Some(b.charges[id].amount)
  }

  lemma SettlePays(b: Billing, i: nat, id: nat, p: Payload)
    requires i < |b.inboxes| && id in b.charges && IsPayment(p) && p.amount == Some(b.charges[id].amount)
    requires !OwnsEvent(b.events, i) && EventCount(b.events, id) <= 1
    ensures var t := Settle(b, i, id, p); t.charges[id].status.Paid? && EventCount(t.events, id) == 1
    ensures PaidMessages(Settle(b, i, id, p).outbox, id)
            == PaidMessages(b.outbox, id) + if b.charges[id].status.Paid? then 0 else 1
  {
    EventAppended(b.events, PaymentEvent(id, Some(i), b.charges[id].amount), id);
    MessageAppended(b.outbox, ChargePaid(id), id);
  }

  /** Every such callback leaves the charge PAID with one event, and adds one announcement exactly when the
      charge was not PAID when its payload was applied. */
  lemma CallbackAnnouncesIff(b: Billing, provider: string, key: string, payload: Payload, lookup: Lookup, id: nat)
    requires Safe(b) && Pays(b, provider, key, payload, lookup, id)
    ensures var t := Ingest(b, provider, key, payload, lookup).0;
      && t.charges[id].status.Paid? && EventCount(t.events, id) == 1
      && PaidMessages(t.outbox, id)
         == PaidMessages(b.outbox, id) + if StatusWhenApplied(b.charges[id], payload, lookup).Paid? then 0 else 1
  {
    var s, i := b.(inboxes := b.inboxes + [Inbox(provider, key, Received, payload)]), |b.inboxes|;
    assert FindCharge(s, payload) == FindCharge(b, payload);
    assert !OwnsEvent(s.events, i);
    assert EventCount(b.events, id) <= 1;
    if NeedsLookup(payload, b.charges[id]) {
      SettlePays(LookedUp(s, i, id, lookup.result), i, id, EnrichedPayload(payload, b.charges[id], lookup.result));
    } else {
      SettlePays(s, i, id, payload);
    }
  }

  /** A charge already PAID but not recorded, or set PAID by the callback's own lookup: the payment is
      recorded, and no later run ever announces it. */
  lemma LightCallbackIsNeverAnnounced(b: Billing, provider: string, key: string, payload: Payload, lookup: Lookup,
                                      id: nat, steps: seq<Step>)
    requires Safe(b) && Pays(b, provider, key, payload, lookup, id) && EventCount(b.events, id) == 0
    requires StatusWhenApplied(b.charges[id], payload, lookup).Paid?
    requires forall s :: s in steps ==> Admissible(s)
    ensures var t := Ingest(b, provider, key, payload, lookup).0;
      t.charges[id].status.Paid? && EventCount(t.events, id) == 1 && PaidMessages(Run(t, steps).outbox, id) == 0
  {
    CallbackAnnouncesIff(b, provider, key, payload, lookup, id);
    FirstRecordAnnouncesIff(b, IngestStep(provider, key, payload, lookup), id, steps);
  }

  lemma SyncOfPaid(b: Billing, id: nat, r: GatewayResult, today: Calendar.Date)
    requires id in b.charges && b.charges[id].status.Paid? && EventCount(b.events, id) == 0
    requires b.charges[id].gatewayRef != "" && SyncAmount(b.charges[id], r) > 0
    ensures var (t, res) := Sync(b, id, Found(r), today);
      && res == Ok(id) && id in t.charges && t.charges[id].status.Paid?
      && t.events == b.events + [PaymentEvent(id, None, SyncAmount(b.charges[id], r))]
      && t.outbox == b.outbox + [ChargePaid(id)]
  {
  }

  /** PAID without an event, as enrichment leaves it, is repaired by a sync that comes before the next payment
      callback. */
  lemma SyncRepairs(b: Billing, id: nat, r: GatewayResult, today: Calendar.Date)
    requires Safe(b) && id in b.charges && b.charges[id].status.Paid? && EventCount(b.events, id) == 0
    requires b.charges[id].gatewayRef != "" && SyncAmount(b.charges[id], r) > 0
    ensures var (t, res) := Sync(b, id, Found(r), today);
      && res == Ok(id) && id in t.charges && t.charges[id].status.Paid?
      && EventCount(t.events, id) == 1 && PaidMessages(t.outbox, id) == 1
  {
    assert PaidMessages(b.outbox, id) <= EventCount(b.events, id);
    SyncOfPaid(b, id, r, today);
    EventAppended(b.events, PaymentEvent(id, None, SyncAmount(b.charges[id], r)), id);
    MessageAppended(b.outbox, ChargePaid(id), id);
  }
}
