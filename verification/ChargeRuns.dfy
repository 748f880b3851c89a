/** What every run of the billing services keeps. */
module ChargeRuns {
  import opened Prelude
  import Calendar
  import Plan
  import opened Charges

  // ---- invariants -----------------------------------------------------------------------------

  ghost predicate RowsOk(charges: map<nat, Charge>, nextId: nat) {
    && (forall id :: id in charges ==> id < nextId && charges[id].amount > 0)
    && (forall i, j :: i in charges && j in charges && charges[i].key == charges[j].key ==> i == j)
  }

  /** At most one event per charge, and an event implies PAID. */
  ghost predicate EventsOk(events: seq<PaymentEvent>, charges: map<nat, Charge>) {
    && (forall id: nat :: EventCount(events, id) <= 1)
    && (forall id: nat :: EventCount(events, id) > 0 ==> id in charges && charges[id].status.Paid?)
    && (forall e :: e in events ==> e.amount > 0)
  }

  /** An inbox that owns an event is processed, so it is never processed again. */
  ghost predicate OwnersOk(events: seq<PaymentEvent>, inboxes: seq<Inbox>) {
    forall e :: e in events && e.inbox.Some? ==> e.inbox.value < |inboxes| && inboxes[e.inbox.value].status.Processed?
  }

  function PaidMessages(outbox: seq<Message>, id: nat): nat { multiset(outbox)[ChargePaid(id)] }

  /** A payment is announced at most as often as it is recorded. */
  ghost predicate AnnouncementsOk(outbox: seq<Message>, events: seq<PaymentEvent>) {
    forall id: nat :: PaidMessages(outbox, id) <= EventCount(events, id)
  }

  /** No charge has two answered registrations. */
  ghost predicate DistinctIds(registrations: seq<Registration>) {
    forall i, j :: 0 <= i < j < |registrations| && registrations[i].answered && registrations[j].answered ==>
      registrations[i].id != registrations[j].id
  }

  /** The gateway answered at most one registration of each charge, and a row it answered for carries its
      reference. */
  ghost predicate RegistrationsOk(registrations: seq<Registration>, charges: map<nat, Charge>, nextId: nat) {
    && DistinctIds(registrations)
    && (forall r :: r in registrations ==> r.id < nextId)
    && (forall r :: r in registrations && r.id in charges ==>
          charges[r.id].key == r.key && (r.answered ==> charges[r.id].gatewayRef != ""))
  }

  ghost predicate Safe(b: Billing) {
    && RowsOk(b.charges, b.nextId)
    && EventsOk(b.events, b.charges)
    && OwnersOk(b.events, b.inboxes)
    && AnnouncementsOk(b.outbox, b.events)
    && RegistrationsOk(b.registrations, b.charges, b.nextId)
  }

  /** Rows stored before any service call: no reference, no payment. */
  ghost predicate Initial(b: Billing) {
    && RowsOk(b.charges, b.nextId) && b.inboxes == [] && b.events == [] && b.outbox == [] && b.registrations == []
    && forall id :: id in b.charges ==> b.charges[id].gatewayRef == ""
  }

  lemma InitialIsSafe(b: Billing)
    requires Initial(b)
    ensures Safe(b)
  {
  }

  ghost predicate RowsExtend(before: map<nat, Charge>, after: map<nat, Charge>) {
    forall id :: id in before ==> id in after && Follows(before[id], after[id])
  }

  ghost predicate EventsExtend(before: seq<PaymentEvent>, after: seq<PaymentEvent>) {
    forall id: nat :: EventCount(before, id) <= EventCount(after, id)
  }

  ghost predicate InboxesExtend(before: seq<Inbox>, after: seq<Inbox>) {
    && |before| <= |after|
    && forall i :: 0 <= i < |before| ==>
         && after[i].provider == before[i].provider && after[i].key == before[i].key
         && (before[i].status.Processed? ==> after[i] == before[i])
  }

  /** What no step undoes: rows persist, PAID is kept, a gateway reference and an event are kept. */
  ghost predicate Extends(b: Billing, t: Billing) {
    && b.nextId <= t.nextId
    && RowsExtend(b.charges, t.charges)
    && EventsExtend(b.events, t.events)
    && InboxesExtend(b.inboxes, t.inboxes)
  }

  predicate Follows(c: Charge, d: Charge) {
    && d.key == c.key && d.amount == c.amount && d.due == c.due && d.group == c.group
    && (c.status.Paid? ==> d.status.Paid?)
    && (c.status.Cancelled? ==> d.status in {Cancelled, Paid})
    && (c.gatewayRef != "" ==> d.gatewayRef == c.gatewayRef)
  }

  lemma ExtendsTransitive(a: Billing, b: Billing, c: Billing)
    requires Extends(a, b) && Extends(b, c)
    ensures Extends(a, c)
  {
    forall id | id in a.charges ensures id in c.charges && Follows(a.charges[id], c.charges[id]) {
      assert Follows(a.charges[id], b.charges[id]) && Follows(b.charges[id], c.charges[id]);
    }
    forall id: nat ensures EventCount(a.events, id) <= EventCount(c.events, id) {
      assert EventCount(a.events, id) <= EventCount(b.events, id) <= EventCount(c.events, id);
    }
  }

  // ---- one update at a time ---------------------------------------------------------------------

  lemma EventAppended(events: seq<PaymentEvent>, e: PaymentEvent, id: nat)
    ensures EventCount(events + [e], id) == EventCount(events, id) + if e.charge == id then 1 else 0
  {
    assert (events + [e])[..|events|] == events;
  }

  lemma MessageAppended(outbox: seq<Message>, m: Message, id: nat)
    ensures PaidMessages(outbox + [m], id) == PaidMessages(outbox, id) + if m == ChargePaid(id) then 1 else 0
  {
    assert multiset(outbox + [m]) == multiset(outbox) + multiset{m};
  }

  lemma TouchRow(charges: map<nat, Charge>, nextId: nat, id: nat, c: Charge)
    requires RowsOk(charges, nextId) && id in charges && Follows(charges[id], c)
    ensures RowsOk(charges[id := c], nextId) && RowsExtend(charges, charges[id := c])
  {
  }

  lemma TouchEvents(events: seq<PaymentEvent>, before: map<nat, Charge>, after: map<nat, Charge>)
    requires EventsOk(events, before) && RowsExtend(before, after)
    ensures EventsOk(events, after)
  {
    forall id: nat | EventCount(events, id) > 0 ensures id in after && after[id].status.Paid? {
      assert Follows(before[id], after[id]);
    }
  }

  lemma TouchRegistrations(registrations: seq<Registration>, before: map<nat, Charge>, after: map<nat, Charge>,
      nextId: nat)
    requires RegistrationsOk(registrations, before, nextId) && RowsExtend(before, after) && after.Keys == before.Keys
    ensures RegistrationsOk(registrations, after, nextId)
  {
    forall r | r in registrations && r.id in after
      ensures after[r.id].key == r.key && (r.answered ==> after[r.id].gatewayRef != "")
    {
      assert Follows(before[r.id], after[r.id]);
    }
  }

  /** Rewriting one row in place. */
  lemma Touch(b: Billing, id: nat, c: Charge)
    requires Safe(b) && id in b.charges && Follows(b.charges[id], c)
    ensures Safe(b.(charges := b.charges[id := c])) && Extends(b, b.(charges := b.charges[id := c]))
  {
    TouchRow(b.charges, b.nextId, id, c);
    TouchEvents(b.events, b.charges, b.charges[id := c]);
    TouchRegistrations(b.registrations, b.charges, b.charges[id := c], b.nextId);
  }

  /** Announcing something other than a payment. */
  lemma Announce(b: Billing, m: Message)
    requires Safe(b) && !m.ChargePaid?
    ensures Safe(b.(outbox := b.outbox + [m])) && Extends(b, b.(outbox := b.outbox + [m]))
  {
    var t := b.(outbox := b.outbox + [m]);
    forall x: nat ensures PaidMessages(t.outbox, x) == PaidMessages(b.outbox, x) { MessageAppended(b.outbox, m, x); }
  }

  lemma TouchInbox(b: Billing, i: nat, x: Inbox)
    requires Safe(b) && i < |b.inboxes| && !b.inboxes[i].status.Processed?
    requires x.provider == b.inboxes[i].provider && x.key == b.inboxes[i].key
    ensures Safe(b.(inboxes := b.inboxes[i := x])) && Extends(b, b.(inboxes := b.inboxes[i := x]))
  {
    var t := b.(inboxes := b.inboxes[i := x]);
  }

  /** Recording the first payment of a charge: the row is PAID, the owning inbox processed. */
  lemma Record(b: Billing, e: PaymentEvent, announce: bool)
    requires Safe(b) && e.amount > 0 && EventCount(b.events, e.charge) == 0
    requires e.charge in b.charges && b.charges[e.charge].status.Paid?
    requires e.inbox.Some? ==> e.inbox.value < |b.inboxes| && b.inboxes[e.inbox.value].status.Processed?
    ensures var t := b.(events := b.events + [e],
                        outbox := if announce then b.outbox + [ChargePaid(e.charge)] else b.outbox);
      Safe(t) && Extends(b, t)
  {
    var t := b.(events := b.events + [e], outbox := if announce then b.outbox + [ChargePaid(e.charge)] else b.outbox);
    forall x: nat
      ensures EventCount(b.events, x) <= EventCount(t.events, x) <= 1
      ensures EventCount(t.events, x) > 0 ==> x in t.charges && t.charges[x].status.Paid?
      ensures PaidMessages(t.outbox, x) <= EventCount(t.events, x)
    {
      EventAppended(b.events, e, x);
      MessageAppended(b.outbox, ChargePaid(e.charge), x);
      assert PaidMessages(b.outbox, x) <= EventCount(b.events, x) <= 1;
    }
  }

  // ---- the services ---------------------------------------------------------------------------------

  lemma EnrichFollows(c: Charge, lookups: seq<Lookup>, attempts: nat)
    ensures Follows(c, Enrich(c, lookups, attempts))
    decreases attempts
  {
    if attempts > 0 && lookups != [] && lookups[0].Found? {
      EnrichFollows(ApplyBoletoResult(c, lookups[0].result, true), lookups[1..], attempts - 1);
    } else if attempts > 0 && lookups != [] {
      EnrichFollows(c, lookups[1..], attempts - 1);
    }
  }

  lemma RegisteredKeepsRow(c: Charge, answer: RegisterAnswer)
    requires answer.Accepted? && answer.ref != ""
    ensures var d := RegisteredCharge(c, answer);
      d.key == c.key && d.amount == c.amount && d.due == c.due && d.group == c.group && d.gatewayRef == answer.ref
  {
    var d := ApplyBoletoResult(c.(gatewayRef := answer.ref, status := Registered), answer.result, false);
    EnrichFollows(d, answer.lookups, ENRICH_ATTEMPTS);
  }

  lemma LogRegistration(b: Billing, id: nat)
    requires Safe(b) && id in b.charges && b.charges[id].gatewayRef != ""
    requires forall r :: r in b.registrations && r.answered ==> r.id != id
    ensures var t := b.(registrations := b.registrations + [Registration(id, b.charges[id].key, true)]);
      Safe(t) && Extends(b, t)
  {
    var t := b.(registrations := b.registrations + [Registration(id, b.charges[id].key, true)]);
  }

  lemma LostIsSafe(b: Billing, id: nat)
    requires Safe(b) && id in b.charges
    ensures Safe(LogLost(b, id)) && Extends(b, LogLost(b, id))
  {
    var t := LogLost(b, id);
  }

  lemma StoreIsSafe(b: Billing, id: nat, c: Charge)
    requires Safe(b) && id in b.charges && b.charges[id].gatewayRef == "" && Follows(b.charges[id], c)
        && c.gatewayRef != ""
    ensures Safe(StoreRegistered(b, id, c)) && Extends(b, StoreRegistered(b, id, c))
  {
    forall r | r in b.registrations && r.answered ensures r.id != id {}
    Touch(b, id, c);
    var s := b.(charges := b.charges[id := c]);
    Announce(s, ChargeRegistered(id));
    var u := s.(outbox := s.outbox + [ChargeRegistered(id)]);
    ExtendsTransitive(b, s, u);
    LogRegistration(u, id);
    ExtendsTransitive(b, u, StoreRegistered(b, id, c));
  }

  /** Registering a row that has no reference yet. */
  lemma RegisterIsSafe(b: Billing, id: nat, answer: RegisterAnswer)
    requires Safe(b) && id in b.charges && b.charges[id].gatewayRef == ""
    requires b.charges[id].status == Pending && (answer.Accepted? ==> answer.ref != "")
    ensures Safe(RegisterOne(b, id, answer).0) && Extends(b, RegisterOne(b, id, answer).0)
  {
    if answer.Accepted? {
      RegisteredKeepsRow(b.charges[id], answer);
      StoreIsSafe(b, id, RegisteredCharge(b.charges[id], answer));
    } else if answer.Lost? {
      LostIsSafe(b, id);
    }
  }

  lemma EmitShape(b: Billing, id: nat, fallback: string, answer: RegisterAnswer, minimum: Calendar.Date)
    ensures var t := Emit(b, id, fallback, answer, minimum).0;
      t == b || (&& id in b.charges && b.charges[id].gatewayRef == "" && b.charges[id].status in {Pending, Failed}
                 && (|| (answer.Lost? && t == LogLost(b, id))
                     || (answer.Accepted?
                         && t == RegisterOne(b.(charges := b.charges[id := EmitRow(b.charges[id], fallback)]), id,
                           answer).0)))
  {
  }

  lemma EmitIsSafe(b: Billing, id: nat, fallback: string, answer: RegisterAnswer, minimum: Calendar.Date)
    requires Safe(b) && (answer.Accepted? ==> answer.ref != "")
    ensures Safe(Emit(b, id, fallback, answer, minimum).0) && Extends(b, Emit(b, id, fallback, answer, minimum).0)
  {
    EmitShape(b, id, fallback, answer, minimum);
    var t := Emit(b, id, fallback, answer, minimum).0;
    if t != b && answer.Lost? {
      LostIsSafe(b, id);
    } else if t != b {
      Touch(b, id, EmitRow(b.charges[id], fallback));
      var s := b.(charges := b.charges[id := EmitRow(b.charges[id], fallback)]);
      RegisterIsSafe(s, id, answer);
      ExtendsTransitive(b, s, t);
    }
  }

  lemma InsertRow(charges: map<nat, Charge>, nextId: nat, c: Charge)
    requires RowsOk(charges, nextId) && c.amount > 0 && forall id :: id in charges ==> charges[id].key != c.key
    ensures nextId !in charges
    ensures RowsOk(charges[nextId := c], nextId + 1) && RowsExtend(charges, charges[nextId := c])
  {
  }

  lemma InsertIsSafe(b: Billing, c: Charge)
    requires Safe(b) && FindKey(b, c.key).None? && c.amount > 0 && c.gatewayRef == ""
    ensures Safe(Insert(b, c)) && Extends(b, Insert(b, c))
  {
    forall id | id in b.charges ensures b.charges[id].key != c.key {}
    InsertRow(b.charges, b.nextId, c);
    TouchEvents(b.events, b.charges, Insert(b, c).charges);
    assert RegistrationsOk(b.registrations, Insert(b, c).charges, b.nextId + 1);
  }

  predicate PartOk(c: Charge) { c.amount > 0 && c.gatewayRef == "" && c.status == Pending }

  lemma PartIsSafe(b: Billing, c: Charge, answer: RegisterAnswer)
    requires Safe(b) && PartOk(c) && FindKey(b, c.key).None? && (answer.Accepted? ==> answer.ref != "")
    ensures var t := RegisterOne(Insert(b, c), b.nextId, answer).0; Safe(t) && Extends(b, t)
  {
    InsertIsSafe(b, c);
    RegisterIsSafe(Insert(b, c), b.nextId, answer);
    ExtendsTransitive(b, Insert(b, c), RegisterOne(Insert(b, c), b.nextId, answer).0);
  }

  lemma {:induction false} AddPartsIsSafe(b: Billing, parts: seq<Charge>, answers: seq<RegisterAnswer>)
    requires Safe(b) && forall c :: c in parts ==> PartOk(c)
    requires forall a :: a in answers && a.Accepted? ==> a.ref != ""
    ensures Safe(AddParts(b, parts, answers).0) && Extends(b, AddParts(b, parts, answers).0)
    decreases |parts|
  {
    if parts != [] && FindKey(b, parts[0].key).None? {
      PartIsSafe(b, parts[0], FirstAnswer(answers));
      var (t, done) := RegisterOne(Insert(b, parts[0]), b.nextId, FirstAnswer(answers));
      if done {
        AddPartsIsSafe(t, parts[1..], OtherAnswers(answers));
        ExtendsTransitive(b, t, AddParts(t, parts[1..], OtherAnswers(answers)).0);
      }
    }
  }

  /** `after` adds registrations of ids that were not in use when `before` had `nextId`. */
  ghost predicate LogGrows(before: seq<Registration>, after: seq<Registration>, nextId: nat) {
    before <= after && forall i :: |before| <= i < |after| ==> nextId <= after[i].id
  }

  lemma PartAppends(b: Billing, c: Charge, answer: RegisterAnswer)
    ensures var t := RegisterOne(Insert(b, c), b.nextId, answer).0;
      t.nextId == b.nextId + 1 && LogGrows(b.registrations, t.registrations, b.nextId)
  {
  }

  /** A failed creation leaves nothing but used ids and the registrations of the vanished parts. */
  lemma {:induction false} AddPartsOnlyAppends(b: Billing, parts: seq<Charge>, answers: seq<RegisterAnswer>)
    ensures var t := AddParts(b, parts, answers).0;
      b.nextId <= t.nextId && LogGrows(b.registrations, t.registrations, b.nextId)
    decreases |parts|
  {
    if parts != [] && FindKey(b, parts[0].key).None? {
      PartAppends(b, parts[0], FirstAnswer(answers));
      var (t, done) := RegisterOne(Insert(b, parts[0]), b.nextId, FirstAnswer(answers));
      if done {
        AddPartsOnlyAppends(t, parts[1..], OtherAnswers(answers));
      }
    }
  }

  lemma RollBackIsSafe(b: Billing, t: Billing)
    requires Safe(b) && Safe(t) && b.nextId <= t.nextId && LogGrows(b.registrations, t.registrations, b.nextId)
    ensures Safe(RollBack(b, t)) && Extends(b, RollBack(b, t))
  {
    forall r | r in t.registrations && r.id in b.charges ensures r in b.registrations {
      var i :| 0 <= i < |t.registrations| && t.registrations[i] == r;
      assert i < |b.registrations|;
    }
  }

  lemma PartsAreOk(r: Request, control: string, group: nat)
    requires Calendar.Representable(r.due) && (r.end.Some? ==> Calendar.Representable(r.end.value))
    requires PlanOf(r).Ok? && r.amount >= Plan.CHARGE_MIN_AMOUNT_CENTS
    ensures |PlanOf(r).value.amounts| == |PlanOf(r).value.dues| <= Plan.RECURRING_MAX
    ensures forall c :: c in Parts(r, PlanOf(r).value, control, group) ==> PartOk(c)
  {
    Plan.PlanIsWellFormed(r.kind, r.due, r.amount, r.installments, r.end);
  }

  lemma CreateShape(b: Billing, r: Request, answers: seq<RegisterAnswer>, minimum: Calendar.Date)
    requires Admissible(CreateStep(r, answers, minimum))
    ensures var t := Create(b, r, answers, minimum).0;
      || t == b
      || (FindKey(b, r.key).Some?
          && t == Emit(b, FindKey(b, r.key).value, r.generated, FirstAnswer(answers), minimum).0)
      || (&& r.amount >= Plan.CHARGE_MIN_AMOUNT_CENTS && Control(r).Ok? && PlanOf(r).Ok?
          && |PlanOf(r).value.amounts| == |PlanOf(r).value.dues| <= Plan.RECURRING_MAX
          && var (u, failure) := AddParts(b, Parts(r, PlanOf(r).value, Control(r).value, b.nextId), answers);
             && Create(b, r, answers, minimum).1.Err? == failure.Some?
             && t == if failure.Some? then RollBack(b, u) else u)
  {
    PlanShape(r);
  }

  lemma CreateIsSafe(b: Billing, r: Request, answers: seq<RegisterAnswer>, minimum: Calendar.Date)
    requires Safe(b) && Admissible(CreateStep(r, answers, minimum))
    ensures Safe(Create(b, r, answers, minimum).0) && Extends(b, Create(b, r, answers, minimum).0)
  {
    CreateShape(b, r, answers, minimum);
    var t := Create(b, r, answers, minimum).0;
    if t != b {
      if FindKey(b, r.key).Some?
        && t == Emit(b, FindKey(b, r.key).value, r.generated, FirstAnswer(answers), minimum).0 {
        EmitIsSafe(b, FindKey(b, r.key).value, r.generated, FirstAnswer(answers), minimum);
      } else {
        NewPartsAreSafe(b, r, Control(r).value, answers);
      }
    }
  }

  lemma NewPartsAreSafe(b: Billing, r: Request, control: string, answers: seq<RegisterAnswer>)
    requires Safe(b) && Calendar.Representable(r.due) && (r.end.Some? ==> Calendar.Representable(r.end.value))
    requires forall a :: a in answers && a.Accepted? ==> a.ref != ""
    requires PlanOf(r).Ok? && r.amount >= Plan.CHARGE_MIN_AMOUNT_CENTS
    ensures |PlanOf(r).value.amounts| == |PlanOf(r).value.dues| <= Plan.RECURRING_MAX
    ensures var u := AddParts(b, Parts(r, PlanOf(r).value, control, b.nextId), answers).0;
      Safe(u) && Extends(b, u) && Safe(RollBack(b, u)) && Extends(b, RollBack(b, u))
  {
    PartsAreOk(r, control, b.nextId);
    var parts := Parts(r, PlanOf(r).value, control, b.nextId);
    AddPartsIsSafe(b, parts, answers);
    AddPartsOnlyAppends(b, parts, answers);
    RollBackIsSafe(b, AddParts(b, parts, answers).0);
  }

  lemma CancelIsSafe(b: Billing, id: nat, motiveKnown: bool, gatewayAccepts: bool)
    requires Safe(b)
    ensures var t := Cancel(b, id, motiveKnown, gatewayAccepts).0; Safe(t) && Extends(b, t)
  {
    var t := Cancel(b, id, motiveKnown, gatewayAccepts).0;
    if t != b {
      var c := b.charges[id].(status := Cancelled);
      Touch(b, id, c);
      var s := b.(charges := b.charges[id := c]);
      Announce(s, ChargeCancelled(id));
      ExtendsTransitive(b, s, t);
    }
  }

  lemma SyncIsSafe(b: Billing, id: nat, lookup: Lookup, today: Calendar.Date)
    requires Safe(b)
    ensures var t := Sync(b, id, lookup, today).0; Safe(t) && Extends(b, t)
  {
    var t := Sync(b, id, lookup, today).0;
    if t != b {
      var d := LocalOverdue(ApplyBoletoResult(b.charges[id], lookup.result, true), today);
      Touch(b, id, d);
      var s := b.(charges := b.charges[id := d]);
      if t != s {
        Record(s, PaymentEvent(id, None, SyncAmount(b.charges[id], lookup.result)), true);
        ExtendsTransitive(b, s, t);
      }
    }
  }

  lemma OverdueIsSafe(b: Billing, today: Calendar.Date, batch: set<nat>)
    requires Safe(b)
    ensures Safe(MarkOverdue(b, today, batch)) && Extends(b, MarkOverdue(b, today, batch))
  {
    var t := MarkOverdue(b, today, batch);
    assert t.charges.Keys == b.charges.Keys;
    forall id | id in b.charges ensures Follows(b.charges[id], t.charges[id]) {}
  }

  lemma SettleIsSafe(b: Billing, i: nat, id: nat, p: Payload)
    requires Safe(b) && i < |b.inboxes| && id in b.charges && !b.inboxes[i].status.Processed?
    ensures Safe(Settle(b, i, id, p)) && Extends(b, Settle(b, i, id, p))
  {
    var c, t := b.charges[id], Settle(b, i, id, p);
    if IsPayment(p) && (p.amount.None? || p.amount.value != c.amount) {
      TouchInbox(b, i, b.inboxes[i].(status := Rejected));
    } else {
      var d := c.(status := if IsPayment(p) then Paid else LifecycleStatus(c.status, p.hub.value));
      Touch(b, id, d);
      var s := b.(charges := b.charges[id := d]);
      var x := s.inboxes[i].(status := Processed);
      assert !OwnsEvent(b.events, i);
      TouchInbox(s, i, x);
      var u := s.(inboxes := s.inboxes[i := x]);
      ExtendsTransitive(b, s, u);
      if IsPayment(p) && EventCount(b.events, id) == 0 {
        Record(u, PaymentEvent(id, Some(i), c.amount), !c.status.Paid?);
        ExtendsTransitive(b, u, t);
      }
    }
  }

  lemma ProcessIsSafe(b: Billing, i: nat, lookup: Lookup)
    requires Safe(b) && i < |b.inboxes|
    ensures Safe(Process(b, i, lookup)) && Extends(b, Process(b, i, lookup))
  {
    if !b.inboxes[i].status.Processed? {
      var p := b.inboxes[i].payload;
      match FindCharge(b, p)
      case None => TouchInbox(b, i, b.inboxes[i].(status := Rejected));
      case Some(id) =>
        var c := b.charges[id];
        if !NeedsLookup(p, c) {
          SettleIsSafe(b, i, id, p);
        } else if lookup.Unreachable? {
          TouchInbox(b, i, b.inboxes[i].(status := Rejected));
        } else {
          var q := EnrichedPayload(p, c, lookup.result);
          var d := ApplyBoletoResult(c, lookup.result, true);
          Touch(b, id, d);
          var s := b.(charges := b.charges[id := d]);
          TouchInbox(s, i, s.inboxes[i].(payload := q));
          var u := s.(inboxes := s.inboxes[i := s.inboxes[i].(payload := q)]);
          ExtendsTransitive(b, s, u);
          SettleIsSafe(u, i, id, q);
          ExtendsTransitive(b, u, Settle(u, i, id, q));
        }
    }
  }

  lemma NewInboxIsSafe(b: Billing, x: Inbox)
    requires Safe(b)
    ensures Safe(b.(inboxes := b.inboxes + [x])) && Extends(b, b.(inboxes := b.inboxes + [x]))
  {
  }

  lemma IngestIsSafe(b: Billing, provider: string, key: string, payload: Payload, lookup: Lookup)
    requires Safe(b)
    ensures var t := Ingest(b, provider, key, payload, lookup).0; Safe(t) && Extends(b, t)
  {
    if key != "" && FindInbox(b.inboxes, provider, key).None? {
      var s := b.(inboxes := b.inboxes + [Inbox(provider, key, Received, payload)]);
      NewInboxIsSafe(b, Inbox(provider, key, Received, payload));
      ProcessIsSafe(s, |b.inboxes|, lookup);
      ExtendsTransitive(b, s, Process(s, |b.inboxes|, lookup));
    }
  }

  lemma StepIsSafe(b: Billing, step: Step)
    requires Safe(b) && Admissible(step)
    ensures Safe(Apply(b, step)) && Extends(b, Apply(b, step))
  {
    match step
    case CreateStep(r, answers, minimum) => CreateIsSafe(b, r, answers, minimum);
    case EmitStep(id, fallback, answer, minimum) => EmitIsSafe(b, id, fallback, answer, minimum);
    case CancelStep(id, m, g) => CancelIsSafe(b, id, m, g);
    case SyncStep(id, lookup, today) => SyncIsSafe(b, id, lookup, today);
    case IngestStep(provider, key, payload, lookup) => IngestIsSafe(b, provider, key, payload, lookup);
    case OverdueStep(today, batch) => OverdueIsSafe(b, today, batch);
    case ReprocessStep(i, lookup) =>
      if i < |b.inboxes| && !b.inboxes[i].status.Processed? {
        TouchInbox(b, i, b.inboxes[i].(status := Received));
        var s := SetInbox(b, i, Received);
        ProcessIsSafe(s, i, lookup);
        ExtendsTransitive(b, s, Process(s, i, lookup));
      }
  }

  /** Main result, over any interleaving of the seven services: PAID is never left and CANCELLED only
      for PAID, rows keep key, amount and due date, each charge has at most one payment event, an event
      implies PAID, the payment is announced at most as often as it is recorded, and the gateway answers
      at most one registration of each charge. */
  lemma {:induction false} RunIsSafe(b: Billing, steps: seq<Step>)
    requires Safe(b) && forall s :: s in steps ==> Admissible(s)
    ensures Safe(Run(b, steps)) && Extends(b, Run(b, steps))
    decreases |steps|
  {
    if steps != [] {
      StepIsSafe(b, steps[0]);
      RunIsSafe(Apply(b, steps[0]), steps[1..]);
      ExtendsTransitive(b, Apply(b, steps[0]), Run(b, steps));
    }
  }
}
