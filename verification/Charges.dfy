/** Charges, webhook inboxes, payment events and outbox messages of one tenant, as values, with one
    function per atomic service call: apps/billing/services.py. A raise rolls the rows back; what the
    gateway has registered stays registered. */
module Charges {
  import opened Prelude
  import Calendar
  import Plan
  import Text

  datatype Status = Pending | Registered | Paid | Overdue | Cancelled | Failed

  datatype Charge = Charge(
    key: string, status: Status, amount: int, due: Calendar.Date, seuNumero: string,
    gatewayRef: string, artifacts: bool, group: Option<nat>)

  datatype ExternalRef = NoRef | ChargeId(id: nat) | ControlCode(text: string)
  datatype Payload = Payload(
    gatewayRef: string, externalRef: ExternalRef, amount: Option<int>, hub: Option<Status>, needsEnrich: bool)

  datatype InboxStatus = Received | Processing | Processed | Rejected
  datatype Inbox = Inbox(provider: string, key: string, status: InboxStatus, payload: Payload)

  datatype PaymentEvent = PaymentEvent(charge: nat, inbox: Option<nat>, amount: int)
  datatype Message = ChargeRegistered(id: nat) | ChargePaid(id: nat) | ChargeCancelled(id: nat)
  datatype Registration = Registration(id: nat, key: string, answered: bool)

  /** `nextId` never returns to a used id; `registrations` is the gateway's own record, with a mark on those
      whose answer the service received. */
  datatype Billing = Billing(
    charges: map<nat, Charge>, nextId: nat, inboxes: seq<Inbox>, events: seq<PaymentEvent>,
    outbox: seq<Message>, registrations: seq<Registration>)

  /** What the gateway answers to a lookup; `hub` is the mapped situation, when it has one. */
  datatype GatewayResult = GatewayResult(
    status: Option<Status>, artifacts: bool, seuNumero: string, hub: Option<Status>,
    received: Option<int>, amount: Option<int>)
  datatype Lookup = Unreachable | Found(result: GatewayResult)

  /** The gateway registers nothing and the call raises; or it registers the charge but no usable answer
      arrives, so the call raises all the same; or it answers. */
  datatype RegisterAnswer = Refused | Lost | Accepted(ref: string, result: GatewayResult, lookups: seq<Lookup>)

  datatype BillingError =
    | InvalidInput | PlanRefused(plan: Plan.PlanError) | ControlRefused(control: Plan.ControlError)
    | GatewayRefused | DuplicateKey | ChargeMissing | IncompatibleStatus | ConstraintViolation

  // ---- lookups ------------------------------------------------------------------------------

  function FirstWhere(charges: map<nat, Charge>, bound: nat, p: Charge -> bool): (r: Option<nat>)
    ensures r.Some? ==> r.value in charges && r.value < bound && p(charges[r.value])
    ensures r.None? ==> forall id :: id in charges && id < bound ==> !p(charges[id])
  {
    if bound == 0 then None else
      match FirstWhere(charges, bound - 1, p)
      case Some(id) => Some(id)
      case None => if bound - 1 in charges && p(charges[bound - 1]) then Some(bound - 1) else None
  }

  function FindKey(b: Billing, key: string): Option<nat> {
    FirstWhere(b.charges, b.nextId, (c: Charge) => c.key == key)
  }

  function GroupMembers(charges: map<nat, Charge>, bound: nat, group: nat): seq<nat> {
    if bound == 0 then [] else
      GroupMembers(charges, bound - 1, group)
      + if bound - 1 in charges && charges[bound - 1].group == Some(group) then [bound - 1] else []
  }

  function FindCharge(b: Billing, p: Payload): Option<nat> {
    var byRef := if p.gatewayRef == "" then None
                 else FirstWhere(b.charges, b.nextId, (c: Charge) => c.gatewayRef == p.gatewayRef);
    if byRef.Some? then byRef else
      match p.externalRef
      case NoRef => None
      case ChargeId(id) => if id in b.charges then Some(id) else None
      case ControlCode(text) => FirstWhere(b.charges, b.nextId, (c: Charge) => c.seuNumero == text)
  }

  function EventCount(events: seq<PaymentEvent>, id: nat): nat {
    if events == [] then 0
    else EventCount(events[..|events| - 1], id) + if events[|events| - 1].charge == id then 1 else 0
  }

  predicate OwnsEvent(events: seq<PaymentEvent>, inbox: nat) {
    exists e :: e in events && e.inbox == Some(inbox)
  }

  // ---- status and artifacts -----------------------------------------------------------------

  /** PAID is never overwritten and CANCELLED only by itself. */
  function MergeStatus(current: Status, next: Option<Status>): Status {
    if next.None? || current.Paid? || current.Cancelled? then current else next.value
  }

  function ApplyBoletoResult(c: Charge, r: GatewayResult, includeStatus: bool): Charge {
    c.(artifacts := c.artifacts || r.artifacts,
       seuNumero := if c.seuNumero == "" then Plan.Take(Text.Strip(r.seuNumero), 15) else c.seuNumero,
       status := if includeStatus then MergeStatus(c.status, r.status) else c.status)
  }

  predicate PastDue(c: Charge, today: Calendar.Date) {
    c.status in {Pending, Registered} && !Calendar.Leq(today, c.due)
  }

  function LocalOverdue(c: Charge, today: Calendar.Date): Charge {
    if PastDue(c, today) then c.(status := Overdue) else c
  }

  /** Up to `attempts` lookups after registering, until the boleto artifacts arrive. */
  function Enrich(c: Charge, lookups: seq<Lookup>, attempts: nat): Charge
    decreases attempts
  {
    if attempts == 0 || lookups == [] then c
    else match lookups[0]
      case Unreachable => Enrich(c, lookups[1..], attempts - 1)
      case Found(r) =>
        var d := ApplyBoletoResult(c, r, true);
        if d.artifacts then d else Enrich(d, lookups[1..], attempts - 1)
  }

  const ENRICH_ATTEMPTS: nat := 3

  function RegisteredCharge(c: Charge, answer: RegisterAnswer): Charge
    requires answer.Accepted?
  {
    var d := ApplyBoletoResult(c.(gatewayRef := answer.ref, status := Registered), answer.result, false);
    if d.artifacts then d else Enrich(d, answer.lookups, ENRICH_ATTEMPTS)
  }

  function RegisterOne(b: Billing, id: nat, answer: RegisterAnswer): (Billing, bool)
    requires id in b.charges
  {
    match answer
    case Refused => (b, false)
    case Lost => (LogLost(b, id), false)
    case Accepted(_, _, _) => (StoreRegistered(b, id, RegisteredCharge(b.charges[id], answer)), true)
  }

  /** The gateway has the charge, the service does not know it. */
  function LogLost(b: Billing, id: nat): Billing
    requires id in b.charges
  {
    b.(registrations := b.registrations + [Registration(id, b.charges[id].key, false)])
  }

  function StoreRegistered(b: Billing, id: nat, c: Charge): Billing {
    b.(charges := b.charges[id := c],
       outbox := b.outbox + [ChargeRegistered(id)],
       registrations := b.registrations + [Registration(id, c.key, true)])
  }

  // ---- create and emit ------------------------------------------------------------------------

  datatype Request = Request(
    key: string, amount: int, due: Calendar.Date, kind: Plan.Kind, installments: Option<int>,
    end: Option<Calendar.Date>, seuNumero: Option<string>, generated: string)

  function EmitRow(c: Charge, fallback: string): Charge {
    c.(status := Pending, seuNumero := if c.seuNumero == "" then fallback else c.seuNumero)
  }

  function Emit(b: Billing, id: nat, fallback: string, answer: RegisterAnswer, minimum: Calendar.Date)
    : (Billing, Result<seq<nat>, BillingError>)
  {
    if id !in b.charges then (b, Err(ChargeMissing))
    else
      var c := b.charges[id];
      if c.gatewayRef != "" then (b, Ok([id]))
      else if c.status !in {Pending, Failed} then (b, Err(InvalidInput))
      else if c.amount < Plan.CHARGE_MIN_AMOUNT_CENTS || !Calendar.Leq(minimum, c.due) then (b, Err(InvalidInput))
      else
        var (t, done) := RegisterOne(b.(charges := b.charges[id := EmitRow(c, fallback)]), id, answer);
        if done then (t, Ok([id])) else (RollBack(b, t), Err(GatewayRefused))
  }

  function PartCharge(r: Request, plan: Plan.Schedule, control: string, index: nat, group: nat): Charge
    requires 1 <= index <= |plan.amounts| == |plan.dues| <= Plan.RECURRING_MAX
  {
    var total := |plan.amounts|;
    Charge(Plan.PartKey(r.key, index), Pending, plan.amounts[index - 1], plan.dues[index - 1],
           if total == 1 then control else Plan.ControlNumber(control, index, total), "", false,
           if total > 1 then Some(group) else None)
  }

  /** The rows of a plan, in order. */
  function Parts(r: Request, plan: Plan.Schedule, control: string, group: nat): seq<Charge>
    requires |plan.amounts| == |plan.dues| <= Plan.RECURRING_MAX
  {
    seq(|plan.amounts|, i requires 0 <= i < |plan.amounts| => PartCharge(r, plan, control, i + 1, group))
  }

  function FirstAnswer(answers: seq<RegisterAnswer>): RegisterAnswer {
    if answers == [] then Refused else answers[0]
  }

  function OtherAnswers(answers: seq<RegisterAnswer>): seq<RegisterAnswer> {
    if answers == [] then [] else answers[1..]
  }

  function Insert(b: Billing, c: Charge): Billing {
    b.(charges := b.charges[b.nextId := c], nextId := b.nextId + 1)
  }

  /** Inserts and registers the parts one by one, stopping at the first failure. */
  function AddParts(b: Billing, parts: seq<Charge>, answers: seq<RegisterAnswer>): (Billing, Option<BillingError>)
    decreases |parts|
  {
    if parts == [] then (b, None)
    else if FindKey(b, parts[0].key).Some? then (b, Some(DuplicateKey))
    else
      var (t, done) := RegisterOne(Insert(b, parts[0]), b.nextId, FirstAnswer(answers));
      if !done then (t, Some(GatewayRefused))
      else AddParts(t, parts[1..], OtherAnswers(answers))
  }

  /** Rows go back to `b`; used ids and the gateway's registrations do not. */
  function RollBack(b: Billing, t: Billing): Billing {
    b.(nextId := t.nextId, registrations := t.registrations)
  }

  function Control(r: Request): Result<string, Plan.ControlError> {
    match r.seuNumero
    case None => Ok(r.generated)
    case Some(text) => Plan.NormalizeSeuNumero(text)
  }

  function Consecutive(first: nat, count: nat): seq<nat> {
    seq(count, i requires 0 <= i => first + i)
  }

  /** `plan` is the occurrence plan of the request; the emission of an existing row uses answer 0. */
  function CreateFromPlan(b: Billing, r: Request, plan: Result<Plan.Schedule, Plan.PlanError>,
                          answers: seq<RegisterAnswer>, minimum: Calendar.Date)
    : (Billing, Result<seq<nat>, BillingError>)
    requires plan.Ok? ==> 1 <= |plan.value.amounts| == |plan.value.dues| <= Plan.RECURRING_MAX
  {
    match FindKey(b, r.key)
    case Some(id) =>
      var c := b.charges[id];
      if c.gatewayRef != "" then
        (b, Ok(if c.group.Some? then GroupMembers(b.charges, b.nextId, c.group.value) else [id]))
      else if c.status in {Pending, Failed} then Emit(b, id, r.generated, FirstAnswer(answers), minimum)
      else (b, Ok([id]))
    case None =>
      if r.amount < Plan.CHARGE_MIN_AMOUNT_CENTS || !Calendar.Leq(minimum, r.due) then (b, Err(InvalidInput))
      else if Control(r).Err? then (b, Err(ControlRefused(Control(r).error)))
      else if plan.Err? then (b, Err(PlanRefused(plan.error)))
      else
        var (t, failure) := AddParts(b, Parts(r, plan.value, Control(r).value, b.nextId), answers);
        if failure.Some? then (RollBack(b, t), Err(failure.value))
        else (t, Ok(Consecutive(b.nextId, |plan.value.amounts|)))
  }

  // ---- cancel, sync, overdue --------------------------------------------------------------------

  function Cancel(b: Billing, id: nat, motiveKnown: bool, gatewayAccepts: bool): (Billing, Result<nat, BillingError>) {
    if id !in b.charges then (b, Err(ChargeMissing))
    else
      var c := b.charges[id];
      if c.status == Cancelled then (b, Ok(id))
      else if c.status in {Paid, Failed} then (b, Err(IncompatibleStatus))
      else if !motiveKnown then (b, Err(InvalidInput))
      else if c.gatewayRef != "" && !gatewayAccepts then (b, Err(GatewayRefused))
      else (b.(charges := b.charges[id := c.(status := Cancelled)], outbox := b.outbox + [ChargeCancelled(id)]), Ok(id))
  }

  function Truthy(amount: Option<int>): bool { amount.Some? && amount.value != 0 }

  function SyncAmount(c: Charge, r: GatewayResult): int {
    if Truthy(r.received) then r.received.value else if Truthy(r.amount) then r.amount.value else c.amount
  }

  function Sync(b: Billing, id: nat, lookup: Lookup, today: Calendar.Date): (Billing, Result<nat, BillingError>) {
    if id !in b.charges then (b, Err(ChargeMissing))
    else
      var c := b.charges[id];
      if c.gatewayRef == "" then (b, Err(ChargeMissing))
      else match lookup
        case Unreachable => (b, Err(GatewayRefused))
        case Found(r) =>
          var d := LocalOverdue(ApplyBoletoResult(c, r, true), today);
          var t := b.(charges := b.charges[id := d]);
          if !d.status.Paid? || EventCount(b.events, id) > 0 then (t, Ok(id))
          else if SyncAmount(c, r) <= 0 then (b, Err(ConstraintViolation))
          else (t.(events := t.events + [PaymentEvent(id, None, SyncAmount(c, r))],
                   outbox := t.outbox + [ChargePaid(id)]), Ok(id))
  }

  /** `batch` is what the ordered, limited query picked; rows outside the filter are left alone. */
  function MarkOverdue(b: Billing, today: Calendar.Date, batch: set<nat>): Billing {
    b.(charges := map id | id in b.charges :: if id in batch then LocalOverdue(b.charges[id], today) else b.charges[id])
  }

  // ---- webhooks -----------------------------------------------------------------------------------

  function SetInbox(b: Billing, i: nat, status: InboxStatus): Billing
    requires i < |b.inboxes|
  {
    b.(inboxes := b.inboxes[i := b.inboxes[i].(status := status)])
  }

  function EnrichedPayload(p: Payload, c: Charge, r: GatewayResult): Payload {
    p.(needsEnrich := false,
       gatewayRef := if c.gatewayRef != "" then c.gatewayRef else p.gatewayRef,
       amount := Some(if r.received.Some? then r.received.value
                      else if r.amount.Some? then r.amount.value else c.amount),
       hub := if r.hub.Some? then r.hub else p.hub)
  }

  predicate NeedsLookup(p: Payload, c: Charge) {
    p.needsEnrich && (c.gatewayRef != "" || p.gatewayRef != "")
  }

  predicate IsPayment(p: Payload) { p.hub.None? || p.hub.value.Paid? }

  /** The status a lifecycle callback leaves: never over PAID, over CANCELLED only with CANCELLED. */
  function LifecycleStatus(current: Status, next: Status): Status {
    if current.Paid? || current.Cancelled? then current else next
  }

  /** The charge is known and the payload final: apply the callback. */
  function Settle(b: Billing, i: nat, id: nat, p: Payload): Billing
    requires i < |b.inboxes| && id in b.charges
  {
    var c := b.charges[id];
    if !IsPayment(p) then
      SetInbox(b.(charges := b.charges[id := c.(status := LifecycleStatus(c.status, p.hub.value))]), i, Processed)
    else if p.amount.None? || p.amount.value != c.amount then SetInbox(b, i, Rejected)
    else
      var unpaid := EventCount(b.events, id) == 0 && !OwnsEvent(b.events, i);
      SetInbox(b.(charges := b.charges[id := c.(status := Paid)],
                  events := if unpaid then b.events + [PaymentEvent(id, Some(i), c.amount)] else b.events,
                  outbox := if c.status.Paid? then b.outbox else b.outbox + [ChargePaid(id)]), i, Processed)
  }

  function Process(b: Billing, i: nat, lookup: Lookup): Billing
    requires i < |b.inboxes|
  {
    if b.inboxes[i].status.Processed? then b
    else
      var p := b.inboxes[i].payload;
      match FindCharge(b, p)
      case None => SetInbox(b, i, Rejected)
      case Some(id) =>
        var c := b.charges[id];
        if !NeedsLookup(p, c) then Settle(b, i, id, p)
        else match lookup
          case Unreachable => SetInbox(b, i, Rejected)
          case Found(r) =>
            var q := EnrichedPayload(p, c, r);
            var t := b.(charges := b.charges[id := ApplyBoletoResult(c, r, true)],
                        inboxes := b.inboxes[i := b.inboxes[i].(payload := q)]);
            Settle(t, i, id, q)
  }

  function FindInbox(inboxes: seq<Inbox>, provider: string, key: string): (r: Option<nat>)
    ensures r.Some? ==> r.value < |inboxes| && inboxes[r.value].provider == provider && inboxes[r.value].key == key
    ensures r.None? <==> forall x :: x in inboxes ==> !(x.provider == provider && x.key == key)
  {
    if inboxes == [] then None else
      match FindInbox(inboxes[..|inboxes| - 1], provider, key)
      case Some(i) => Some(i)
      case None =>
        var last := inboxes[|inboxes| - 1];
        if last.provider == provider && last.key == key then Some(|inboxes| - 1) else None
  }

  function Ingest(b: Billing, provider: string, key: string, payload: Payload, lookup: Lookup)
    : (Billing, Result<nat, BillingError>)
  {
    if key == "" then (b, Err(ChargeMissing))
    else match FindInbox(b.inboxes, provider, key)
      case Some(i) => (b, Ok(i))
      case None =>
        (Process(b.(inboxes := b.inboxes + [Inbox(provider, key, Received, payload)]), |b.inboxes|, lookup),
            Ok(|b.inboxes|))
  }

  function Reprocess(b: Billing, i: nat, lookup: Lookup): Billing
    requires i < |b.inboxes|
  {
    if b.inboxes[i].status.Processed? then b else Process(SetInbox(b, i, Received), i, lookup)
  }

  // ---- runs -----------------------------------------------------------------------------------------

  datatype Step =
    | CreateStep(request: Request, answers: seq<RegisterAnswer>, minimum: Calendar.Date)
    | EmitStep(id: nat, fallback: string, answer: RegisterAnswer, minimum: Calendar.Date)
    | CancelStep(id: nat, motiveKnown: bool, gatewayAccepts: bool)
    | SyncStep(id: nat, lookup: Lookup, today: Calendar.Date)
    | IngestStep(provider: string, key: string, payload: Payload, lookup: Lookup)
    | ReprocessStep(inbox: nat, lookup: Lookup)
    | OverdueStep(today: Calendar.Date, batch: set<nat>)

  /** The gateway adapters raise when a registration has no reference; dates are calendar dates. */
  ghost predicate Admissible(step: Step) {
    match step
    case CreateStep(r, answers, _) =>
      && Calendar.Representable(r.due) && (r.end.Some? ==> Calendar.Representable(r.end.value))
      && forall a :: a in answers && a.Accepted? ==> a.ref != ""
    case EmitStep(_, _, answer, _) => answer.Accepted? ==> answer.ref != ""
    case _ => true
  }

  ghost function PlanOf(r: Request): Result<Plan.Schedule, Plan.PlanError> {
    Plan.PlanFor(r.kind, r.due, r.amount, r.installments, r.end)
  }

  ghost function Create(b: Billing, r: Request, answers: seq<RegisterAnswer>, minimum: Calendar.Date)
    : (Billing, Result<seq<nat>, BillingError>)
    requires Calendar.Representable(r.due) && (r.end.Some? ==> Calendar.Representable(r.end.value))
  {
    PlanShape(r);
    CreateFromPlan(b, r, PlanOf(r), answers, minimum)
  }

  lemma PlanShape(r: Request)
    requires Calendar.Representable(r.due) && (r.end.Some? ==> Calendar.Representable(r.end.value))
    ensures PlanOf(r).Ok? ==> 1 <= |PlanOf(r).value.amounts| == |PlanOf(r).value.dues| <= Plan.RECURRING_MAX
  {
    if PlanOf(r).Ok? && !r.kind.Simple? {
      Plan.DueDatesAreMonthly(r.due, |PlanOf(r).value.amounts|);
    }
  }

  ghost function Apply(b: Billing, step: Step): Billing
    requires Admissible(step)
  {
    match step
    case CreateStep(r, answers, minimum) => Create(b, r, answers, minimum).0
    case EmitStep(id, fallback, answer, minimum) => Emit(b, id, fallback, answer, minimum).0
    case CancelStep(id, motiveKnown, gatewayAccepts) => Cancel(b, id, motiveKnown, gatewayAccepts).0
    case SyncStep(id, lookup, today) => Sync(b, id, lookup, today).0
    case IngestStep(provider, key, payload, lookup) => Ingest(b, provider, key, payload, lookup).0
    case ReprocessStep(i, lookup) => if i < |b.inboxes| then Reprocess(b, i, lookup) else b
    case OverdueStep(today, batch) => MarkOverdue(b, today, batch)
  }

  ghost function Run(b: Billing, steps: seq<Step>): Billing
    requires forall s :: s in steps ==> Admissible(s)
    decreases |steps|
  {
    if steps == [] then b else Run(Apply(b, steps[0]), steps[1..])
  }
}
