/** What single billing calls leave behind, read off the rows and the answers they were given. */
module ChargeOutcomes {
  import opened Prelude
  import Calendar
  import Text
  import opened Charges
  import opened ChargeRuns
  import opened ChargeCalls

  // ---- the status after lookups --------------------------------------------------------------------

  predicate Final(s: Status) { s.Paid? || s.Cancelled? }

  predicate Says(lookups: seq<Lookup>, k: nat, s: Status) {
    k < |lookups| && lookups[k].Found? && lookups[k].result.status == Some(s)
  }

  predicate Brings(lookups: seq<Lookup>, k: nat) {
    k < |lookups| && lookups[k].Found? && lookups[k].result.artifacts
  }

  /** The enrichment makes `n` lookups: up to the first that brings the artifacts, and at most `most`. */
  ghost predicate Made(lookups: seq<Lookup>, most: nat, n: nat) {
    && n <= most && n <= |lookups| && (forall k: nat :: k + 1 < n ==> !Brings(lookups, k))
    && (n == most || n == |lookups| || (n > 0 && Brings(lookups, n - 1)))
  }

  ghost predicate SaysFinal(lookups: seq<Lookup>, n: nat) {
    exists k: nat, s :: k < n && Says(lookups, k, s) && Final(s)
  }

  /** `s` is the first final status among the first `n` answers. */
  ghost predicate FirstFinal(lookups: seq<Lookup>, n: nat, s: Status) {
    exists k: nat :: k < n && Says(lookups, k, s) && Final(s) && !SaysFinal(lookups, k)
  }

  /** `s` is the last status among the first `n` answers, or `start` when they name none. */
  ghost predicate LastSaid(start: Status, lookups: seq<Lookup>, n: nat, s: Status) {
    || (s == start && forall k: nat, x :: k < n ==> !Says(lookups, k, x))
    || exists k: nat :: k < n && Says(lookups, k, s) && forall j: nat, x :: k < j < n ==> !Says(lookups, j, x)
  }

  /** The status `n` answers leave of an open one: the first final one they name, or else the last. */
  ghost predicate Leaves(start: Status, lookups: seq<Lookup>, n: nat, s: Status) {
    if SaysFinal(lookups, n) then FirstFinal(lookups, n, s) else LastSaid(start, lookups, n, s)
  }

  lemma LeavesNext(start: Status, lookups: seq<Lookup>, n: nat, s: Status)
    requires n < |lookups| && !Final(start) && Leaves(start, lookups, n, s)
    ensures !Final(s) && lookups[n].Found? && lookups[n].result.status.Some? ==>
        Leaves(start, lookups, n + 1, lookups[n].result.status.value)
    ensures Final(s) || lookups[n].Unreachable? || lookups[n].result.status.None? ==> Leaves(start, lookups, n + 1, s)
  {
    assert Final(s) <==> SaysFinal(lookups, n);
    if SaysFinal(lookups, n) {
      assert FirstFinal(lookups, n + 1, s);
    } else if lookups[n].Found? && lookups[n].result.status.Some? {
      var x := lookups[n].result.status.value;
      assert Says(lookups, n, x);
      assert Final(x) <==> SaysFinal(lookups, n + 1);
    } else {
      assert !SaysFinal(lookups, n + 1);
    }
  }

  /** The row after one more lookup. */
  function Next(c: Charge, l: Lookup): Charge {
    match l
    case Unreachable => c
    case Found(r) => ApplyBoletoResult(c, r, true)
  }

  lemma EnrichNext(c: Charge, all: seq<Lookup>, i: nat, attempts: nat)
    requires i < |all| && !c.artifacts && attempts > 0
    ensures Brings(all, i) <==> Next(c, all[i]).artifacts
    ensures Enrich(c, all[i..], attempts) ==
      if Brings(all, i) then Next(c, all[i]) else Enrich(Next(c, all[i]), all[i + 1..], attempts - 1)
  {
    assert all[i..][1..] == all[i + 1..];
  }

  lemma NextLeaves(start: Status, c: Charge, all: seq<Lookup>, i: nat)
    requires i < |all| && !Final(start) && Leaves(start, all, i, c.status)
    ensures Leaves(start, all, i + 1, Next(c, all[i]).status)
  {
    LeavesNext(start, all, i, c.status);
  }

  lemma {:induction false} EnrichLeaves(start: Status, c: Charge, all: seq<Lookup>, i: nat, attempts: nat)
    returns (n: nat)
    requires i <= |all| && !Final(start) && !c.artifacts && Leaves(start, all, i, c.status)
    requires forall k: nat :: k < i ==> !Brings(all, k)
    ensures Made(all, i + attempts, n) && Leaves(start, all, n, Enrich(c, all[i..], attempts).status)
    decreases attempts
  {
    if attempts == 0 || i == |all| {
      n := i;
    } else {
      EnrichNext(c, all, i, attempts);
      NextLeaves(start, c, all, i);
      if Brings(all, i) {
        n := i + 1;
      } else {
        n := EnrichLeaves(start, Next(c, all[i]), all, i + 1, attempts - 1);
      }
    }
  }

  /** The status of a charge the gateway has just registered: REGISTERED when the artifacts are there, and
      otherwise what at most three lookups leave of it. */
  ghost predicate StatusOnceRegistered(artifacts: bool, answer: RegisterAnswer, s: Status)
    requires answer.Accepted?
  {
    if artifacts || answer.result.artifacts then s.Registered?
    else exists n: nat :: Made(answer.lookups, 3, n) && Leaves(Registered, answer.lookups, n, s)
  }

  /** Enrichment changes status and artifacts, and a control number that is missing. */
  lemma {:induction false} EnrichKeepsRow(c: Charge, lookups: seq<Lookup>, attempts: nat)
    ensures var d := Enrich(c, lookups, attempts);
      && d == c.(status := d.status, artifacts := d.artifacts, seuNumero := d.seuNumero)
      && (c.seuNumero != "" ==> d.seuNumero == c.seuNumero)
    decreases attempts
  {
    if attempts > 0 && lookups != [] {
      var d := if lookups[0].Found? then ApplyBoletoResult(c, lookups[0].result, true) else c;
      EnrichKeepsRow(d, lookups[1..], attempts - 1);
    }
  }

  /** A registered row: the gateway's reference, that status, and a control number kept when there is one. */
  lemma RegisteredRow(c: Charge, answer: RegisterAnswer)
    requires answer.Accepted?
    ensures var d := RegisteredCharge(c, answer);
      && d == c.(gatewayRef := answer.ref, status := d.status, artifacts := d.artifacts, seuNumero := d.seuNumero)
      && (c.seuNumero != "" ==> d.seuNumero == c.seuNumero)
      && StatusOnceRegistered(c.artifacts, answer, d.status)
  {
    var d := ApplyBoletoResult(c.(gatewayRef := answer.ref, status := Registered), answer.result, false);
    EnrichKeepsRow(d, answer.lookups, ENRICH_ATTEMPTS);
    if !d.artifacts {
      assert answer.lookups[0..] == answer.lookups;
      var n := EnrichLeaves(Registered, d, answer.lookups, 0, ENRICH_ATTEMPTS);
    }
  }

  /** The emission of a stored charge: what it refuses, what a lost answer leaves, and the row it registers. */
  lemma EmitOutcome(b: Billing, id: nat, fallback: string, answer: RegisterAnswer, minimum: Calendar.Date)
    ensures var (t, res) := Emit(b, id, fallback, answer, minimum);
      && (id !in b.charges ==> res == Err(ChargeMissing) && t == b)
      && (id in b.charges ==>
            var c := b.charges[id];
            if c.gatewayRef != "" then res == Ok([id]) && t == b
            else if (!c.status.Pending? && !c.status.Failed?) || c.amount < 250 || !Calendar.Leq(minimum, c.due) then
              res == Err(InvalidInput) && t == b
            else match answer
              case Refused => res == Err(GatewayRefused) && t == b
              case Lost =>
                && res == Err(GatewayRefused)
                && t == b.(registrations := b.registrations + [Registration(id, c.key, false)])
              case Accepted(ref, _, _) =>
                && res == Ok([id]) && id in t.charges
                && var d := t.charges[id];
                   && t == b.(charges := b.charges[id := d], outbox := b.outbox + [ChargeRegistered(id)],
                              registrations := b.registrations + [Registration(id, c.key, true)])
                   && d == c.(gatewayRef := ref, status := d.status, artifacts := d.artifacts, seuNumero := d.seuNumero)
                   && StatusOnceRegistered(c.artifacts, answer, d.status)
                   && (c.seuNumero != "" ==> d.seuNumero == c.seuNumero)
                   && (c.seuNumero == "" && fallback != "" ==> d.seuNumero == fallback))
  {
    EmitShape(b, id, fallback, answer, minimum);
    if id in b.charges && answer.Accepted? {
      RegisteredRow(EmitRow(b.charges[id], fallback), answer);
      assert b.charges[id := EmitRow(b.charges[id], fallback)][id := RegisteredCharge(EmitRow(b.charges[id], fallback),
          answer)] == b.charges[id := RegisteredCharge(EmitRow(b.charges[id], fallback), answer)];
    }
  }

  // ---- the row after one lookup --------------------------------------------------------------------

  /** The status an answer leaves: PAID and CANCELLED stay, and an answer without status changes none. */
  function StatusAnswered(c: Charge, r: GatewayResult): Status {
    if c.status == Paid || c.status == Cancelled || r.status == None then c.status else r.status.value
  }

  /** The row that a lookup's answer leaves with status `s`: artifacts are never lost, and a missing control
      number is the first fifteen characters of the gateway's. */
  ghost predicate RowAnswered(c: Charge, r: GatewayResult, s: Status, d: Charge) {
    && d == c.(status := s, artifacts := c.artifacts || r.artifacts, seuNumero := d.seuNumero)
    && var given := Text.Strip(r.seuNumero);
       d.seuNumero == if c.seuNumero != "" then c.seuNumero else if |given| <= 15 then given else given[..15]
  }

  lemma {:induction false} NoEventIff(events: seq<PaymentEvent>, id: nat)
    ensures EventCount(events, id) == 0 <==> forall e :: e in events ==> e.charge != id
  {
    if events != [] {
      NoEventIff(events[..|events| - 1], id);
      assert events == events[..|events| - 1] + [events[|events| - 1]];
    }
  }

  /** The amount a sync records: the one received, or else the one charged, when not zero; or the charge's own. */
  function AmountToRecord(c: Charge, r: GatewayResult): int {
    if r.received != None && r.received != Some(0) then r.received.value
    else if r.amount != None && r.amount != Some(0) then r.amount.value
    else c.amount
  }

  /** A sync leaves the status of the answer, or OVERDUE for an open one that is past due. It records and
      announces a payment exactly when that status is PAID and the charge has no event, of that amount; a
      payment of nothing is refused. */
  lemma SyncOutcome(b: Billing, id: nat, lookup: Lookup, today: Calendar.Date)
    ensures var (t, res) := Sync(b, id, lookup, today);
      && (id !in b.charges || b.charges[id].gatewayRef == "" ==> res == Err(ChargeMissing))
      && (res.Err? ==> t == b)
      && (id in b.charges && b.charges[id].gatewayRef != "" ==>
            match lookup
            case Unreachable => res == Err(GatewayRefused)
            case Found(r) =>
              var c, said := b.charges[id], StatusAnswered(b.charges[id], r);
              var open := said == Pending || said == Registered;
              var left := if open && !Calendar.Leq(today, c.due) then Overdue else said;
              var records := left == Paid && forall e :: e in b.events ==> e.charge != id;
              && res == (if records && AmountToRecord(c, r) <= 0 then Err(ConstraintViolation) else Ok(id))
              && (res.Ok? ==>
                    && OnlyRow(b, t, id) && RowAnswered(c, r, left, t.charges[id])
                    && t.events == b.events + (if records then [PaymentEvent(id, None, AmountToRecord(c, r))] else [])
                    && t.outbox == b.outbox + (if records then [ChargePaid(id)] else [])))
  {
    NoEventIff(b.events, id);
  }

  // ---- webhooks ------------------------------------------------------------------------------------

  lemma {:induction false} FirstWhereIsLeast(charges: map<nat, Charge>, bound: nat, p: Charge -> bool)
    ensures var r := FirstWhere(charges, bound, p);
      r.Some? ==> forall id :: id in charges && id < r.value ==> !p(charges[id])
  {
    if bound > 0 { FirstWhereIsLeast(charges, bound - 1, p); }
  }

  /** The first charge with the reference. */
  ghost predicate FirstByReference(b: Billing, ref: string, id: nat) {
    && id in b.charges && b.charges[id].gatewayRef == ref
    && forall x :: x in b.charges && b.charges[x].gatewayRef == ref ==> id <= x
  }

  /** The first charge with the control number. */
  ghost predicate FirstByControl(b: Billing, text: string, id: nat) {
    && id in b.charges && b.charges[id].seuNumero == text
    && forall x :: x in b.charges && b.charges[x].seuNumero == text ==> id <= x
  }

  /** The callback is about charge `id`: by the gateway's reference when some charge has it, or else by the
      charge's id or control number. */
  ghost predicate IsAbout(b: Billing, p: Payload, id: nat) {
    if p.gatewayRef != "" && exists x :: x in b.charges && b.charges[x].gatewayRef == p.gatewayRef
    then FirstByReference(b, p.gatewayRef, id)
    else match p.externalRef
      case NoRef => false
      case ChargeId(x) => x == id && id in b.charges
      case ControlCode(text) => FirstByControl(b, text, id)
  }

  lemma FindChargeIff(b: Billing, p: Payload, id: nat)
    requires forall x :: x in b.charges ==> x < b.nextId
    ensures FindCharge(b, p) == Some(id) <==> IsAbout(b, p, id)
  {
    FirstWhereIsLeast(b.charges, b.nextId, (c: Charge) => c.gatewayRef == p.gatewayRef);
    if p.externalRef.ControlCode? {
      FirstWhereIsLeast(b.charges, b.nextId, (c: Charge) => c.seuNumero == p.externalRef.text);
    }
  }

  /** The callback asks the gateway before it is applied. */
  predicate Asks(p: Payload, c: Charge) { p.needsEnrich && (c.gatewayRef != "" || p.gatewayRef != "") }

  /** The payload once the gateway has answered: its own amount, received or charged, even zero, or else the
      charge's; its situation when it names one; the reference of the charge when it has one. */
  ghost predicate PayloadAnswered(p: Payload, c: Charge, r: GatewayResult, q: Payload) {
    && !q.needsEnrich && q.externalRef == p.externalRef
    && q.gatewayRef == (if c.gatewayRef == "" then p.gatewayRef else c.gatewayRef)
    && q.amount == (match r.received case Some(a) => Some(a)
                    case None => match r.amount case Some(a) => Some(a) case None => Some(c.amount))
    && q.hub == (match r.hub case Some(h) => Some(h) case None => p.hub)
  }

  /** Applying payload `q` to the row `c` of charge `id`: another situation than PAID moves an open status and
      is done; a payment of another amount is refused; a payment of the charge's amount leaves it PAID, is
      recorded unless it was before, and announced unless it was PAID. */
  ghost predicate IsApplied(b: Billing, t: Billing, i: nat, id: nat, c: Charge, q: Payload)
    requires i < |b.inboxes|
  {
    var moves := q.hub != None && q.hub != Some(Paid);
    var pays := !moves && q.amount == Some(c.amount);
    var known := (exists e :: e in b.events && e.charge == id) || exists e :: e in b.events && e.inbox == Some(i);
    var status := if pays then Paid else if moves && c.status != Paid && c.status != Cancelled then q.hub.value
      else c.status;
    && t.charges == b.charges[id := c.(status := status)] && t.nextId == b.nextId
    && t.registrations == b.registrations
    && t.inboxes == b.inboxes[i := Inbox(b.inboxes[i].provider, b.inboxes[i].key,
                                         if moves || pays then Processed else Charges.InboxStatus.Rejected, q)]
    && t.events == b.events + (if pays && !known then [PaymentEvent(id, Some(i), c.amount)] else [])
    && t.outbox == b.outbox + (if pays && c.status != Paid then [ChargePaid(id)] else [])
  }

  lemma SettleOutcome(b: Billing, i: nat, id: nat, q: Payload)
    requires i < |b.inboxes| && id in b.charges && b.inboxes[i].payload == q
    ensures IsApplied(b, Settle(b, i, id, q), i, id, b.charges[id], q)
  {
    NoEventIff(b.events, id);
    assert b.charges[id := b.charges[id]] == b.charges;
  }

  /** What a callback that is not processed yet leaves, with and without a lookup of its own. */
  lemma CallbackOutcome(b: Billing, i: nat, lookup: Lookup, id: nat)
    requires i < |b.inboxes| && !b.inboxes[i].status.Processed? && FindCharge(b, b.inboxes[i].payload) == Some(id)
    ensures id in b.charges
    ensures var t, c, p := Process(b, i, lookup), b.charges[id], b.inboxes[i].payload;
      if !Asks(p, c) then IsApplied(b, t, i, id, c, p)
      else match lookup
        case Unreachable =>
          t == b.(inboxes := b.inboxes[i := b.inboxes[i].(status := Charges.InboxStatus.Rejected)])
        case Found(r) => exists d, q ::
          && RowAnswered(c, r, StatusAnswered(c, r), d) && PayloadAnswered(p, c, r, q)
          && IsApplied(b, t, i, id, d, q)
  {
    var c, p := b.charges[id], b.inboxes[i].payload;
    if !Asks(p, c) {
      SettleOutcome(b, i, id, p);
    } else if lookup.Found? {
      LookedUpOutcome(b, i, lookup.result, id);
    }
  }

  lemma LookedUpOutcome(b: Billing, i: nat, r: GatewayResult, id: nat)
    requires i < |b.inboxes| && !b.inboxes[i].status.Processed? && FindCharge(b, b.inboxes[i].payload) == Some(id)
    requires id in b.charges && Asks(b.inboxes[i].payload, b.charges[id])
    ensures exists d, q ::
      && RowAnswered(b.charges[id], r, StatusAnswered(b.charges[id], r), d)
      && PayloadAnswered(b.inboxes[i].payload, b.charges[id], r, q)
      && IsApplied(b, Process(b, i, Found(r)), i, id, d, q)
  {
    var c, p := b.charges[id], b.inboxes[i].payload;
    var d, q := ApplyBoletoResult(c, r, true), EnrichedPayload(p, c, r);
    var s := b.(charges := b.charges[id := d], inboxes := b.inboxes[i := b.inboxes[i].(payload := q)]);
    SettleOutcome(s, i, id, q);
    var t := Settle(s, i, id, q);
    assert Process(b, i, Found(r)) == t;
    assert t.charges == b.charges[id := t.charges[id]];
    assert IsApplied(b, t, i, id, d, q);
  }

  /** A callback about no charge is refused, and one processed before is left alone. */
  lemma IdleCallback(b: Billing, i: nat, lookup: Lookup)
    requires i < |b.inboxes|
    ensures b.inboxes[i].status.Processed? ==> Process(b, i, lookup) == b && Reprocess(b, i, lookup) == b
    ensures !b.inboxes[i].status.Processed? && FindCharge(b, b.inboxes[i].payload).None? ==>
        Process(b, i, lookup) == b.(inboxes := b.inboxes[i := b.inboxes[i].(status := Charges.InboxStatus.Rejected)])
  {
  }

  /** A new callback is stored as received and processed; a known one answers its row and changes nothing. */
  lemma IngestOutcome(b: Billing, provider: string, key: string, payload: Payload, lookup: Lookup)
    ensures var (t, res) := Ingest(b, provider, key, payload, lookup);
      if key == "" then res == Err(ChargeMissing) && t == b
      else if exists x :: x in b.inboxes && x.provider == provider && x.key == key then
        && t == b && res.Ok? && res.value < |b.inboxes|
        && b.inboxes[res.value].provider == provider && b.inboxes[res.value].key == key
      else
        && res == Ok(|b.inboxes|)
        && t == Process(b.(inboxes := b.inboxes + [Inbox(provider, key, Received, payload)]), |b.inboxes|, lookup)
  {
  }

  /** A callback that failed is processed again from the payload it holds. */
  lemma ReprocessOutcome(b: Billing, i: nat, lookup: Lookup)
    requires i < |b.inboxes| && !b.inboxes[i].status.Processed?
    ensures Reprocess(b, i, lookup) ==
      Process(b.(inboxes := b.inboxes[i := b.inboxes[i].(status := Received)]), i, lookup)
  {
  }

  // ---- creating under a key there is -----------------------------------------------------------------

  lemma {:induction false} MembersIff(charges: map<nat, Charge>, bound: nat, group: nat)
    ensures var ids := GroupMembers(charges, bound, group);
      && (forall x :: x in ids <==> x < bound && x in charges && charges[x].group == Some(group))
      && (forall i, j :: 0 <= i < j < |ids| ==> ids[i] < ids[j])
  {
    if bound > 0 {
      MembersIff(charges, bound - 1, group);
      var before := GroupMembers(charges, bound - 1, group);
      assert forall i :: 0 <= i < |before| ==> before[i] in before;
    }
  }

  /** `ids` lists the charges of the group, in order. */
  ghost predicate IsGroup(b: Billing, group: nat, ids: seq<nat>) {
    && (forall x :: x in ids <==> x in b.charges && b.charges[x].group == Some(group))
    && (forall i, j :: 0 <= i < j < |ids| ==> ids[i] < ids[j])
  }

  /** A creation under the key of a charge: the group of one the gateway knows, the emission of one it does not
      know, and otherwise the charge as it is. */
  lemma StoredKeyOutcome(b: Billing, r: Request, answers: seq<RegisterAnswer>, minimum: Calendar.Date, id: nat)
    requires Calendar.Representable(r.due) && (r.end.Some? ==> Calendar.Representable(r.end.value))
    requires RowsOk(b.charges, b.nextId) && id in b.charges && b.charges[id].key == r.key
    ensures var ((t, res), c) := (Create(b, r, answers, minimum), b.charges[id]);
      if c.gatewayRef == "" && (c.status.Pending? || c.status.Failed?) then
        (t, res) == Emit(b, id, r.generated, if answers == [] then Refused else answers[0], minimum)
      else
        && t == b && res.Ok?
        && if c.gatewayRef != "" && c.group.Some? then IsGroup(b, c.group.value, res.value) else res.value == [id]
  {
    assert FindKey(b, r.key) == Some(id);
    if b.charges[id].group.Some? { MembersIff(b.charges, b.nextId, b.charges[id].group.value); }
  }

  /** Each step of a run is one of the service calls; a callback that is not stored cannot be processed again. */
  lemma StepIsCall(b: Billing, step: Step)
    requires Admissible(step)
    ensures var t := Apply(b, step);
      match step
      case CreateStep(r, answers, minimum) => t == Create(b, r, answers, minimum).0
      case EmitStep(id, fallback, answer, minimum) => t == Emit(b, id, fallback, answer, minimum).0
      case CancelStep(id, motiveKnown, gatewayAccepts) => t == Cancel(b, id, motiveKnown, gatewayAccepts).0
      case SyncStep(id, lookup, today) => t == Sync(b, id, lookup, today).0
      case IngestStep(provider, key, payload, lookup) => t == Ingest(b, provider, key, payload, lookup).0
      case ReprocessStep(i, lookup) => t == if i < |b.inboxes| then Reprocess(b, i, lookup) else b
      case OverdueStep(today, batch) => t == MarkOverdue(b, today, batch)
  {
  }
}
