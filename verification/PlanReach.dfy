/** How far the creation of a plan gets: which parts the gateway receives, answers and leaves stored. */
module PlanReach {
  import opened Prelude
  import Calendar
  import Plan
  import Text
  import opened Charges
  import opened ChargeRuns
  import ChargeOutcomes

  function AnswerAt(answers: seq<RegisterAnswer>, k: nat): RegisterAnswer {
    if k < |answers| then answers[k] else Refused
  }

  predicate Taken(b: Billing, key: string) { FindKey(b, key).Some? }

  ghost predicate IdsUsed(b: Billing) { forall id :: id in b.charges ==> id < b.nextId }

  ghost predicate DistinctParts(parts: seq<Charge>) {
    forall i, j :: 0 <= i < j < |parts| ==> parts[i].key != parts[j].key
  }

  lemma TakenIff(b: Billing, key: string)
    requires IdsUsed(b)
    ensures Taken(b, key) <==> exists id :: id in b.charges && b.charges[id].key == key
  {
  }

  /** How many parts are answered: up to the first key taken before, or answer missing. */
  function Reached(b: Billing, parts: seq<Charge>, answers: seq<RegisterAnswer>): (n: nat)
    ensures n <= |parts|
  {
    if parts == [] || Taken(b, parts[0].key) || !FirstAnswer(answers).Accepted? then 0
    else 1 + Reached(b, parts[1..], OtherAnswers(answers))
  }

  /** How many parts the gateway receives: those, and the next one when its answer is lost. */
  function Arrived(b: Billing, parts: seq<Charge>, answers: seq<RegisterAnswer>): (n: nat)
    ensures Reached(b, parts, answers) <= n <= |parts|
  {
    if parts == [] || Taken(b, parts[0].key) || FirstAnswer(answers).Refused? then 0
    else if FirstAnswer(answers).Lost? then 1
    else 1 + Arrived(b, parts[1..], OtherAnswers(answers))
  }

  lemma RestAt(parts: seq<Charge>, answers: seq<RegisterAnswer>, k: nat)
    requires k > 0
    ensures k < |parts| ==> parts[1..][k - 1] == parts[k]
    ensures AnswerAt(OtherAnswers(answers), k - 1) == AnswerAt(answers, k)
  {
  }

  lemma {:induction false} ReachedIff(b: Billing, parts: seq<Charge>, answers: seq<RegisterAnswer>)
    ensures forall k: nat :: k < Reached(b, parts, answers) ==>
        !Taken(b, parts[k].key) && AnswerAt(answers, k).Accepted?
    ensures var n := Reached(b, parts, answers);
      n < |parts| ==> Taken(b, parts[n].key) || !AnswerAt(answers, n).Accepted?
    decreases |parts|
  {
    if Reached(b, parts, answers) > 0 {
      var rest, others := parts[1..], OtherAnswers(answers);
      ReachedIff(b, rest, others);
      var n := Reached(b, rest, others);
      assert Reached(b, parts, answers) == n + 1;
      forall k: nat | 0 < k <= n + 1
        ensures (k < |parts| ==> rest[k - 1] == parts[k]) && AnswerAt(others, k - 1) == AnswerAt(answers, k)
      {
        RestAt(parts, answers, k);
      }
    }
  }

  lemma {:induction false} SameReached(b: Billing, t: Billing, parts: seq<Charge>, answers: seq<RegisterAnswer>)
    requires forall i :: 0 <= i < |parts| ==> Taken(t, parts[i].key) == Taken(b, parts[i].key)
    ensures Reached(t, parts, answers) == Reached(b, parts, answers)
        && Arrived(t, parts, answers) == Arrived(b, parts, answers)
    decreases |parts|
  {
    if parts != [] {
      assert forall i :: 0 <= i < |parts| - 1 ==> parts[1..][i] == parts[i + 1];
      SameReached(b, t, parts[1..], OtherAnswers(answers));
    }
  }

  /** A part received is free of its key, like the answered ones before it. */
  lemma {:induction false} ArrivedFree(b: Billing, parts: seq<Charge>, answers: seq<RegisterAnswer>)
    ensures forall k: nat :: k < Arrived(b, parts, answers) ==> !Taken(b, parts[k].key)
    ensures Arrived(b, parts, answers) > 0 <==>
      parts != [] && !Taken(b, parts[0].key) && !FirstAnswer(answers).Refused?
    decreases |parts|
  {
    if parts != [] && !Taken(b, parts[0].key) && FirstAnswer(answers).Accepted? {
      ArrivedFree(b, parts[1..], OtherAnswers(answers));
      forall k: nat | 0 < k < Arrived(b, parts, answers) ensures !Taken(b, parts[k].key) {
        RestAt(parts, answers, k);
        var prior: nat := k - 1;
        assert !Taken(b, parts[1..][prior].key);
      }
    }
  }

  lemma StoredKey(b: Billing, id: nat, answer: RegisterAnswer)
    requires id in b.charges && answer.Accepted?
    ensures var t := RegisterOne(b, id, answer).0;
      && t.registrations == b.registrations + [Registration(id, b.charges[id].key, true)]
      && t.nextId == b.nextId && t.charges == b.charges[id := RegisteredCharge(b.charges[id], answer)]
      && t.charges[id].key == b.charges[id].key
  {
    var d := ApplyBoletoResult(b.charges[id].(gatewayRef := answer.ref, status := Registered), answer.result, false);
    EnrichFollows(d, answer.lookups, ENRICH_ATTEMPTS);
  }

  /** One registered part takes its own key and no other. */
  lemma PartTakesKey(b: Billing, c: Charge, answer: RegisterAnswer, key: string)
    requires IdsUsed(b) && answer.Accepted? && key != c.key
    ensures var t := RegisterOne(Insert(b, c), b.nextId, answer).0; IdsUsed(t) && Taken(t, key) == Taken(b, key)
  {
    StoredKey(Insert(b, c), b.nextId, answer);
    var t := RegisterOne(Insert(b, c), b.nextId, answer).0;
    TakenIff(b, key);
    TakenIff(t, key);
    assert forall id :: id in b.charges ==> t.charges[id] == b.charges[id];
  }

  /** The log of a creation: its first `m` parts under consecutive ids, the first `n` of them answered. */
  ghost predicate Logged(b: Billing, t: Billing, parts: seq<Charge>, n: nat, m: nat)
    requires m <= |parts|
  {
    && b.registrations <= t.registrations && |t.registrations| == |b.registrations| + m
    && forall i: nat :: i < m ==>
      t.registrations[|b.registrations| + i] == Registration(b.nextId + i, parts[i].key, i < n)
  }

  /** Row `id` holds its part as the gateway's answer leaves it; the first part has id `first`. */
  predicate PartStored(t: Billing, first: nat, parts: seq<Charge>, answers: seq<RegisterAnswer>, id: nat) {
    && first <= id < first + |parts| && id in t.charges && AnswerAt(answers, id - first).Accepted?
    && t.charges[id] == RegisteredCharge(parts[id - first], AnswerAt(answers, id - first))
  }

  lemma StoredFirst(t: Billing, first: nat, parts: seq<Charge>, answers: seq<RegisterAnswer>, id: nat)
    requires parts != [] && PartStored(t, first + 1, parts[1..], OtherAnswers(answers), id)
    ensures PartStored(t, first, parts, answers, id)
  {
    RestAt(parts, answers, id - first);
  }

  /** Earlier rows are left alone, and the first `n` parts stored as registered. */
  ghost predicate RowsAdded(b: Billing, t: Billing, parts: seq<Charge>, answers: seq<RegisterAnswer>, n: nat)
    requires n <= |parts|
  {
    && b.nextId + n <= t.nextId
    && (forall id :: id in b.charges ==> id in t.charges && t.charges[id] == b.charges[id])
    && (forall id :: id in t.charges && id < b.nextId ==> id in b.charges)
    && (forall id :: b.nextId <= id < b.nextId + n ==> PartStored(t, b.nextId, parts, answers, id))
  }

  lemma LogFirst(b: Billing, s: Billing, t: Billing, parts: seq<Charge>, n: nat, m: nat)
    requires 1 <= n <= m <= |parts| && s.nextId == b.nextId + 1
    requires s.registrations == b.registrations + [Registration(b.nextId, parts[0].key, true)]
    requires Logged(s, t, parts[1..], n - 1, m - 1)
    ensures Logged(b, t, parts, n, m)
  {
    forall i: nat | i < m
      ensures t.registrations[|b.registrations| + i] == Registration(b.nextId + i, parts[i].key, i < n)
    {
      if i > 0 {
        var prior: nat := i - 1;
        assert t.registrations[|s.registrations| + prior]
            == Registration(s.nextId + prior, parts[1..][prior].key, prior < n - 1);
      }
    }
  }

  lemma RowsFirst(b: Billing, s: Billing, t: Billing, parts: seq<Charge>, answers: seq<RegisterAnswer>, n: nat)
    requires 1 <= n <= |parts| && IdsUsed(b) && s.nextId == b.nextId + 1
    requires PartStored(s, b.nextId, parts, answers, b.nextId)
        && s.charges == b.charges[b.nextId := s.charges[b.nextId]]
    requires RowsAdded(s, t, parts[1..], OtherAnswers(answers), n - 1)
    ensures RowsAdded(b, t, parts, answers, n)
  {
    assert t.charges[b.nextId] == s.charges[b.nextId];
    forall id | b.nextId <= id < b.nextId + n ensures PartStored(t, b.nextId, parts, answers, id) {
      if id > b.nextId {
        StoredFirst(t, b.nextId, parts, answers, id);
      }
    }
  }

  lemma RestUntaken(b: Billing, parts: seq<Charge>, answer: RegisterAnswer)
    requires IdsUsed(b) && DistinctParts(parts) && parts != [] && answer.Accepted?
    ensures var s, rest := RegisterOne(Insert(b, parts[0]), b.nextId, answer).0, parts[1..];
      IdsUsed(s) && DistinctParts(rest) && forall i :: 0 <= i < |rest| ==>
          Taken(s, rest[i].key) == Taken(b, rest[i].key)
  {
    var s, rest := RegisterOne(Insert(b, parts[0]), b.nextId, answer).0, parts[1..];
    StoredKey(Insert(b, parts[0]), b.nextId, answer);
    forall i | 0 <= i < |rest| ensures Taken(s, rest[i].key) == Taken(b, rest[i].key) {
      assert rest[i] == parts[i + 1];
      PartTakesKey(b, parts[0], answer, rest[i].key);
    }
  }

  /** What a creation leaves that gets `n` answers and is received `m` times. */
  ghost predicate Reaches(b: Billing, t: Billing, failed: bool, parts: seq<Charge>, answers: seq<RegisterAnswer>,
                          n: nat, m: nat)
  {
    && n <= m <= |parts| && (failed <==> n < |parts|)
    && Logged(b, t, parts, n, m) && RowsAdded(b, t, parts, answers, n)
    && (!failed ==> t.nextId == b.nextId + n && IdsUsed(t))
  }

  lemma ReachesFirst(b: Billing, t: Billing, failed: bool, parts: seq<Charge>, answers: seq<RegisterAnswer>,
      n: nat, m: nat)
    requires IdsUsed(b) && parts != [] && FirstAnswer(answers).Accepted?
    requires Reaches(RegisterOne(Insert(b, parts[0]), b.nextId, FirstAnswer(answers)).0, t, failed, parts[1..],
                     OtherAnswers(answers), n, m)
    ensures Reaches(b, t, failed, parts, answers, n + 1, m + 1)
  {
    var s := RegisterOne(Insert(b, parts[0]), b.nextId, FirstAnswer(answers)).0;
    StoredKey(Insert(b, parts[0]), b.nextId, FirstAnswer(answers));
    assert PartStored(s, b.nextId, parts, answers, b.nextId);
    LogFirst(b, s, t, parts, n + 1, m + 1);
    RowsFirst(b, s, t, parts, answers, n + 1);
  }

  lemma StopsFirst(b: Billing, parts: seq<Charge>, answers: seq<RegisterAnswer>)
    requires IdsUsed(b) && (parts == [] || Taken(b, parts[0].key) || !FirstAnswer(answers).Accepted?)
    ensures var (t, failure) := AddParts(b, parts, answers);
      Reaches(b, t, failure.Some?, parts, answers, 0, Arrived(b, parts, answers))
  {
  }

  lemma {:induction false} ContinuesAfterFirst(b: Billing, parts: seq<Charge>, answers: seq<RegisterAnswer>)
    requires parts != [] && !Taken(b, parts[0].key) && FirstAnswer(answers).Accepted?
    ensures var s := RegisterOne(Insert(b, parts[0]), b.nextId, FirstAnswer(answers)).0;
      AddParts(b, parts, answers) == AddParts(s, parts[1..], OtherAnswers(answers))
    ensures Reached(b, parts, answers) == Reached(b, parts[1..], OtherAnswers(answers)) + 1
    ensures Arrived(b, parts, answers) == Arrived(b, parts[1..], OtherAnswers(answers)) + 1
  {
  }

  /** The parts are registered in order up to the first taken key or missing answer. */
  lemma {:induction false} AddPartsReach(b: Billing, parts: seq<Charge>, answers: seq<RegisterAnswer>)
    requires IdsUsed(b) && DistinctParts(parts)
    ensures var (t, failure) := AddParts(b, parts, answers);
      Reaches(b, t, failure.Some?, parts, answers, Reached(b, parts, answers), Arrived(b, parts, answers))
    decreases |parts|
  {
    if parts == [] || Taken(b, parts[0].key) || !FirstAnswer(answers).Accepted? {
      StopsFirst(b, parts, answers);
    } else {
      var s, rest, others := RegisterOne(Insert(b, parts[0]), b.nextId, FirstAnswer(answers)).0, parts[1..],
          OtherAnswers(answers);
      ContinuesAfterFirst(b, parts, answers);
      RestUntaken(b, parts, FirstAnswer(answers));
      AddPartsReach(s, rest, others);
      SameReached(b, s, rest, others);
      var (t, failure) := AddParts(s, rest, others);
      ReachesFirst(b, t, failure.Some?, parts, answers, Reached(b, rest, others), Arrived(b, rest, others));
    }
  }

  // ---- the requests that create -------------------------------------------------------------------

  /** A request under a free key that passes every check before the first registration. */
  ghost predicate NewPlan(b: Billing, r: Request, minimum: Calendar.Date) {
    && Calendar.Representable(r.due) && (r.end.Some? ==> Calendar.Representable(r.end.value))
    && !Taken(b, r.key) && r.amount >= Plan.CHARGE_MIN_AMOUNT_CENTS && Calendar.Leq(minimum, r.due)
    && Control(r).Ok? && PlanOf(r).Ok?
  }

  ghost function PlannedParts(b: Billing, r: Request, minimum: Calendar.Date): (parts: seq<Charge>)
    requires NewPlan(b, r, minimum)
    ensures |parts| == |PlanOf(r).value.amounts| >= 1
    ensures forall i :: 0 <= i < |parts| ==> parts[i].key == Plan.PartKey(r.key, i + 1)
  {
    PlanShape(r);
    Parts(r, PlanOf(r).value, Control(r).value, b.nextId)
  }

  lemma PartKeysDiffer(parts: seq<Charge>, key: string)
    requires forall i: nat :: i < |parts| ==> parts[i].key == Plan.PartKey(key, i + 1)
    ensures DistinctParts(parts)
  {
    forall i: nat, j: nat | i < j < |parts| ensures parts[i].key != parts[j].key {
      if Plan.PartKey(key, i + 1) == Plan.PartKey(key, j + 1) { Plan.PartKeysAreDistinct(key, i + 1, j + 1); }
    }
  }

  lemma PlannedPartsDiffer(b: Billing, r: Request, minimum: Calendar.Date)
    requires NewPlan(b, r, minimum)
    ensures DistinctParts(PlannedParts(b, r, minimum))
  {
    PartKeysDiffer(PlannedParts(b, r, minimum), r.key);
  }

  lemma NewPlanCreates(b: Billing, r: Request, answers: seq<RegisterAnswer>, minimum: Calendar.Date)
    requires NewPlan(b, r, minimum)
    ensures var (t, failure) := AddParts(b, PlannedParts(b, r, minimum), answers);
      && Create(b, r, answers, minimum).0 == (if failure.Some? then RollBack(b, t) else t)
      && Create(b, r, answers, minimum).1.Err? == failure.Some?
  {
    PlanShape(r);
  }

  predicate Emittable(b: Billing, id: nat, minimum: Calendar.Date) {
    && id in b.charges && b.charges[id].gatewayRef == ""
      && (b.charges[id].status.Pending? || b.charges[id].status.Failed?)
    && b.charges[id].amount >= Plan.CHARGE_MIN_AMOUNT_CENTS && Calendar.Leq(minimum, b.charges[id].due)
  }

  /** A creation of a new plan: all its parts are stored, or none, and the gateway keeps what it received. */
  lemma PlanReaches(b: Billing, r: Request, answers: seq<RegisterAnswer>, minimum: Calendar.Date)
    requires IdsUsed(b) && NewPlan(b, r, minimum)
    ensures var parts := PlannedParts(b, r, minimum);
      var (n, m, (t, res)) := (Reached(b, parts, answers), Arrived(b, parts, answers), Create(b, r, answers, minimum));
      && Logged(b, t, parts, n, m)
      && (res.Err? <==> n < |parts|)
      && if res.Err? then t.charges == b.charges
         else RowsAdded(b, t, parts, answers, n) && t.nextId == b.nextId + n && IdsUsed(t)
  {
    NewPlanCreates(b, r, answers, minimum);
    PlannedPartsDiffer(b, r, minimum);
    AddPartsReach(b, PlannedParts(b, r, minimum), answers);
  }

  // ---- what a stored part owes, and when ----------------------------------------------------------

  /** Part `i` of `n`, spelled out: its own key, amount, month, control number and group. */
  ghost predicate IsPart(r: Request, control: string, amounts: seq<int>, group: nat, i: nat, c: Charge)
    requires i < |amounts| <= Plan.RECURRING_MAX
  {
    var n := |amounts|;
    && c.key == Plan.PartKey(r.key, i + 1) && c.amount == amounts[i] && c.due == Calendar.Shift(r.due, i)
    && c.group == (if n > 1 then Some(group) else None)
    && (n == 1 && control != "" ==> c.seuNumero == control)
    && (n > 1 ==> c.seuNumero == Plan.ControlNumber(control, i + 1, n))
  }

  /** The row has the reference and the status that its own answer gives. */
  ghost predicate IsAnswered(answer: RegisterAnswer, c: Charge) {
    answer.Accepted? && c.gatewayRef == answer.ref && ChargeOutcomes.StatusOnceRegistered(false, answer, c.status)
  }

  lemma PlannedPart(b: Billing, r: Request, minimum: Calendar.Date, i: nat)
    requires NewPlan(b, r, minimum) && i < |PlannedParts(b, r, minimum)|
    ensures |PlanOf(r).value.amounts| <= Plan.RECURRING_MAX
    ensures IsPart(r, Control(r).value, PlanOf(r).value.amounts, b.nextId, i, PlannedParts(b, r, minimum)[i])
    ensures var part, n := PlannedParts(b, r, minimum)[i], |PlanOf(r).value.amounts|;
      !part.artifacts && (part.seuNumero == "" ==> n == 1 && Control(r).value == "")
  {
    PlanShape(r);
    Plan.PlanIsWellFormed(r.kind, r.due, r.amount, r.installments, r.end);
    var n := |PlanOf(r).value.amounts|;
    assert PlanOf(r).value.dues[i] == Calendar.Shift(r.due, i);
    if n > 1 { Plan.ControlNumbersAreDistinct(Control(r).value, i + 1, i + 1, n); }
  }

  lemma PartIsPlanned(r: Request, control: string, amounts: seq<int>, group: nat, i: nat, part: Charge,
                      answer: RegisterAnswer)
    requires i < |amounts| <= Plan.RECURRING_MAX && answer.Accepted?
    requires IsPart(r, control, amounts, group, i, part) && !part.artifacts
    requires part.seuNumero == "" ==> |amounts| == 1 && control == ""
    ensures IsPart(r, control, amounts, group, i, RegisteredCharge(part, answer))
    ensures IsAnswered(answer, RegisteredCharge(part, answer))
  {
    ChargeOutcomes.RegisteredRow(part, answer);
  }

  /** Row `id` is its part as answered, when the first part has id `first`. */
  ghost predicate RowIsPart(t: Billing, r: Request, control: string, amounts: seq<int>, first: nat,
                            answers: seq<RegisterAnswer>, id: nat)
    requires |amounts| <= Plan.RECURRING_MAX
  {
    && id in t.charges && 0 <= id - first < |amounts| && id - first < |answers|
    && IsPart(r, control, amounts, first, id - first, t.charges[id]) && IsAnswered(answers[id - first], t.charges[id])
  }

  /** Part by part under consecutive ids, each as answered; the other rows stay as they are. */
  ghost predicate PlanRows(b: Billing, t: Billing, r: Request, control: string, amounts: seq<int>,
                           answers: seq<RegisterAnswer>)
    requires |amounts| <= Plan.RECURRING_MAX
  {
    && t.nextId == b.nextId + |amounts|
    && (forall id :: id in b.charges ==> id in t.charges && t.charges[id] == b.charges[id])
    && (forall id :: id in t.charges && id !in b.charges ==> b.nextId <= id < t.nextId)
    && (forall id :: b.nextId <= id < t.nextId ==> RowIsPart(t, r, control, amounts, b.nextId, answers, id))
  }

  lemma PlannedRow(b: Billing, t: Billing, r: Request, minimum: Calendar.Date, answers: seq<RegisterAnswer>, id: nat)
    requires NewPlan(b, r, minimum) && PartStored(t, b.nextId, PlannedParts(b, r, minimum), answers, id)
    ensures |PlanOf(r).value.amounts| <= Plan.RECURRING_MAX
    ensures RowIsPart(t, r, Control(r).value, PlanOf(r).value.amounts, b.nextId, answers, id)
  {
    var i := id - b.nextId;
    assert AnswerAt(answers, i).Accepted?;
    PlannedPart(b, r, minimum, i);
    PartIsPlanned(r, Control(r).value, PlanOf(r).value.amounts, b.nextId, i, PlannedParts(b, r, minimum)[i],
                  answers[i]);
  }

  lemma PlannedRows(b: Billing, t: Billing, r: Request, answers: seq<RegisterAnswer>, minimum: Calendar.Date)
    requires NewPlan(b, r, minimum) && IdsUsed(t)
    requires var parts := PlannedParts(b, r, minimum);
      RowsAdded(b, t, parts, answers, |parts|) && t.nextId == b.nextId + |parts|
    ensures |PlanOf(r).value.amounts| <= Plan.RECURRING_MAX
    ensures PlanRows(b, t, r, Control(r).value, PlanOf(r).value.amounts, answers)
  {
    PlanShape(r);
    forall id | b.nextId <= id < t.nextId
      ensures RowIsPart(t, r, Control(r).value, PlanOf(r).value.amounts, b.nextId, answers, id)
    {
      PlannedRow(b, t, r, minimum, answers, id);
    }
  }

  lemma NewPlanAnswer(b: Billing, r: Request, answers: seq<RegisterAnswer>, minimum: Calendar.Date)
    requires NewPlan(b, r, minimum) && Create(b, r, answers, minimum).1.Ok?
    ensures var ids := Create(b, r, answers, minimum).1.value;
      |ids| == |PlanOf(r).value.amounts| && forall i :: 0 <= i < |ids| ==> ids[i] == b.nextId + i
  {
    PlanShape(r);
  }

  lemma GivenControl(r: Request)
    requires Control(r).Ok?
    ensures Control(r).value == if r.seuNumero.Some? then Text.Strip(r.seuNumero.value) else r.generated
  {
  }

  /** The amounts of an instalment plan sum to the amount of the request; any other plan repeats it. */
  ghost predicate AmountsOf(r: Request, amounts: seq<int>) {
    if r.kind.Installment? then Plan.Sum(amounts) == r.amount
    else forall i :: 0 <= i < |amounts| ==> amounts[i] == r.amount
  }

  /** What a successful creation of a new plan answers and leaves, with the control number the request gives,
      trimmed, or else the generated one. */
  lemma PlanIsStored(b: Billing, r: Request, answers: seq<RegisterAnswer>, minimum: Calendar.Date)
    requires IdsUsed(b) && NewPlan(b, r, minimum) && Create(b, r, answers, minimum).1.Ok?
    ensures var amounts := PlanOf(r).value.amounts;
      && 1 <= |amounts| <= Plan.RECURRING_MAX && AmountsOf(r, amounts)
      && PlanRows(b, Create(b, r, answers, minimum).0, r,
                  if r.seuNumero.Some? then Text.Strip(r.seuNumero.value) else r.generated, amounts, answers)
    ensures var ids := Create(b, r, answers, minimum).1.value;
      |ids| == |PlanOf(r).value.amounts| && forall i :: 0 <= i < |ids| ==> ids[i] == b.nextId + i
  {
    var t := Create(b, r, answers, minimum).0;
    PlanReaches(b, r, answers, minimum);
    PlannedRows(b, t, r, answers, minimum);
    NewPlanAnswer(b, r, answers, minimum);
    GivenControl(r);
    PlanAmounts(r);
  }

  lemma PlanAmounts(r: Request)
    requires Calendar.Representable(r.due) && (r.end.Some? ==> Calendar.Representable(r.end.value))
    requires r.amount >= Plan.CHARGE_MIN_AMOUNT_CENTS && PlanOf(r).Ok?
    ensures 1 <= |PlanOf(r).value.amounts| <= Plan.RECURRING_MAX && AmountsOf(r, PlanOf(r).value.amounts)
  {
    Plan.PlanIsWellFormed(r.kind, r.due, r.amount, r.installments, r.end);
  }

  /** Under a free key the request is refused, with nothing changed, exactly for an amount below the minimum, a
      date too early, a control number that is empty or too long, or a plan that does not exist. */
  lemma NewPlanIff(b: Billing, r: Request, answers: seq<RegisterAnswer>, minimum: Calendar.Date)
    requires Calendar.Representable(r.due) && (r.end.Some? ==> Calendar.Representable(r.end.value))
    requires forall id :: id in b.charges ==> b.charges[id].key != r.key
    ensures NewPlan(b, r, minimum) <==>
      && r.amount >= 250 && Calendar.Leq(minimum, r.due) && PlanOf(r).Ok?
      && (r.seuNumero.None? || 1 <= |Text.Strip(r.seuNumero.value)| <= 15)
    ensures !NewPlan(b, r, minimum) ==>
      var (t, res) := Create(b, r, answers, minimum);
      && t == b
      && if r.amount < 250 || !Calendar.Leq(minimum, r.due) then res == Err(InvalidInput)
         else if r.seuNumero.Some? && Text.Strip(r.seuNumero.value) == "" then
           res == Err(ControlRefused(Plan.ControlMissing))
         else if r.seuNumero.Some? && |Text.Strip(r.seuNumero.value)| > 15 then
           res == Err(ControlRefused(Plan.ControlTooLong))
         else PlanOf(r).Err? && res == Err(PlanRefused(PlanOf(r).error))
  {
    PlanShape(r);
    assert FindKey(b, r.key).None?;
  }
}
