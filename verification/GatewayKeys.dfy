/** Which idempotency keys the gateway sees, and how often. */
module GatewayKeys {
  import opened Prelude
  import Calendar
  import opened Charges
  import opened ChargeRuns
  import Plan
  import opened PlanReach

  // ---- the keys a step registers ------------------------------------------------------------------

  function EmittedKey(b: Billing, id: nat, answer: RegisterAnswer, minimum: Calendar.Date): seq<string> {
    if Emittable(b, id, minimum) && !answer.Refused? then [b.charges[id].key] else []
  }

  function KeysOf(parts: seq<Charge>): seq<string> { seq(|parts|, i requires 0 <= i < |parts| => parts[i].key) }

  /** The keys the gateway registers in a step, read off the rows before it and its arguments. */
  ghost function NewKeys(b: Billing, step: Step): seq<string> {
    match step
    case CreateStep(r, answers, minimum) =>
      if NewPlan(b, r, minimum) then
        KeysOf(PlannedParts(b, r, minimum)[..Arrived(b, PlannedParts(b, r, minimum), answers)])
      else if Taken(b, r.key) then EmittedKey(b, FindKey(b, r.key).value, FirstAnswer(answers), minimum)
      else []
    case EmitStep(id, _, answer, minimum) => EmittedKey(b, id, answer, minimum)
    case _ => []
  }

  ghost predicate KeysLogged(b: Billing, t: Billing, keys: seq<string>) {
    && b.registrations <= t.registrations && |t.registrations| == |b.registrations| + |keys|
    && forall i: nat :: i < |keys| ==> t.registrations[|b.registrations| + i].key == keys[i]
  }

  lemma EmitLogs(b: Billing, id: nat, fallback: string, answer: RegisterAnswer, minimum: Calendar.Date)
    ensures KeysLogged(b, Emit(b, id, fallback, answer, minimum).0, EmittedKey(b, id, answer, minimum))
    ensures Emit(b, id, fallback, answer, minimum).0.charges.Keys == b.charges.Keys
    ensures Emit(b, id, fallback, answer, minimum).0.nextId == b.nextId
    ensures Emittable(b, id, minimum) && !answer.Refused? ==>
      Emit(b, id, fallback, answer, minimum).0.registrations
      == b.registrations + [Registration(id, b.charges[id].key, answer.Accepted?)]
  {
    if Emittable(b, id, minimum) && answer.Accepted? {
      StoredKey(b.(charges := b.charges[id := EmitRow(b.charges[id], fallback)]), id, answer);
    }
  }

  lemma LoggedKeys(b: Billing, t: Billing, parts: seq<Charge>, n: nat, m: nat)
    requires m <= |parts| && Logged(b, t, parts, n, m)
    ensures KeysLogged(b, t, KeysOf(parts[..m]))
  {
  }

  lemma CreateLogs(b: Billing, r: Request, answers: seq<RegisterAnswer>, minimum: Calendar.Date)
    requires IdsUsed(b) && Admissible(CreateStep(r, answers, minimum))
    ensures KeysLogged(b, Create(b, r, answers, minimum).0, NewKeys(b, CreateStep(r, answers, minimum)))
  {
    PlanShape(r);
    if NewPlan(b, r, minimum) {
      PlanReaches(b, r, answers, minimum);
      var parts := PlannedParts(b, r, minimum);
      LoggedKeys(b, Create(b, r, answers, minimum).0, parts, Reached(b, parts, answers), Arrived(b, parts, answers));
    } else if Taken(b, r.key) {
      EmitLogs(b, FindKey(b, r.key).value, r.generated, FirstAnswer(answers), minimum);
    }
  }

  lemma SameLog(b: Billing, step: Step)
    requires Admissible(step) && !step.CreateStep? && !step.EmitStep?
    ensures Apply(b, step).registrations == b.registrations && Apply(b, step).nextId == b.nextId
    ensures Apply(b, step).charges.Keys == b.charges.Keys
  {
    match step
    case CancelStep(_, _, _) =>
    case SyncStep(_, _, _) =>
    case OverdueStep(_, _) =>
    case IngestStep(provider, key, payload, lookup) =>
      ProcessKeepsLog(b.(inboxes := b.inboxes + [Inbox(provider, key, Received, payload)]), |b.inboxes|, lookup);
    case ReprocessStep(i, lookup) =>
      if i < |b.inboxes| { ProcessKeepsLog(SetInbox(b, i, Received), i, lookup); }
  }

  lemma ProcessKeepsLog(b: Billing, i: nat, lookup: Lookup)
    requires i < |b.inboxes|
    ensures var t := Process(b, i, lookup);
      t.registrations == b.registrations && t.nextId == b.nextId && t.charges.Keys == b.charges.Keys
  {
  }

  /** Those keys are what the gateway's log gains. */
  lemma StepLogsNewKeys(b: Billing, step: Step)
    requires IdsUsed(b) && Admissible(step)
    ensures KeysLogged(b, Apply(b, step), NewKeys(b, step))
  {
    match step
    case CreateStep(r, answers, minimum) => CreateLogs(b, r, answers, minimum);
    case EmitStep(id, fallback, answer, minimum) => EmitLogs(b, id, fallback, answer, minimum);
    case _ => SameLog(b, step);
  }

  // ---- creations that fail midway -----------------------------------------------------------------

  ghost predicate AllRowsPresent(b: Billing) { forall r :: r in b.registrations ==> r.id in b.charges }

  /** The creation of a new plan raises after the gateway has registered something. */
  ghost predicate FailsMidway(b: Billing, step: Step)
    requires Admissible(step)
  {
    step.CreateStep? && !Taken(b, step.request.key) && Create(b, step.request, step.answers, step.minimum).1.Err?
    && |Apply(b, step).registrations| > |b.registrations|
  }

  /** Some part finds its key taken, or gets no answer. */
  ghost predicate SomePartFails(b: Billing, key: string, parts: nat, answers: seq<RegisterAnswer>) {
    exists k: nat :: k < parts && (!AnswerAt(answers, k).Accepted? || Taken(b, Plan.PartKey(key, k + 1)))
  }

  lemma StopsIff(b: Billing, parts: seq<Charge>, answers: seq<RegisterAnswer>, key: string)
    requires forall i: nat :: i < |parts| ==> parts[i].key == Plan.PartKey(key, i + 1)
    ensures Reached(b, parts, answers) < |parts| <==> SomePartFails(b, key, |parts|, answers)
  {
    ReachedIff(b, parts, answers);
    var n := Reached(b, parts, answers);
    if n < |parts| {
      assert parts[n].key == Plan.PartKey(key, n + 1);
      assert !AnswerAt(answers, n).Accepted? || Taken(b, Plan.PartKey(key, n + 1));
    } else {
      forall k: nat | k < |parts| ensures AnswerAt(answers, k).Accepted? && !Taken(b, Plan.PartKey(key, k + 1)) {
        assert parts[k].key == Plan.PartKey(key, k + 1);
      }
    }
  }

  /** It does so exactly when the request passes every check, the gateway receives the first part, and some
      part gets no answer or finds its key taken. */
  lemma FailsMidwayIff(b: Billing, r: Request, answers: seq<RegisterAnswer>, minimum: Calendar.Date)
    requires IdsUsed(b) && Admissible(CreateStep(r, answers, minimum))
    ensures FailsMidway(b, CreateStep(r, answers, minimum)) <==>
      && NewPlan(b, r, minimum) && !FirstAnswer(answers).Refused?
      && SomePartFails(b, r.key, |PlanOf(r).value.amounts|, answers)
  {
    PlanShape(r);
    if NewPlan(b, r, minimum) {
      var parts := PlannedParts(b, r, minimum);
      PlanReaches(b, r, answers, minimum);
      StopsIff(b, parts, answers, r.key);
      ArrivedFree(b, parts, answers);
      assert parts[0].key == r.key;
    }
  }

  lemma CreateKeepsPresenceIff(b: Billing, r: Request, answers: seq<RegisterAnswer>, minimum: Calendar.Date)
    requires Safe(b) && AllRowsPresent(b) && Admissible(CreateStep(r, answers, minimum))
    ensures AllRowsPresent(Create(b, r, answers, minimum).0) <==> !FailsMidway(b, CreateStep(r, answers, minimum))
  {
    PlanShape(r);
    var t := Create(b, r, answers, minimum).0;
    if NewPlan(b, r, minimum) {
      var parts := PlannedParts(b, r, minimum);
      PlanReaches(b, r, answers, minimum);
      PresenceIff(b, t, parts, answers, Reached(b, parts, answers), Arrived(b, parts, answers));
    } else if Taken(b, r.key) {
      EmitKeepsPresence(b, FindKey(b, r.key).value, r.generated, FirstAnswer(answers), minimum);
    }
  }

  lemma PresenceIff(b: Billing, t: Billing, parts: seq<Charge>, answers: seq<RegisterAnswer>, n: nat, m: nat)
    requires IdsUsed(b) && AllRowsPresent(b) && n <= m <= |parts| && Logged(b, t, parts, n, m)
    ensures t.charges == b.charges ==> (AllRowsPresent(t) <==> m == 0)
    ensures n == m && RowsAdded(b, t, parts, answers, n) ==> AllRowsPresent(t)
  {
    forall i | 0 <= i < |t.registrations|
      ensures i < |b.registrations| ==> t.registrations[i].id in b.charges
      ensures n == m && RowsAdded(b, t, parts, answers, n) ==> t.registrations[i].id in t.charges
    {
      if i < |b.registrations| {
        assert t.registrations[i] == b.registrations[i] && b.registrations[i] in b.registrations;
      } else {
        var k: nat := i - |b.registrations|;
        assert t.registrations[|b.registrations| + k] == Registration(b.nextId + k, parts[k].key, k < n);
        assert n == m && RowsAdded(b, t, parts, answers, n) ==> PartStored(t, b.nextId, parts, answers, b.nextId + k);
      }
    }
    if m > 0 {
      assert t.registrations[|b.registrations| + 0] == Registration(b.nextId, parts[0].key, 0 < n);
      assert t.registrations[|b.registrations|] in t.registrations;
    }
  }

  lemma EmitKeepsPresence(b: Billing, id: nat, fallback: string, answer: RegisterAnswer, minimum: Calendar.Date)
    requires AllRowsPresent(b)
    ensures AllRowsPresent(Emit(b, id, fallback, answer, minimum).0)
  {
    EmitLogs(b, id, fallback, answer, minimum);
    if !Emittable(b, id, minimum) || answer.Refused? { EmitShape(b, id, fallback, answer, minimum); }
  }

  /** A registered row vanishes exactly in such a creation. */
  lemma VanishesIff(b: Billing, step: Step)
    requires Safe(b) && AllRowsPresent(b) && Admissible(step)
    ensures AllRowsPresent(Apply(b, step)) <==> !FailsMidway(b, step)
  {
    match step
    case CreateStep(r, answers, minimum) => CreateKeepsPresenceIff(b, r, answers, minimum);
    case EmitStep(id, fallback, answer, minimum) => EmitKeepsPresence(b, id, fallback, answer, minimum);
    case _ => SameLog(b, step);
  }

  // ---- when a key repeats -------------------------------------------------------------------------

  ghost predicate DistinctKeys(log: seq<Registration>) {
    forall i, j :: 0 <= i < j < |log| ==> log[i].key != log[j].key
  }

  /** The gateway registered the key, and the service does not know: the row is no longer stored, or the
      answer was lost. */
  ghost predicate Forgotten(b: Billing, key: string) {
    exists r :: r in b.registrations && r.key == key && (r.id !in b.charges || !r.answered)
  }

  ghost predicate ReusesForgotten(b: Billing, step: Step) {
    exists key :: key in NewKeys(b, step) && Forgotten(b, key)
  }

  /** Every registered row is stored and every registration was answered. */
  ghost predicate AllKnown(b: Billing) { AllRowsPresent(b) && forall r :: r in b.registrations ==> r.answered }

  /** Then the gateway saw each idempotency key at most once. */
  lemma KeysRegisteredOnce(b: Billing, i: nat, j: nat)
    requires Safe(b) && AllKnown(b) && i < j < |b.registrations|
    ensures b.registrations[i].key != b.registrations[j].key
  {
    assert b.registrations[i] in b.registrations && b.registrations[j] in b.registrations;
  }

  /** A key a step registers belongs to no stored row the gateway has answered for. */
  lemma NewKeyIsUnanswered(b: Billing, step: Step, key: string, x: Registration)
    requires Safe(b) && Admissible(step) && key in NewKeys(b, step) && x in b.registrations && x.key == key
    ensures x.id !in b.charges || !x.answered
  {
    TakenIff(b, key);
    match step
    case CreateStep(r, answers, minimum) =>
      if NewPlan(b, r, minimum) {
        var parts := PlannedParts(b, r, minimum);
        ArrivedFree(b, parts, answers);
        var k: nat :| k < Arrived(b, parts, answers) && parts[k].key == key;
        assert !Taken(b, parts[k].key);
      }
    case EmitStep(_, _, _, _) =>
    case _ =>
  }

  lemma NewKeysDiffer(b: Billing, step: Step)
    requires Admissible(step)
    ensures forall i, j :: 0 <= i < j < |NewKeys(b, step)| ==> NewKeys(b, step)[i] != NewKeys(b, step)[j]
  {
    if step.CreateStep? && NewPlan(b, step.request, step.minimum) {
      PlannedPartsDiffer(b, step.request, step.minimum);
    }
  }

  ghost predicate NoneLogged(log: seq<Registration>, keys: seq<string>) {
    forall i, k :: 0 <= i < |log| && 0 <= k < |keys| ==> log[i].key != keys[k]
  }

  lemma LogStaysDistinct(b: Billing, t: Billing, keys: seq<string>)
    requires KeysLogged(b, t, keys) && DistinctKeys(b.registrations)
    requires forall i, j :: 0 <= i < j < |keys| ==> keys[i] != keys[j]
    requires NoneLogged(b.registrations, keys)
    ensures DistinctKeys(t.registrations)
  {
    var n := |b.registrations|;
    forall i, j | 0 <= i < j < |t.registrations| ensures t.registrations[i].key != t.registrations[j].key {
      if i >= n {
        var a: nat := i - n;
        assert t.registrations[n + a].key == keys[a];
      }
      if j >= n {
        var c: nat := j - n;
        assert t.registrations[n + c].key == keys[c];
      }
    }
  }

  lemma LogRepeats(b: Billing, t: Billing, keys: seq<string>, i: nat, k: nat)
    requires KeysLogged(b, t, keys) && i < |b.registrations| && k < |keys| && b.registrations[i].key == keys[k]
    ensures !DistinctKeys(t.registrations)
    ensures exists x, y :: 0 <= x < y < |t.registrations| && t.registrations[x].key == t.registrations[y].key == keys[k]
  {
    assert t.registrations[|b.registrations| + k].key == keys[k];
    assert t.registrations[i] == b.registrations[i];
  }

  lemma ReuseIsLogged(b: Billing, step: Step)
    requires Safe(b) && Admissible(step)
    ensures NoneLogged(b.registrations, NewKeys(b, step)) <==> !ReusesForgotten(b, step)
  {
    var keys := NewKeys(b, step);
    if !NoneLogged(b.registrations, keys) {
      var i, k :| 0 <= i < |b.registrations| && 0 <= k < |keys| && b.registrations[i].key == keys[k];
      assert b.registrations[i] in b.registrations && keys[k] in keys;
      NewKeyIsUnanswered(b, step, keys[k], b.registrations[i]);
      assert Forgotten(b, keys[k]);
    }
  }

  /** A step repeats a key exactly when it registers one whose registered row has vanished, or one whose
      answer was lost. */
  lemma StepRepeatsIff(b: Billing, step: Step)
    requires Safe(b) && Admissible(step) && DistinctKeys(b.registrations)
    ensures DistinctKeys(Apply(b, step).registrations) <==> !ReusesForgotten(b, step)
  {
    StepLogsNewKeys(b, step);
    NewKeysDiffer(b, step);
    ReuseIsLogged(b, step);
    var keys := NewKeys(b, step);
    if ReusesForgotten(b, step) {
      var i: nat, k: nat :| i < |b.registrations| && k < |keys| && b.registrations[i].key == keys[k];
      LogRepeats(b, Apply(b, step), keys, i, k);
    } else {
      LogStaysDistinct(b, Apply(b, step), keys);
    }
  }

  ghost predicate NeverReuses(b: Billing, steps: seq<Step>)
    requires forall s :: s in steps ==> Admissible(s)
    decreases |steps|
  {
    steps == [] || (!ReusesForgotten(b, steps[0]) && NeverReuses(Apply(b, steps[0]), steps[1..]))
  }

  lemma {:induction false} LogGrowsOverRuns(b: Billing, steps: seq<Step>)
    requires Safe(b) && forall s :: s in steps ==> Admissible(s)
    ensures b.registrations <= Run(b, steps).registrations
    decreases |steps|
  {
    if steps != [] {
      StepLogsNewKeys(b, steps[0]);
      StepIsSafe(b, steps[0]);
      LogGrowsOverRuns(Apply(b, steps[0]), steps[1..]);
    }
  }

  /** Main result, over every run: the gateway sees each idempotency key at most once if and only if no step
      registers a key it has forgotten. */
  lemma {:induction false} KeysDistinctIff(b: Billing, steps: seq<Step>)
    requires Safe(b) && DistinctKeys(b.registrations) && forall s :: s in steps ==> Admissible(s)
    ensures DistinctKeys(Run(b, steps).registrations) <==> NeverReuses(b, steps)
    decreases |steps|
  {
    if steps != [] {
      var t := Apply(b, steps[0]);
      StepRepeatsIff(b, steps[0]);
      StepIsSafe(b, steps[0]);
      if ReusesForgotten(b, steps[0]) {
        LogGrowsOverRuns(t, steps[1..]);
        PrefixRepeats(t.registrations, Run(b, steps).registrations);
      } else {
        KeysDistinctIff(t, steps[1..]);
      }
    }
  }

  lemma PrefixRepeats(log: seq<Registration>, longer: seq<Registration>)
    requires log <= longer && !DistinctKeys(log)
    ensures !DistinctKeys(longer)
  {
    var i, j :| 0 <= i < j < |log| && log[i].key == log[j].key;
    assert longer[i] == log[i] && longer[j] == log[j];
  }

  // ---- what makes a key forgotten -------------------------------------------------------------------

  ghost predicate LosesAnswer(b: Billing, id: nat, answer: RegisterAnswer, minimum: Calendar.Date) {
    Emittable(b, id, minimum) && answer.Lost?
  }

  /** The emission of a stored row is received and its answer lost. */
  ghost predicate EmissionLost(b: Billing, step: Step) {
    match step
    case CreateStep(r, answers, minimum) =>
      Taken(b, r.key) && LosesAnswer(b, FindKey(b, r.key).value, FirstAnswer(answers), minimum)
    case EmitStep(id, _, answer, minimum) => LosesAnswer(b, id, answer, minimum)
    case _ => false
  }

  lemma EmitKnownIff(b: Billing, id: nat, fallback: string, answer: RegisterAnswer, minimum: Calendar.Date)
    requires AllKnown(b)
    ensures AllKnown(Emit(b, id, fallback, answer, minimum).0) <==> !LosesAnswer(b, id, answer, minimum)
  {
    EmitKeepsPresence(b, id, fallback, answer, minimum);
    EmitLogs(b, id, fallback, answer, minimum);
    var t := Emit(b, id, fallback, answer, minimum).0;
    if Emittable(b, id, minimum) && !answer.Refused? {
      var x := Registration(id, b.charges[id].key, answer.Accepted?);
      assert t.registrations == b.registrations + [x] && x in t.registrations;
    } else {
      EmitShape(b, id, fallback, answer, minimum);
    }
  }

  lemma PlanKnown(b: Billing, r: Request, answers: seq<RegisterAnswer>, minimum: Calendar.Date)
    requires IdsUsed(b) && AllKnown(b) && NewPlan(b, r, minimum) && AllRowsPresent(Create(b, r, answers, minimum).0)
    ensures AllKnown(Create(b, r, answers, minimum).0)
  {
    PlanReaches(b, r, answers, minimum);
    var t, parts := Create(b, r, answers, minimum).0, PlannedParts(b, r, minimum);
    PresenceIff(b, t, parts, answers, Reached(b, parts, answers), Arrived(b, parts, answers));
    AllAnswered(b, t, parts, Reached(b, parts, answers), Arrived(b, parts, answers));
  }

  lemma AllAnswered(b: Billing, t: Billing, parts: seq<Charge>, n: nat, m: nat)
    requires AllKnown(b) && m <= |parts| && (m == 0 || n == m) && Logged(b, t, parts, n, m)
    ensures forall x :: x in t.registrations ==> x.answered
  {
    forall i | 0 <= i < |t.registrations| ensures t.registrations[i].answered {
      if i < |b.registrations| {
        assert t.registrations[i] == b.registrations[i] && b.registrations[i] in b.registrations;
      } else {
        var k: nat := i - |b.registrations|;
        assert t.registrations[|b.registrations| + k] == Registration(b.nextId + k, parts[k].key, k < n);
      }
    }
  }

  /** The service stops knowing what the gateway registered exactly in a creation that fails midway and in an
      emission whose answer is lost. */
  lemma KnownIff(b: Billing, step: Step)
    requires Safe(b) && AllKnown(b) && Admissible(step)
    ensures AllKnown(Apply(b, step)) <==> !FailsMidway(b, step) && !EmissionLost(b, step)
  {
    VanishesIff(b, step);
    match step
    case CreateStep(r, answers, minimum) =>
      PlanShape(r);
      if NewPlan(b, r, minimum) {
        if !FailsMidway(b, step) { PlanKnown(b, r, answers, minimum); }
      } else if Taken(b, r.key) {
        EmitKnownIff(b, FindKey(b, r.key).value, r.generated, FirstAnswer(answers), minimum);
      }
    case EmitStep(id, fallback, answer, minimum) => EmitKnownIff(b, id, fallback, answer, minimum);
    case _ => SameLog(b, step);
  }

  ghost predicate NeverForgets(b: Billing, steps: seq<Step>)
    requires forall s :: s in steps ==> Admissible(s)
    decreases |steps|
  {
    steps == []
    || (!FailsMidway(b, steps[0]) && !EmissionLost(b, steps[0]) && NeverForgets(Apply(b, steps[0]), steps[1..]))
  }

  /** So over every run without them the gateway sees each key at most once. */
  lemma {:induction false} KeysStayDistinct(b: Billing, steps: seq<Step>)
    requires Safe(b) && AllKnown(b) && (forall s :: s in steps ==> Admissible(s)) && NeverForgets(b, steps)
    ensures DistinctKeys(Run(b, steps).registrations)
    decreases |steps|
  {
    if steps == [] {
      forall i, j | 0 <= i < j < |b.registrations| ensures b.registrations[i].key != b.registrations[j].key {
        KeysRegisteredOnce(b, i, j);
      }
    } else {
      StepIsSafe(b, steps[0]);
      KnownIff(b, steps[0]);
      KeysStayDistinct(Apply(b, steps[0]), steps[1..]);
    }
  }

  // ---- retries ------------------------------------------------------------------------------------

  lemma StepKeepsIdFree(b: Billing, step: Step, id: nat)
    requires Safe(b) && Admissible(step) && id < b.nextId && id !in b.charges
    ensures id !in Apply(b, step).charges
  {
    match step
    case CreateStep(r, answers, minimum) =>
      PlanShape(r);
      if NewPlan(b, r, minimum) {
        PlanReaches(b, r, answers, minimum);
      } else if Taken(b, r.key) {
        EmitLogs(b, FindKey(b, r.key).value, r.generated, FirstAnswer(answers), minimum);
      }
    case EmitStep(x, fallback, answer, minimum) => EmitLogs(b, x, fallback, answer, minimum);
    case _ => SameLog(b, step);
  }

  /** A forgotten key stays forgotten: a vanished id is not used again, and a lost answer never arrives. */
  lemma {:induction false} ForgottenStays(b: Billing, steps: seq<Step>, key: string)
    requires Safe(b) && Forgotten(b, key) && forall s :: s in steps ==> Admissible(s)
    ensures Forgotten(Run(b, steps), key)
    decreases |steps|
  {
    if steps != [] {
      var x :| x in b.registrations && x.key == key && (x.id !in b.charges || !x.answered);
      var t := Apply(b, steps[0]);
      if x.id !in b.charges { StepKeepsIdFree(b, steps[0], x.id); }
      StepLogsNewKeys(b, steps[0]);
      assert x in t.registrations;
      StepIsSafe(b, steps[0]);
      ForgottenStays(t, steps[1..], key);
    }
  }

  /** After a key is forgotten and any run, the next step that registers it makes the gateway register it
      twice. */
  lemma ForgottenKeyRepeats(b: Billing, key: string, steps: seq<Step>, retry: Step)
    requires Safe(b) && Forgotten(b, key) && (forall s :: s in steps ==> Admissible(s)) && Admissible(retry)
    requires key in NewKeys(Run(b, steps), retry)
    ensures var u := Apply(Run(b, steps), retry);
      exists i, j :: 0 <= i < j < |u.registrations| && u.registrations[i].key == u.registrations[j].key == key
  {
    ForgottenStays(b, steps, key);
    RunIsSafe(b, steps);
    var t := Run(b, steps);
    StepLogsNewKeys(t, retry);
    var x :| x in t.registrations && x.key == key && (x.id !in t.charges || !x.answered);
    var i: nat :| i < |t.registrations| && t.registrations[i] == x;
    var k: nat :| k < |NewKeys(t, retry)| && NewKeys(t, retry)[k] == key;
    LogRepeats(t, Apply(t, retry), NewKeys(t, retry), i, k);
  }

  /** A creation that fails midway forgets its key and leaves it free; an accepted request registers it again. */
  lemma MidwayForgets(b: Billing, r: Request, answers: seq<RegisterAnswer>, minimum: Calendar.Date)
    requires Safe(b) && Admissible(CreateStep(r, answers, minimum)) && FailsMidway(b, CreateStep(r, answers, minimum))
    ensures var t := Create(b, r, answers, minimum).0; t.charges == b.charges && !Taken(t, r.key) && Forgotten(t, r.key)
  {
    FailsMidwayIff(b, r, answers, minimum);
    var t, parts := Create(b, r, answers, minimum).0, PlannedParts(b, r, minimum);
    PlanReaches(b, r, answers, minimum);
    ArrivedFree(b, parts, answers);
    assert parts[0].key == r.key;
    var x := t.registrations[|b.registrations| + 0];
    assert x.id == b.nextId && x.key == r.key && x in t.registrations;
    StepIsSafe(b, CreateStep(r, answers, minimum));
    TakenIff(b, r.key);
    TakenIff(t, r.key);
  }

  lemma PlanRegistersKey(b: Billing, r: Request, answers: seq<RegisterAnswer>, minimum: Calendar.Date)
    requires NewPlan(b, r, minimum) && !FirstAnswer(answers).Refused?
    ensures r.key in NewKeys(b, CreateStep(r, answers, minimum))
  {
    var parts := PlannedParts(b, r, minimum);
    ArrivedFree(b, parts, answers);
    assert parts[0].key == r.key;
    assert KeysOf(parts[..Arrived(b, parts, answers)])[0] == r.key;
  }

  /** Every creation that fails midway makes any later request under its key that the gateway receives, after
      any run, register the key a second time. */
  lemma RetryRegistersTwice(b: Billing, r: Request, answers: seq<RegisterAnswer>, minimum: Calendar.Date,
                            steps: seq<Step>, again: Request, retry: seq<RegisterAnswer>, later: Calendar.Date)
    requires Safe(b) && Admissible(CreateStep(r, answers, minimum)) && FailsMidway(b, CreateStep(r, answers, minimum))
    requires forall s :: s in steps ==> Admissible(s)
    requires NewPlan(Run(Create(b, r, answers, minimum).0, steps), again, later) && again.key == r.key
    requires !FirstAnswer(retry).Refused? && Admissible(CreateStep(again, retry, later))
    ensures var u := Create(Run(Create(b, r, answers, minimum).0, steps), again, retry, later).0;
      exists i, j :: 0 <= i < j < |u.registrations| && u.registrations[i].key == u.registrations[j].key == r.key
  {
    MidwayForgets(b, r, answers, minimum);
    StepIsSafe(b, CreateStep(r, answers, minimum));
    var t := Create(b, r, answers, minimum).0;
    PlanRegistersKey(Run(t, steps), again, retry, later);
    ForgottenKeyRepeats(t, r.key, steps, CreateStep(again, retry, later));
  }

  /** An emission whose answer is lost forgets the key and leaves the row as it was: emitting it again
      registers it a second time, with every row in place. */
  lemma LostEmissionForgets(b: Billing, id: nat, fallback: string, minimum: Calendar.Date)
    requires Emittable(b, id, minimum)
    ensures var t := Emit(b, id, fallback, Lost, minimum).0;
      && t.charges == b.charges && Emittable(t, id, minimum) && Forgotten(t, b.charges[id].key)
      && forall again: RegisterAnswer ::
           NewKeys(t, EmitStep(id, fallback, again, minimum)) == (if again.Refused? then [] else [b.charges[id].key])
  {
    EmitShape(b, id, fallback, Lost, minimum);
    var t := Emit(b, id, fallback, Lost, minimum).0;
    assert t == LogLost(b, id);
    assert Registration(id, b.charges[id].key, false) in t.registrations;
  }

  // ---- replays ------------------------------------------------------------------------------------

  /** Once a key's row carries a gateway reference, creating with that key is a no-op that succeeds,
      after any run and whatever the rest of the request says. */
  lemma ReplayIsNoOp(b: Billing, id: nat, steps: seq<Step>, r: Request, answers: seq<RegisterAnswer>,
      minimum: Calendar.Date)
    requires Safe(b) && id in b.charges && b.charges[id].gatewayRef != "" && b.charges[id].key == r.key
    requires (forall s :: s in steps ==> Admissible(s)) && Admissible(CreateStep(r, answers, minimum))
    ensures var t := Run(b, steps); Create(t, r, answers, minimum).0 == t && Create(t, r, answers, minimum).1.Ok?
  {
    RunIsSafe(b, steps);
    var t := Run(b, steps);
    assert Follows(b.charges[id], t.charges[id]);
    assert FindKey(t, r.key) == Some(id);
  }
}
