/** The NFS-e issue and its state machine, as values: apps/issuance/fsm.py, services.py, polling.py and
    focus_webhook.py. A raise rolls the issue back; a call the provider has received stays received. */
module Issuance {
  import opened Prelude
  import Text

  datatype Status =
    | Draft | PendingTax | Queued | Submitting | Polling | Authorized | Rejected | Cancelled | Failed

  /** The table of allowed edges. */
  predicate Allowed(from: Status, to: Status) {
    match from
    case Draft => to == PendingTax
    case PendingTax => to == Queued || to == Rejected
    case Queued => to == Submitting || to == Failed
    case Submitting => to == Polling || to == Rejected || to == Failed
    case Polling => to == Authorized || to == Rejected || to == Failed
    case Authorized => to == Cancelled
    case Rejected | Failed => to == PendingTax
    case Cancelled => false
  }

  /** The fourteen edges. */
  lemma AllowedIff(from: Status, to: Status)
    ensures Allowed(from, to) <==> (from, to) in {
      (Draft, PendingTax), (PendingTax, Queued), (PendingTax, Rejected), (Queued, Submitting), (Queued, Failed),
      (Submitting, Polling), (Submitting, Rejected), (Submitting, Failed), (Polling, Authorized), (Polling, Rejected),
      (Polling, Failed), (Authorized, Cancelled), (Rejected, PendingTax), (Failed, PendingTax)}
  {
  }

  /** A provider status text in lower case: the words the service knows, in its three groups, or any
      other text. */
  datatype Word =
    | Autorizado | AutorizadoAguardandoGeracaoPdf | AuthorizedWord
    | Cancelado | Cancelada | CancelledWord | NfeCancelada | NfseCancelada
    | ErroAutorizacao | Denied | RejectedWord | Erro
    | Other(text: string)

  predicate SaysAuthorized(w: Word) { w.Autorizado? || w.AutorizadoAguardandoGeracaoPdf? || w.AuthorizedWord? }

  predicate SaysCancelled(w: Word) {
    w.Cancelado? || w.Cancelada? || w.CancelledWord? || w.NfeCancelada? || w.NfseCancelada?
  }

  predicate SaysRejected(w: Word) { w.ErroAutorizacao? || w.Denied? || w.RejectedWord? || w.Erro? }

  datatype Actor = Api | Worker | Provider
  datatype Event = Event(from: Status, to: Status, actor: Actor)
  datatype Message = IssueQueued | IssueAuthorized | IssueCancelled
  datatype RejectionCode = NoCode | TaxRuleNotFound | RtcCode(code: string) | ProviderCode(word: Word)

  /** What makes a webhook delivery known: the reference, the status text and the payload's hash. */
  datatype Delivery = Delivery(ref: string, status: Word, hash: string)

  /** `snapshot` and `params` carry the resolved rule; `inbox` holds the processed deliveries; `emits`
      counts committed emissions and `attempts` every emission call the provider received. */
  datatype Issue = Issue(
    status: Status, focusRef: string, snapshot: Option<nat>, params: Option<nat>, rejection: RejectionCode,
    log: seq<Event>, outbox: seq<Message>, inbox: set<Delivery>, emits: nat, attempts: nat)

  datatype IssueError =
    | InvalidTransition | ProviderRaised | JustificationLength | NotAuthorized | NoFocusRef | CancelUnconfirmed
        | NoReference

  function Transition(i: Issue, to: Status, actor: Actor): Result<Issue, IssueError> {
    if !Allowed(i.status, to) then Err(InvalidTransition)
    else Ok(i.(status := to, log := i.log + [Event(i.status, to, actor)]))
  }

  /** A transition followed by the outbox message that belongs to it. */
  function Announced(r: Result<Issue, IssueError>, m: Message): Result<Issue, IssueError> {
    match r
    case Err(e) => Err(e)
    case Ok(i) => Ok(i.(outbox := i.outbox + [m]))
  }

  // ---- create and reprocess ---------------------------------------------------------------------

  datatype Tax = NoRule | RtcRefused(code: string) | Resolved(rule: nat)

  const DRAFT: Issue := Issue(Draft, "", None, None, NoCode, [], [], {}, 0, 0)

  function ResolveTax(i: Issue, tax: Tax): Result<Issue, IssueError> {
    match tax
    case NoRule => Transition(i.(rejection := TaxRuleNotFound), Rejected, Api)
    case RtcRefused(code) => Transition(i.(rejection := RtcCode(code)), Rejected, Api)
    case Resolved(rule) => Announced(Transition(i.(snapshot := Some(rule), params := Some(rule)), Queued, Api),
        IssueQueued)
  }

  function Create(tax: Tax): Result<Issue, IssueError> {
    match Transition(DRAFT, PendingTax, Api)
    case Err(e) => Err(e)
    case Ok(i) => ResolveTax(i, tax)
  }

  function Reprocess(i: Issue, tax: Tax): Result<Issue, IssueError> {
    match Transition(i, PendingTax, Api)
    case Err(e) => Err(e)
    case Ok(j) => ResolveTax(j.(rejection := NoCode), tax)
  }

  // ---- worker -----------------------------------------------------------------------------------

  /** The provider is not reached, or raises after it was called, or returns. */
  datatype EmitAnswer = NotReached | Raised | Returned(ref: string, authorized: bool)

  function Submitted(i: Issue, ref: string): Result<Issue, IssueError> {
    match Transition(i, Submitting, Worker)
    case Err(e) => Err(e)
    case Ok(j) => Transition(j.(focusRef := ref, emits := j.emits + 1, attempts := j.attempts + 1), Polling, Worker)
  }

  function Process(i: Issue, answer: EmitAnswer): (Issue, Result<(), IssueError>) {
    if i.status != Queued then (i, Ok(()))
    else match answer
      case NotReached => (i, Err(ProviderRaised))
      case Raised => (i.(attempts := i.attempts + 1), Err(ProviderRaised))
      case Returned(ref, authorized) =>
          Commit(i, if authorized then Authorize(Submitted(i, ref)) else Submitted(i, ref))
  }

  function Authorize(r: Result<Issue, IssueError>): Result<Issue, IssueError> {
    match r
    case Err(e) => Err(e)
    case Ok(i) => Announced(Transition(i, Authorized, Provider), IssueAuthorized)
  }

  /** The new issue, or the old one when the service raises. */
  function Commit(i: Issue, r: Result<Issue, IssueError>): (Issue, Result<(), IssueError>) {
    match r
    case Err(e) => (i, Err(e))
    case Ok(j) => (j, Ok(()))
  }

  // ---- cancel and poll ----------------------------------------------------------------------------

  datatype Answer = NoAnswer | Says(status: Word, raw: Word)

  predicate ConfirmsCancel(a: Answer) {
    a.Says? && (SaysCancelled(a.status) || SaysCancelled(a.raw))
  }

  function Cancel(i: Issue, justification: string, answer: Answer): (Issue, Result<(), IssueError>) {
    var length := |Text.Strip(justification)|;
    if length < 15 || length > 255 then (i, Err(JustificationLength))
    else if i.status != Authorized then (i, Err(NotAuthorized))
    else if i.focusRef == "" then (i, Err(NoFocusRef))
    else if answer.NoAnswer? then (i, Err(ProviderRaised))
    else if !ConfirmsCancel(answer) then (i, Err(CancelUnconfirmed))
    else Commit(i, Announced(Transition(i, Cancelled, Api), IssueCancelled))
  }

  function Poll(i: Issue, answer: Answer): (Issue, Result<(), IssueError>) {
    if i.status != Polling && i.status != Authorized then (i, Ok(()))
    else if i.focusRef == "" then
      if i.status == Polling then Commit(i, Transition(i, Failed, Worker)) else (i, Ok(()))
    else match answer
      case NoAnswer => (i, Err(ProviderRaised))
      case Says(status, raw) =>
        Commit(i, if i.status == Authorized then PollAuthorized(i, status, raw) else PollPending(i, status, raw))
  }

  function PollAuthorized(i: Issue, status: Word, raw: Word): Result<Issue, IssueError> {
    if SaysCancelled(status) || SaysCancelled(raw) then Announced(Transition(i, Cancelled, Provider), IssueCancelled)
    else Ok(i)
  }

  function PollPending(i: Issue, status: Word, raw: Word): Result<Issue, IssueError> {
    if SaysAuthorized(status) || SaysAuthorized(raw) then Authorize(Ok(i))
    else if SaysRejected(status) || SaysRejected(raw) || SaysCancelled(raw) then
      Transition(i.(rejection := ProviderCode(if raw != Other("") then raw else status)), Rejected, Provider)
    else Ok(i)
  }

  // ---- provider webhook -----------------------------------------------------------------------------

  function AdvanceToPolling(i: Issue): Result<Issue, IssueError> {
    match (if i.status == Queued then Transition(i, Submitting, Provider) else Ok(i))
    case Err(e) => Err(e)
    case Ok(j) => if j.status == Submitting then Transition(j, Polling, Provider) else Ok(j)
  }

  function ProviderAuthorizes(i: Issue): Result<Issue, IssueError> {
    match AdvanceToPolling(i)
    case Err(e) => Err(e)
    case Ok(j) => if j.status == Polling then Authorize(Ok(j)) else Ok(j)
  }

  function ProviderRejects(i: Issue, status: Word): Result<Issue, IssueError> {
    match AdvanceToPolling(i.(rejection := ProviderCode(status)))
    case Err(e) => Err(e)
    case Ok(j) => if j.status == Polling then Transition(j, Rejected, Provider) else Ok(j)
  }

  function ApplyProviderStatus(i: Issue, status: Word): Result<Issue, IssueError> {
    if SaysCancelled(status) then
      if i.status == Cancelled then Ok(i)
      else if i.status == Authorized then Announced(Transition(i, Cancelled, Provider), IssueCancelled)
      else ProviderRejects(i, status)
    else if SaysAuthorized(status) then
      if i.status == Authorized then Ok(i) else ProviderAuthorizes(i)
    else if SaysRejected(status) then
      if i.status == Rejected then Ok(i) else ProviderRejects(i, status)
    else Ok(i)
  }

  function Webhook(i: Issue, d: Delivery): (Issue, Result<(), IssueError>) {
    if d.ref == "" then (i, Err(NoReference))
    else if d in i.inbox then (i, Ok(()))
    else match ApplyProviderStatus(i.(focusRef := if i.focusRef == "" then d.ref else i.focusRef), d.status)
      case Err(e) => (i, Err(e))
      case Ok(j) => (j.(inbox := j.inbox + {d}), Ok(()))
  }

  // ---- runs --------------------------------------------------------------------------------------------

  datatype Step =
    | ProcessStep(emit: EmitAnswer)
    | CancelStep(justification: string, answer: Answer)
    | PollStep(answer: Answer)
    | WebhookStep(delivery: Delivery)
    | ReprocessStep(tax: Tax)

  function Perform(i: Issue, step: Step): (Issue, Result<(), IssueError>) {
    match step
    case ProcessStep(answer) => Process(i, answer)
    case CancelStep(justification, answer) => Cancel(i, justification, answer)
    case PollStep(answer) => Poll(i, answer)
    case WebhookStep(delivery) => Webhook(i, delivery)
    case ReprocessStep(tax) => Commit(i, Reprocess(i, tax))
  }

  function Run(i: Issue, steps: seq<Step>): Issue
    decreases |steps|
  {
    if steps == [] then i else Run(Perform(i, steps[0]).0, steps[1..])
  }

  // ---- invariants ----------------------------------------------------------------------------------------

  /** The log is a path of allowed edges from DRAFT to the given status. */
  predicate Path(log: seq<Event>, end: Status) {
    if log == [] then end == Draft
    else
      var last := log[|log| - 1];
      last.to == end && Allowed(last.from, end) && Path(log[..|log| - 1], last.from)
  }

  function Entries(log: seq<Event>, s: Status): nat {
    if log == [] then 0 else Entries(log[..|log| - 1], s) + if log[|log| - 1].to == s then 1 else 0
  }

  function Messages(outbox: seq<Message>, m: Message): nat { multiset(outbox)[m] }

  predicate NeedsRule(s: Status) { s != Draft && s != PendingTax && s != Rejected }

  /** Each kind of message counts the entries into its status. */
  ghost predicate Announces(log: seq<Event>, outbox: seq<Message>) {
    && Messages(outbox, IssueQueued) == Entries(log, Queued)
    && Messages(outbox, IssueAuthorized) == Entries(log, Authorized)
    && Messages(outbox, IssueCancelled) == Entries(log, Cancelled)
  }

  /** An entry into QUEUED pays for at most one committed emission, made when the issue leaves it. */
  predicate EmitsWithin(emits: nat, attempts: nat, log: seq<Event>, s: Status) {
    emits + (if s == Queued then 1 else 0) <= Entries(log, Queued) && emits <= attempts
  }

  predicate RuleKept(s: Status, snapshot: Option<nat>, params: Option<nat>) {
    snapshot == params && (NeedsRule(s) ==> snapshot.Some?)
  }

  ghost predicate Consistent(i: Issue) {
    && Path(i.log, i.status)
    && Announces(i.log, i.outbox)
    && EmitsWithin(i.emits, i.attempts, i.log, i.status)
    && RuleKept(i.status, i.snapshot, i.params)
  }

  /** The statuses in which a service leaves an issue. */
  predicate Resting(i: Issue) { i.status != Draft && i.status != PendingTax && i.status != Submitting }

  lemma Moved(i: Issue, to: Status, actor: Actor)
    requires Allowed(i.status, to)
    ensures var j := Transition(i, to, actor).value;
      && (Path(i.log, i.status) ==> Path(j.log, j.status))
      && forall s :: Entries(j.log, s) == Entries(i.log, s) + if s == to then 1 else 0
  {
    assert (i.log + [Event(i.status, to, actor)])[..|i.log|] == i.log;
  }

  lemma Sent(outbox: seq<Message>, m: Message, x: Message)
    ensures Messages(outbox + [m], x) == Messages(outbox, x) + if x == m then 1 else 0
  {
    assert multiset(outbox + [m]) == multiset(outbox) + multiset{m};
  }

  /** Every part of consistency but the status of the announcement just due. */
  lemma QuietMove(i: Issue, to: Status, actor: Actor)
    requires Consistent(i) && Allowed(i.status, to) && to != Queued && to != Authorized && to != Cancelled
    requires NeedsRule(to) ==> i.snapshot.Some?
    ensures Consistent(Transition(i, to, actor).value)
  {
    Moved(i, to, actor);
  }

  lemma LoudMove(i: Issue, to: Status, actor: Actor, m: Message)
    requires Consistent(i) && Allowed(i.status, to) && i.snapshot.Some?
    requires
      || (to == Queued && m == IssueQueued)
      || (to == Authorized && m == IssueAuthorized)
      || (to == Cancelled && m == IssueCancelled)
    ensures Consistent(Announced(Transition(i, to, actor), m).value)
  {
    Moved(i, to, actor);
    Sent(i.outbox, m, IssueQueued);
    Sent(i.outbox, m, IssueAuthorized);
    Sent(i.outbox, m, IssueCancelled);
  }

  lemma TaxIsConsistent(i: Issue, tax: Tax)
    requires Consistent(i) && i.status == PendingTax
    ensures ResolveTax(i, tax).Ok? && Consistent(ResolveTax(i, tax).value) && Resting(ResolveTax(i, tax).value)
  {
    match tax
    case NoRule => QuietMove(i.(rejection := TaxRuleNotFound), Rejected, Api);
    case RtcRefused(code) => QuietMove(i.(rejection := RtcCode(code)), Rejected, Api);
    case Resolved(rule) => LoudMove(i.(snapshot := Some(rule), params := Some(rule)), Queued, Api, IssueQueued);
  }

  /** What a tax outcome stores, announces and where it leads: a rule is stored in both places and queues the
      issue with one message; otherwise the issue is rejected with the code, no message, and what it had. */
  ghost predicate TaxStored(before: Issue, from: Status, tax: Tax, t: Issue) {
    match tax
    case Resolved(rule) =>
      t == before.(status := Queued, snapshot := Some(rule), params := Some(rule), rejection := NoCode,
                   log := before.log + [Event(from, PendingTax, Api), Event(PendingTax, Queued, Api)],
                   outbox := before.outbox + [IssueQueued])
    case NoRule =>
      t == before.(status := Rejected, rejection := TaxRuleNotFound,
                   log := before.log + [Event(from, PendingTax, Api), Event(PendingTax, Rejected, Api)])
    case RtcRefused(code) =>
      t == before.(status := Rejected, rejection := RtcCode(code),
                   log := before.log + [Event(from, PendingTax, Api), Event(PendingTax, Rejected, Api)])
  }

  lemma CreateOutcome(tax: Tax)
    ensures Create(tax).Ok?
    ensures TaxStored(Issue(Draft, "", None, None, NoCode, [], [], {}, 0, 0), Draft, tax, Create(tax).value)
  {
    assert [Event(Draft, PendingTax, Api)] + [Event(PendingTax, Queued, Api)]
        == [] + [Event(Draft, PendingTax, Api), Event(PendingTax, Queued, Api)];
    assert [Event(Draft, PendingTax, Api)] + [Event(PendingTax, Rejected, Api)]
        == [] + [Event(Draft, PendingTax, Api), Event(PendingTax, Rejected, Api)];
  }

  /** Reprocessing resolves the tax of a rejected or failed issue anew, or of a draft, in which no service leaves
      an issue, and refuses any other. */
  lemma ReprocessOutcome(i: Issue, tax: Tax)
    ensures var (t, res) := Commit(i, Reprocess(i, tax));
      if i.status == Rejected || i.status == Failed || i.status == Draft then res.Ok? && TaxStored(i, i.status, tax, t)
      else t == i && res == Err(InvalidTransition)
  {
    var e := Event(i.status, PendingTax, Api);
    assert i.log + [e] + [Event(PendingTax, Queued, Api)] == i.log + [e, Event(PendingTax, Queued, Api)];
    assert i.log + [e] + [Event(PendingTax, Rejected, Api)] == i.log + [e, Event(PendingTax, Rejected, Api)];
  }

  lemma CreatedIsConsistent(tax: Tax)
    ensures Create(tax).Ok? && Consistent(Create(tax).value) && Resting(Create(tax).value)
  {
    assert Consistent(DRAFT);
    QuietMove(DRAFT, PendingTax, Api);
    TaxIsConsistent(Transition(DRAFT, PendingTax, Api).value, tax);
  }

  lemma SubmittedIsConsistent(i: Issue, ref: string)
    requires Consistent(i) && i.status == Queued
    ensures Submitted(i, ref).Ok? && Consistent(Submitted(i, ref).value) && Submitted(i, ref).value.status == Polling
  {
    QuietMove(i, Submitting, Worker);
    var j := Transition(i, Submitting, Worker).value;
    Moved(i, Submitting, Worker);
    var k := j.(focusRef := ref, emits := j.emits + 1, attempts := j.attempts + 1);
    assert Consistent(k);
    QuietMove(k, Polling, Worker);
  }

  /** A returned emission walks exactly these edges, stores the reference and counts once; a raised one only
      counts as received; in any other status nothing happens. */
  lemma ProcessOutcome(i: Issue, answer: EmitAnswer)
    ensures var (t, res) := Process(i, answer);
      if i.status == Queued && answer.Returned? then
        && res.Ok?
        && t == i.(status := if answer.authorized then Authorized else Polling, focusRef := answer.ref,
                   emits := i.emits + 1, attempts := i.attempts + 1, log := t.log, outbox := t.outbox)
        && t.log == i.log + [Event(Queued, Submitting, Worker), Event(Submitting, Polling, Worker)]
                    + (if answer.authorized then [Event(Polling, Authorized, Provider)] else [])
        && t.outbox == i.outbox + (if answer.authorized then [IssueAuthorized] else [])
      else
        && t == i.(attempts := i.attempts + if i.status == Queued && answer.Raised? then 1 else 0)
        && res == if i.status == Queued then Err(ProviderRaised) else Ok(())
  {
    assert i.outbox + [] == i.outbox;
  }

  lemma ProcessIsConsistent(i: Issue, answer: EmitAnswer)
    requires Consistent(i) && Resting(i)
    ensures Consistent(Process(i, answer).0) && Resting(Process(i, answer).0)
    ensures answer.Returned? ==> Process(i, answer).1.Ok?
  {
    if i.status == Queued && answer.Returned? {
      SubmittedIsConsistent(i, answer.ref);
      LoudMove(Submitted(i, answer.ref).value, Authorized, Provider, IssueAuthorized);
    }
  }

  lemma PollPendingIsConsistent(i: Issue, status: Word, raw: Word)
    requires Consistent(i) && i.status == Polling
    ensures var r := PollPending(i, status, raw); r.Ok? && Consistent(r.value) && Resting(r.value)
  {
    LoudMove(i, Authorized, Provider, IssueAuthorized);
    QuietMove(i.(rejection := ProviderCode(if raw != Other("") then raw else status)), Rejected, Provider);
  }

  lemma PollIsConsistent(i: Issue, answer: Answer)
    requires Consistent(i) && Resting(i)
    ensures Consistent(Poll(i, answer).0) && Resting(Poll(i, answer).0)
    ensures answer.Says? ==> Poll(i, answer).1.Ok?
  {
    if i.status == Polling {
      QuietMove(i, Failed, Worker);
      if answer.Says? { PollPendingIsConsistent(i, answer.status, answer.raw); }
    } else if i.status == Authorized {
      LoudMove(i, Cancelled, Provider, IssueCancelled);
    }
  }

  lemma CancelShape(i: Issue, justification: string, answer: Answer)
    ensures var j := Cancel(i, justification, answer).0;
      j == i || (i.status == Authorized && j == Announced(Transition(i, Cancelled, Api), IssueCancelled).value)
  {
  }

  /** A cancellation succeeds exactly on an authorized issue with a reference, a justification of 15 to 255
      characters and the provider's confirmation; otherwise nothing changes, and the first of these that fails is
      reported. */
  lemma CancelIff(i: Issue, justification: string, answer: Answer)
    ensures var (t, res) := Cancel(i, justification, answer);
      && (res.Ok? <==>
            && 15 <= |Text.Strip(justification)| <= 255 && i.status == Authorized && i.focusRef != ""
            && answer.Says? && (SaysCancelled(answer.status) || SaysCancelled(answer.raw)))
      && (res.Err? ==>
            if !(15 <= |Text.Strip(justification)| <= 255) then res.error == JustificationLength
            else if i.status != Authorized then res.error == NotAuthorized
            else if i.focusRef == "" then res.error == NoFocusRef
            else if answer == NoAnswer then res.error == ProviderRaised else res.error == CancelUnconfirmed)
      && t == if res.Err? then i
              else i.(status := Cancelled, log := i.log + [Event(Authorized, Cancelled, Api)],
                  outbox := i.outbox + [IssueCancelled])
  {
    var length := |Text.Strip(justification)|;
  }

  lemma CancelIsConsistent(i: Issue, justification: string, answer: Answer)
    requires Consistent(i) && Resting(i)
    ensures Consistent(Cancel(i, justification, answer).0) && Resting(Cancel(i, justification, answer).0)
  {
    CancelShape(i, justification, answer);
    if i.status == Authorized {
      LoudMove(i, Cancelled, Api, IssueCancelled);
    }
  }

  lemma AdvanceIsConsistent(i: Issue)
    requires Consistent(i) && i.status != Draft && i.status != PendingTax
    ensures AdvanceToPolling(i).Ok? && Consistent(AdvanceToPolling(i).value)
    ensures AdvanceToPolling(i).value.status ==
        if i.status == Queued || i.status == Submitting then Polling else i.status
  {
    if i.status == Queued {
      QuietMove(i, Submitting, Provider);
      QuietMove(Transition(i, Submitting, Provider).value, Polling, Provider);
    } else if i.status == Submitting {
      QuietMove(i, Polling, Provider);
    }
  }

  lemma ProviderRejectsIsConsistent(i: Issue, word: Word)
    requires Consistent(i) && Resting(i)
    ensures var r := ProviderRejects(i, word); r.Ok? && Consistent(r.value) && Resting(r.value)
  {
    AdvanceIsConsistent(i.(rejection := ProviderCode(word)));
    var j := AdvanceToPolling(i.(rejection := ProviderCode(word))).value;
    if j.status == Polling { QuietMove(j, Rejected, Provider); }
  }

  lemma ProviderAuthorizesIsConsistent(i: Issue)
    requires Consistent(i) && Resting(i)
    ensures var r := ProviderAuthorizes(i); r.Ok? && Consistent(r.value) && Resting(r.value)
  {
    AdvanceIsConsistent(i);
    var j := AdvanceToPolling(i).value;
    if j.status == Polling { LoudMove(j, Authorized, Provider, IssueAuthorized); }
  }

  lemma ApplyShape(i: Issue, status: Word)
    ensures var r := ApplyProviderStatus(i, status);
      || r == Ok(i)
      || r == ProviderAuthorizes(i)
      || r == ProviderRejects(i, status)
      || (i.status == Authorized && r == Announced(Transition(i, Cancelled, Provider), IssueCancelled))
  {
  }

  lemma WebhookIsConsistent(i: Issue, status: Word)
    requires Consistent(i) && Resting(i)
    ensures ApplyProviderStatus(i, status).Ok?
    ensures Consistent(ApplyProviderStatus(i, status).value) && Resting(ApplyProviderStatus(i, status).value)
  {
    ApplyShape(i, status);
    var r := ApplyProviderStatus(i, status);
    if r == ProviderAuthorizes(i) {
      ProviderAuthorizesIsConsistent(i);
    } else if r == ProviderRejects(i, status) {
      ProviderRejectsIsConsistent(i, status);
    } else if r != Ok(i) {
      LoudMove(i, Cancelled, Provider, IssueCancelled);
    }
  }

  lemma StepIsConsistent(i: Issue, step: Step)
    requires Consistent(i) && Resting(i)
    ensures Consistent(Perform(i, step).0) && Resting(Perform(i, step).0)
  {
    match step
    case ProcessStep(answer) => ProcessIsConsistent(i, answer);
    case CancelStep(justification, answer) => CancelIsConsistent(i, justification, answer);
    case PollStep(answer) => PollIsConsistent(i, answer);
    case WebhookStep(d) =>
      WebhookIsConsistent(i.(focusRef := if i.focusRef == "" then d.ref else i.focusRef), d.status);
    case ReprocessStep(tax) =>
      if i.status == Rejected || i.status == Failed {
        QuietMove(i, PendingTax, Api);
        TaxIsConsistent(Transition(i, PendingTax, Api).value.(rejection := NoCode), tax);
      }
  }

  /** Along any path, AUTHORIZED is entered once at most, exactly when the path ends in AUTHORIZED or
      CANCELLED; CANCELLED is entered once at most, exactly when the path ends there. */
  lemma {:induction false} EnteredOnce(log: seq<Event>, end: Status)
    requires Path(log, end)
    ensures Entries(log, Authorized) == if end == Authorized || end == Cancelled then 1 else 0
    ensures Entries(log, Cancelled) == if end == Cancelled then 1 else 0
  {
    if log != [] {
      EnteredOnce(log[..|log| - 1], log[|log| - 1].from);
    }
  }

  /** Main result, over every run from creation: the log is a path in the table ending at the status,
      each kind of message counts the entries into its status, AUTHORIZED and CANCELLED are entered at
      most once, committed emissions never exceed entries into QUEUED, every status past tax resolution
      has a rule snapshot and parameters, and no service leaves DRAFT, PENDING_TAX or SUBMITTING. */
  lemma {:induction false} RunIsConsistent(i: Issue, steps: seq<Step>)
    requires Consistent(i) && Resting(i)
    ensures Consistent(Run(i, steps)) && Resting(Run(i, steps))
    ensures Entries(Run(i, steps).log, Authorized) <= 1 && Entries(Run(i, steps).log, Cancelled) <= 1
    decreases |steps|
  {
    if steps == [] {
      EnteredOnce(i.log, i.status);
    } else {
      StepIsConsistent(i, steps[0]);
      RunIsConsistent(Perform(i, steps[0]).0, steps[1..]);
    }
  }

  // ---- emissions the provider received ---------------------------------------------------------------------

  /** The steps of a run in which the provider received the emission of a queued issue and the service
      then raised. */
  function Raises(i: Issue, steps: seq<Step>): nat
    decreases |steps|
  {
    if steps == [] then 0
    else
      var rest := Raises(Perform(i, steps[0]).0, steps[1..]);
      if steps[0] == ProcessStep(Raised) && i.status == Queued then 1 + rest else rest
  }

  predicate SameCalls(i: Issue, j: Issue) {
    j.attempts == i.attempts && j.emits == i.emits && j.inbox == i.inbox
  }

  lemma ApplySameCalls(i: Issue, status: Word)
    ensures ApplyProviderStatus(i, status).Ok? ==> SameCalls(i, ApplyProviderStatus(i, status).value)
  {
    ApplyShape(i, status);
  }

  lemma PollSameCalls(i: Issue, answer: Answer)
    ensures SameCalls(i, Poll(i, answer).0)
  {
  }

  lemma ReprocessSameCalls(i: Issue, tax: Tax)
    ensures Reprocess(i, tax).Ok? ==> SameCalls(i, Reprocess(i, tax).value)
  {
  }

  lemma StepCalls(i: Issue, step: Step)
    ensures var t := Perform(i, step).0;
      && i.inbox <= t.inbox
      && t.attempts - t.emits == i.attempts - i.emits +
        if step == ProcessStep(Raised) && i.status == Queued then 1 else 0
  {
    match step
    case ProcessStep(answer) =>
    case CancelStep(justification, answer) => CancelShape(i, justification, answer);
    case PollStep(answer) => PollSameCalls(i, answer);
    case WebhookStep(d) => ApplySameCalls(i.(focusRef := if i.focusRef == "" then d.ref else i.focusRef), d.status);
    case ReprocessStep(tax) => ReprocessSameCalls(i, tax);
  }

  /** Every emission the provider received was either committed or raised, and the committed ones never
      exceed the entries into QUEUED: the bound on emissions holds for a run without such raises. */
  lemma {:induction false} AttemptsAreBounded(i: Issue, steps: seq<Step>)
    requires Consistent(i) && Resting(i) && i.attempts == i.emits
    ensures var t := Run(i, steps); t.attempts == t.emits + Raises(i, steps) && t.emits <= Entries(t.log, Queued)
  {
    AttemptsDrift(i, steps);
    RunIsConsistent(i, steps);
  }

  lemma {:induction false} AttemptsDrift(i: Issue, steps: seq<Step>)
    ensures var t := Run(i, steps); t.attempts - t.emits == i.attempts - i.emits + Raises(i, steps)
    decreases |steps|
  {
    if steps != [] {
      StepCalls(i, steps[0]);
      AttemptsDrift(Perform(i, steps[0]).0, steps[1..]);
    }
  }

  /** Such a raise returns the issue to QUEUED with no trace in the log, so one visit to QUEUED allows any
      number of emissions. */
  lemma {:induction false} RaisedEmissionsRepeat(i: Issue, steps: seq<Step>)
    requires i.status == Queued && forall k :: 0 <= k < |steps| ==> steps[k] == ProcessStep(Raised)
    ensures Run(i, steps) == i.(attempts := i.attempts + |steps|)
    decreases |steps|
  {
    if steps != [] {
      assert Perform(i, steps[0]).0 == i.(attempts := i.attempts + 1);
      RaisedEmissionsRepeat(i.(attempts := i.attempts + 1), steps[1..]);
    }
  }

  // ---- visits to QUEUED -----------------------------------------------------------------------------------

  /** The provider receives the emission of a queued issue in this step. */
  predicate Received(step: Step) { step.ProcessStep? && !step.emit.NotReached? }

  /** The step takes a queued issue out of QUEUED: a returned emission, or a new webhook whose word is known. */
  predicate Leaves(i: Issue, step: Step) {
    || (step.ProcessStep? && step.emit.Returned?)
    || (step.WebhookStep? && step.delivery.ref != "" && step.delivery !in i.inbox
        && (SaysAuthorized(step.delivery.status) || SaysRejected(step.delivery.status)
          || SaysCancelled(step.delivery.status)))
  }

  lemma LeavesIff(i: Issue, step: Step)
    requires i.status == Queued
    ensures Perform(i, step).0.status != Queued <==> Leaves(i, step)
    ensures Perform(i, step).0.attempts == i.attempts + if Received(step) then 1 else 0
  {
    match step
    case ProcessStep(answer) => ProcessOutcome(i, answer);
    case CancelStep(justification, answer) => CancelShape(i, justification, answer);
    case PollStep(answer) =>
    case WebhookStep(d) =>
      var j := i.(focusRef := if i.focusRef == "" then d.ref else i.focusRef);
      WebhookFollowsVerdict(j, d.status);
      ApplySameCalls(j, d.status);
    case ReprocessStep(tax) =>
  }

  /** How many of the steps belong to the visit to QUEUED the issue is in. */
  function Visit(i: Issue, steps: seq<Step>): (n: nat)
    ensures n <= |steps|
    decreases |steps|
  {
    if steps == [] || i.status != Queued then 0 else 1 + Visit(Perform(i, steps[0]).0, steps[1..])
  }

  /** A received emission follows a raised one within the first `n` steps. */
  ghost predicate FollowsRaise(steps: seq<Step>, n: nat)
    requires n <= |steps|
  {
    exists j, k :: 0 <= j < k < n && steps[j] == ProcessStep(Raised) && Received(steps[k])
  }

  ghost predicate AnyReceived(steps: seq<Step>, n: nat)
    requires n <= |steps|
  {
    exists k :: 0 <= k < n && Received(steps[k])
  }

  lemma FollowsRaiseFirst(steps: seq<Step>, n: nat)
    requires 0 < n <= |steps|
    ensures FollowsRaise(steps, n) <==>
      (steps[0] == ProcessStep(Raised) && AnyReceived(steps[1..], n - 1)) || FollowsRaise(steps[1..], n - 1)
    ensures AnyReceived(steps, n) <==> Received(steps[0]) || AnyReceived(steps[1..], n - 1)
  {
    var rest := steps[1..];
    assert forall k :: 0 <= k < n - 1 ==> rest[k] == steps[k + 1];
    if FollowsRaise(steps, n) {
      var j, k :| 0 <= j < k < n && steps[j] == ProcessStep(Raised) && Received(steps[k]);
      assert rest[k - 1] == steps[k];
      if j > 0 { assert rest[j - 1] == steps[j]; }
    }
    if AnyReceived(rest, n - 1) {
      var k :| 0 <= k < n - 1 && Received(rest[k]);
      assert Received(steps[k + 1]);
    }
    if FollowsRaise(rest, n - 1) {
      var j, k :| 0 <= j < k < n - 1 && rest[j] == ProcessStep(Raised) && Received(rest[k]);
      assert steps[j + 1] == ProcessStep(Raised) && Received(steps[k + 1]);
    }
    if AnyReceived(steps, n) && !Received(steps[0]) {
      var k :| 0 <= k < n && Received(steps[k]);
      assert rest[k - 1] == steps[k];
    }
  }

  /** The emissions the provider receives in the visit. */
  function VisitEmissions(i: Issue, steps: seq<Step>): int {
    Run(i, steps[..Visit(i, steps)]).attempts - i.attempts
  }

  lemma VisitFirst(i: Issue, steps: seq<Step>)
    requires i.status == Queued && steps != []
    ensures VisitEmissions(i, steps)
        == (if Received(steps[0]) then 1 else 0) + VisitEmissions(Perform(i, steps[0]).0, steps[1..])
  {
    LeavesIff(i, steps[0]);
    var n := Visit(i, steps);
    assert steps[..n][1..] == steps[1..][..n - 1] && steps[..n][0] == steps[0];
  }

  /** A returned emission is the last step of its visit. */
  lemma ReturnEndsVisit(i: Issue, steps: seq<Step>)
    requires i.status == Queued && steps != [] && Leaves(i, steps[0])
    ensures Visit(i, steps) == 1
  {
    LeavesIff(i, steps[0]);
  }

  /** Main result on one visit: the provider receives at most one emission in it if and only if no received
      emission of the visit follows a raised one. */
  lemma {:induction false} VisitEmitsOnceIff(i: Issue, steps: seq<Step>)
    ensures VisitEmissions(i, steps) >= 0
    ensures VisitEmissions(i, steps) == 0 <==> !AnyReceived(steps, Visit(i, steps))
    ensures VisitEmissions(i, steps) <= 1 <==> !FollowsRaise(steps, Visit(i, steps))
    decreases |steps|
  {
    if steps != [] && i.status == Queued {
      VisitFirst(i, steps);
      FollowsRaiseFirst(steps, Visit(i, steps));
      VisitEmitsOnceIff(Perform(i, steps[0]).0, steps[1..]);
      if Leaves(i, steps[0]) { ReturnEndsVisit(i, steps); }
    }
  }

  // ---- emissions over whole runs ----------------------------------------------------------------------------

  lemma Entered(i: Issue, step: Step)
    requires Consistent(i) && Resting(i)
    ensures var t := Perform(i, step).0;
      && Entries(t.log, Queued) == Entries(i.log, Queued) + (if i.status != Queued && t.status == Queued then 1 else 0)
      && t.attempts == i.attempts + (if i.status == Queued && Received(step) then 1 else 0)
  {
    match step
    case ProcessStep(answer) => ProcessEntries(i, answer);
    case CancelStep(justification, answer) =>
      CancelShape(i, justification, answer);
      if i.status == Authorized { Moved(i, Cancelled, Api); }
    case PollStep(answer) => PollEntries(i, answer);
    case WebhookStep(d) => ApplyEntries(i.(focusRef := if i.focusRef == "" then d.ref else i.focusRef), d.status);
    case ReprocessStep(tax) => ReprocessEntries(i, tax);
  }

  lemma EntriesAppend(log: seq<Event>, e: Event, s: Status)
    ensures Entries(log + [e], s) == Entries(log, s) + if e.to == s then 1 else 0
  {
    assert (log + [e])[..|log|] == log;
  }

  lemma ProcessEntries(i: Issue, answer: EmitAnswer)
    ensures var t := Process(i, answer).0;
      && Entries(t.log, Queued) == Entries(i.log, Queued)
      && (t.status == Queued ==> i.status == Queued)
      && t.attempts == i.attempts + (if i.status == Queued && !answer.NotReached? then 1 else 0)
  {
    ProcessOutcome(i, answer);
    if i.status == Queued && answer.Returned? {
      var a, b, c := Event(Queued, Submitting, Worker), Event(Submitting, Polling, Worker),
          Event(Polling, Authorized, Provider);
      EntriesAppend(i.log, a, Queued);
      EntriesAppend(i.log + [a], b, Queued);
      EntriesAppend(i.log + [a] + [b], c, Queued);
      assert i.log + [a, b] == i.log + [a] + [b];
      assert i.log + [a, b] + [c] == i.log + [a] + [b] + [c] && i.log + [a, b] + [] == i.log + [a, b];
    }
  }

  lemma PollEntries(i: Issue, answer: Answer)
    ensures var t := Poll(i, answer).0;
      && Entries(t.log, Queued) == Entries(i.log, Queued) && (t.status == Queued <==> i.status == Queued)
      && t.attempts == i.attempts
  {
    PollSameCalls(i, answer);
    var t := Poll(i, answer).0;
    if t.log != i.log {
      EntriesAppend(i.log, t.log[|i.log|], Queued);
      assert t.log == i.log + [t.log[|i.log|]];
    }
  }

  lemma AdvanceEntries(i: Issue)
    ensures AdvanceToPolling(i).Ok? && AdvanceToPolling(i).value.status != Queued
    ensures Entries(AdvanceToPolling(i).value.log, Queued) == Entries(i.log, Queued)
  {
    EntriesAppend(i.log, Event(Queued, Submitting, Provider), Queued);
    EntriesAppend(i.log + [Event(Queued, Submitting, Provider)], Event(Submitting, Polling, Provider), Queued);
    EntriesAppend(i.log, Event(Submitting, Polling, Provider), Queued);
  }

  lemma ApplyEntries(i: Issue, w: Word)
    ensures ApplyProviderStatus(i, w).Ok?
    ensures var t := ApplyProviderStatus(i, w).value;
      && Entries(t.log, Queued) == Entries(i.log, Queued) && (t.status == Queued ==> i.status == Queued)
      && t.attempts == i.attempts
  {
    WebhookFollowsVerdict(i, w);
    ApplySameCalls(i, w);
    ApplyShape(i, w);
    AdvanceEntries(i);
    AdvanceEntries(i.(rejection := ProviderCode(w)));
    var j := AdvanceToPolling(i).value;
    EntriesAppend(j.log, Event(Polling, Authorized, Provider), Queued);
    EntriesAppend(j.log, Event(Polling, Rejected, Provider), Queued);
    EntriesAppend(i.log, Event(Authorized, Cancelled, Provider), Queued);
  }

  lemma ReprocessEntries(i: Issue, tax: Tax)
    requires Resting(i)
    ensures var t := Commit(i, Reprocess(i, tax)).0;
      && Entries(t.log, Queued) == Entries(i.log, Queued) + (if i.status != Queued && t.status == Queued then 1 else 0)
      && t.attempts == i.attempts
  {
    ReprocessSameCalls(i, tax);
    var a := Event(i.status, PendingTax, Api);
    EntriesAppend(i.log, a, Queued);
    EntriesAppend(i.log + [a], Event(PendingTax, Queued, Api), Queued);
    EntriesAppend(i.log + [a], Event(PendingTax, Rejected, Api), Queued);
  }

  /** In no visit of the run does a received emission follow a raised one; `raised` tells whether the visit
      the run starts in has had a raised emission. */
  predicate NoRepeat(i: Issue, raised: bool, steps: seq<Step>)
    decreases |steps|
  {
    steps == []
    || (&& !(i.status == Queued && raised && Received(steps[0]))
        && NoRepeat(Perform(i, steps[0]).0, i.status == Queued
          && (raised || steps[0] == ProcessStep(Raised)), steps[1..]))
  }

  /** Over every run in which no visit repeats an emission after a raise, the emissions the provider received
      never exceed the entries into QUEUED. */
  lemma {:induction false} EmissionsWithinEntries(i: Issue, raised: bool, steps: seq<Step>)
    requires Consistent(i) && Resting(i) && NoRepeat(i, raised, steps)
    requires i.attempts + (if i.status == Queued && !raised then 1 else 0) <= Entries(i.log, Queued)
    ensures Run(i, steps).attempts <= Entries(Run(i, steps).log, Queued)
    decreases |steps|
  {
    if steps != [] {
      var t := Perform(i, steps[0]).0;
      Entered(i, steps[0]);
      StepIsConsistent(i, steps[0]);
      if i.status == Queued { LeavesIff(i, steps[0]); }
      EmissionsWithinEntries(t, i.status == Queued && (raised || steps[0] == ProcessStep(Raised)), steps[1..]);
    }
  }

  lemma {:induction false} NoRaiseNoRepeat(i: Issue, steps: seq<Step>)
    requires forall k :: 0 <= k < |steps| ==> steps[k] != ProcessStep(Raised)
    ensures NoRepeat(i, false, steps)
    decreases |steps|
  {
    if steps != [] { NoRaiseNoRepeat(Perform(i, steps[0]).0, steps[1..]); }
  }

  /** In particular from creation, over every run without a raised emission. */
  lemma {:induction false} UnraisedEmissionsWithinEntries(tax: Tax, steps: seq<Step>)
    requires forall k :: 0 <= k < |steps| ==> steps[k] != ProcessStep(Raised)
    ensures var t := Run(Create(tax).value, steps); t.attempts <= Entries(t.log, Queued)
  {
    CreatedIsConsistent(tax);
    NoRaiseNoRepeat(Create(tax).value, steps);
    EmissionsWithinEntries(Create(tax).value, false, steps);
  }

  // ---- poller and webhook --------------------------------------------------------------------------------------

  /** What a provider status means for an issue in a given status, as a table. */
  function Verdict(s: Status, w: Word): Status {
    match s
    case Queued | Submitting | Polling =>
      if SaysAuthorized(w) then Authorized else if SaysRejected(w) || SaysCancelled(w) then Rejected else s
    case Authorized => if SaysCancelled(w) then Cancelled else Authorized
    case _ => s
  }

  /** How the provider adapter reports a raw status to the poller. */
  function Reported(raw: Word): Answer {
    Says(if SaysAuthorized(raw) then AuthorizedWord else raw, raw)
  }

  /** The webhook follows the table from every status, and never raises an invalid transition: its
      handler for that error is unreachable. */
  lemma WebhookFollowsVerdict(i: Issue, w: Word)
    ensures ApplyProviderStatus(i, w).Ok? && ApplyProviderStatus(i, w).value.status == Verdict(i.status, w)
  {
    if i.status == Queued {
      assert Transition(i, Submitting, Provider).Ok?;
    }
  }

  /** The edges a webhook walks from one status to another. */
  function Way(from: Status, to: Status): seq<Event> {
    match from
    case Queued =>
      [Event(Queued, Submitting, Provider), Event(Submitting, Polling, Provider), Event(Polling, to, Provider)]
    case Submitting => [Event(Submitting, Polling, Provider), Event(Polling, to, Provider)]
    case _ => [Event(from, to, Provider)]
  }

  /** The whole effect of a provider's word that arrives by webhook: the edges from the issue's status to the
      table's, the messages of what it enters, and the code of a rejection, which is stored even on an issue that
      is past rejecting. */
  ghost predicate WordApplied(i: Issue, w: Word, t: Issue) {
    var to := Verdict(i.status, w);
    && t == i.(status := to, rejection := t.rejection, log := t.log, outbox := t.outbox)
    && t.rejection == (if (SaysCancelled(w) && i.status != Cancelled && i.status != Authorized)
                          || (SaysRejected(w) && i.status != Rejected) then ProviderCode(w) else i.rejection)
    && t.log == i.log + (if to == i.status then [] else Way(i.status, to))
    && t.outbox == i.outbox + (if to == i.status then [] else if to == Authorized then [IssueAuthorized]
                               else if to == Cancelled then [IssueCancelled] else [])
  }

  lemma AdvanceLog(i: Issue, to: Status)
    requires i.status == Queued || i.status == Submitting || i.status == Polling
    ensures AdvanceToPolling(i).Ok?
    ensures var j := AdvanceToPolling(i).value;
      && j == i.(status := Polling, log := j.log)
      && j.log + [Event(Polling, to, Provider)] == i.log + Way(i.status, to)
  {
    var a, b, c := Event(Queued, Submitting, Provider), Event(Submitting, Polling, Provider),
        Event(Polling, to, Provider);
    assert i.log + [a] + [b] + [c] == i.log + [a, b, c] && i.log + [b] + [c] == i.log + [b, c];
  }

  predicate Awaits(s: Status) { s == Queued || s == Submitting || s == Polling }

  lemma RejectsOutcome(i: Issue, w: Word)
    ensures ProviderRejects(i, w) == Ok(
      if Awaits(i.status) then
        i.(status := Rejected, rejection := ProviderCode(w), log := i.log + Way(i.status, Rejected))
      else i.(rejection := ProviderCode(w)))
  {
    if Awaits(i.status) { AdvanceLog(i.(rejection := ProviderCode(w)), Rejected); }
  }

  lemma AuthorizesOutcome(i: Issue)
    ensures ProviderAuthorizes(i) == Ok(
      if Awaits(i.status) then i.(status := Authorized, log := i.log + Way(i.status, Authorized),
                                  outbox := i.outbox + [IssueAuthorized])
      else i)
  {
    if Awaits(i.status) { AdvanceLog(i, Authorized); }
  }

  lemma WordOutcome(i: Issue, w: Word)
    ensures ApplyProviderStatus(i, w).Ok? && WordApplied(i, w, ApplyProviderStatus(i, w).value)
  {
    assert i.log + [] == i.log && i.outbox + [] == i.outbox;
    RejectsOutcome(i, w);
    AuthorizesOutcome(i);
  }

  /** A delivery without a reference is refused, a known one is ignored, and a new one gives the issue its
      reference when it has none, applies its word and is remembered. */
  lemma WebhookOutcome(i: Issue, d: Delivery)
    ensures var (t, res) := Webhook(i, d);
      if d.ref == "" then t == i && res == Err(NoReference)
      else if d in i.inbox then t == i && res.Ok?
      else
        && res.Ok? && t.inbox == i.inbox + {d}
        && WordApplied(i.(focusRef := if i.focusRef == "" then d.ref else i.focusRef), d.status,
                       t.(inbox := i.inbox))
  {
    WordOutcome(i.(focusRef := if i.focusRef == "" then d.ref else i.focusRef), d.status);
  }

  /** The poller on every status and answer: what it says of an issue that awaits it or is authorized. */
  lemma PollOutcome(i: Issue, answer: Answer)
    ensures var (t, res) := Poll(i, answer);
      if i.status != Polling && i.status != Authorized then t == i && res.Ok?
      else if i.focusRef == "" then
        && res.Ok?
        && t == if i.status == Authorized then i
                else i.(status := Failed, log := i.log + [Event(Polling, Failed, Worker)])
      else match answer
        case NoAnswer => t == i && res == Err(ProviderRaised)
        case Says(status, raw) =>
          && res.Ok?
          && t == if i.status == Authorized then
                    if SaysCancelled(status) || SaysCancelled(raw) then
                      i.(status := Cancelled, log := i.log + [Event(Authorized, Cancelled, Provider)],
                         outbox := i.outbox + [IssueCancelled])
                    else i
                  else if SaysAuthorized(status) || SaysAuthorized(raw) then
                    i.(status := Authorized, log := i.log + [Event(Polling, Authorized, Provider)],
                       outbox := i.outbox + [IssueAuthorized])
                  else if SaysRejected(status) || SaysRejected(raw) || SaysCancelled(raw) then
                    i.(status := Rejected, log := i.log + [Event(Polling, Rejected, Provider)],
                       rejection := ProviderCode(if raw == Other("") then status else raw))
                  else i
  {
  }

  /** For an issue with a reference that awaits the provider or is authorized, the poller follows the same
      table, and polling a status or receiving it by webhook write the same log and the same messages. */
  lemma PollerAgreesWithWebhook(i: Issue, raw: Word)
    requires (i.status == Polling || i.status == Authorized) && i.focusRef != ""
    ensures var p, w := Poll(i, Reported(raw)).0, ApplyProviderStatus(i, raw).value;
      p.status == w.status == Verdict(i.status, raw) && p.outbox == w.outbox && p.log == w.log
  {
    WebhookFollowsVerdict(i, raw);
  }

  /** Without a reference they differ exactly when the issue awaits the provider or the word says cancelled:
      the poller fails the one and leaves the other authorized, while the webhook brings the reference and
      follows the table. */
  lemma MissingReferenceDiffers(i: Issue, d: Delivery)
    requires (i.status == Polling || i.status == Authorized) && i.focusRef == "" && d.ref != "" && d !in i.inbox
    ensures Poll(i, Reported(d.status)).0.status == if i.status == Polling then Failed else Authorized
    ensures Webhook(i, d).0.focusRef == d.ref && Webhook(i, d).0.status == Verdict(i.status, d.status)
    ensures Poll(i, Reported(d.status)).0.status != Webhook(i, d).0.status <==>
        i.status == Polling || SaysCancelled(d.status)
  {
    WebhookFollowsVerdict(i.(focusRef := d.ref), d.status);
  }

  /** The branch without a reference is defensive: while every returned emission brings one, as the provider
      adapters do, no issue that awaits the provider or is authorized lacks it. */
  predicate Referenced(i: Issue) { (i.status == Polling || i.status == Authorized) ==> i.focusRef != "" }

  lemma StepKeepsReference(i: Issue, step: Step)
    requires Referenced(i) && (step.ProcessStep? && step.emit.Returned? ==> step.emit.ref != "")
    ensures Referenced(Perform(i, step).0)
  {
    match step
    case ProcessStep(answer) => ProcessOutcome(i, answer);
    case CancelStep(justification, answer) => CancelShape(i, justification, answer);
    case PollStep(answer) =>
    case WebhookStep(d) => ApplyKeepsReference(i.(focusRef := if i.focusRef == "" then d.ref else i.focusRef),
        d.status);
    case ReprocessStep(tax) =>
  }

  lemma ApplyKeepsReference(i: Issue, w: Word)
    ensures ApplyProviderStatus(i, w).Ok? ==> ApplyProviderStatus(i, w).value.focusRef == i.focusRef
  {
  }

  lemma {:induction false} RunKeepsReference(i: Issue, steps: seq<Step>)
    requires Referenced(i)
    requires forall k :: 0 <= k < |steps| && steps[k].ProcessStep? && steps[k].emit.Returned? ==>
        steps[k].emit.ref != ""
    ensures Referenced(Run(i, steps))
    decreases |steps|
  {
    if steps != [] {
      StepKeepsReference(i, steps[0]);
      RunKeepsReference(Perform(i, steps[0]).0, steps[1..]);
    }
  }

  /** A delivered webhook is applied once: the same delivery again changes nothing, after any run. */
  lemma {:induction false} WebhookReplayIsNoOp(i: Issue, steps: seq<Step>, d: Delivery)
    requires d in i.inbox && d.ref != ""
    ensures var t := Run(i, steps); Webhook(t, d) == (t, Ok(()))
    decreases |steps|
  {
    if steps != [] {
      StepCalls(i, steps[0]);
      WebhookReplayIsNoOp(Perform(i, steps[0]).0, steps[1..], d);
    }
  }
}
