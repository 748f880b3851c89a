/** The money ledger and commission entries of the agenda: apps/scheduling/finance.py, and the
    completion hook of apps/scheduling/services.py:404-415. */
module Ledger {
  import opened Prelude
  import opened BookingRules
  import Agenda
  import Commission
  import Text

  datatype Financial = Financial(
    priceCents: int, depositCents: int, discountCents: int, discountReason: string, balanceMethod: string,
    depositAt: Option<Instant>, settledAt: Option<Instant>)

  function BalanceDue(f: Financial): int {
    var due := f.priceCents - f.depositCents - f.discountCents;
    if due < 0 then 0 else due
  }

  datatype EntryStatus = EntryPending | EntryApproved | EntryPaid | EntryCancelled
  datatype Entry = Entry(
    professional: nat, service: nat, rule: Option<nat>, baseCents: int, commissionCents: int, status: EntryStatus)

  /** Financials and entries are one-to-one with appointments, so both are keyed by appointment. */
  datatype Books = Books(
    agenda: Agenda.State, financials: map<nat, Financial>, entries: map<nat, Entry>, rules: seq<Commission.Rule>)

  datatype LedgerError =
    | Booking(error: Agenda.BookingError) | NegativeAmount | AlreadySettled | ExceedsPrice
    | ReasonRequired | AppointmentMissing | EntryMissing | InvalidStatus | EntryFrozen

  function Opened(priceCents: int): Financial { Financial(priceCents, 0, 0, "", "", None, None) }

  function FinancialOf(b: Books, id: nat): Financial
    requires id < |b.agenda.appts|
  {
    if id in b.financials then b.financials[id] else Opened(b.agenda.appts[id].priceCents)
  }

  function EnsureFinancial(b: Books, id: nat): Books
    requires id < |b.agenda.appts|
  {
    var f, price := FinancialOf(b, id), b.agenda.appts[id].priceCents;
    b.(financials := b.financials[id := if f.settledAt.None? then f.(priceCents := price) else f])
  }

  function CommissionContext(a: Agenda.Appointment): Commission.Context {
    Commission.Context(None, a.professional, Some(a.service))
  }

  function NewEntry(b: Books, id: nat): Entry
    requires id < |b.agenda.appts|
  {
    var a := b.agenda.appts[id];
    var base: int := if id in b.financials then b.financials[id].priceCents else a.priceCents;
    match Commission.Best(CommissionContext(a), b.rules)
    case None => Entry(a.professional, a.service, None, base, 0, EntryPending)
    case Some(rule) => Entry(a.professional, a.service, Some(rule.id), base, Commission.CommissionCents(base, rule),
        EntryPending)
  }

  function EnsureEntry(b: Books, id: nat): Books
    requires id < |b.agenda.appts|
  {
    if b.agenda.appts[id].status != Completed || id in b.entries then b
    else b.(entries := b.entries[id := NewEntry(b, id)])
  }

  function CompleteAppointment(b: Books, id: nat): (Books, Result<nat, LedgerError>) {
    var (agenda, moved) := Agenda.Move(b.agenda, id, Complete);
    match moved
    case Err(e) => (b, Err(Booking(e)))
    case Ok(_) => (EnsureEntry(EnsureFinancial(b.(agenda := agenda), id), id), Ok(id))
  }

  function RecordDeposit(b: Books, id: nat, cents: int, now: Instant): (Books, Result<Financial, LedgerError>) {
    if cents < 0 then (b, Err(NegativeAmount))
    else if id >= |b.agenda.appts| then (b, Err(AppointmentMissing))
    else
      var f := FinancialOf(b, id);
      if f.settledAt.Some? then (b, Err(AlreadySettled))
      else if cents + f.discountCents > f.priceCents then (b, Err(ExceedsPrice))
      else
        var paid := f.(depositCents := cents, depositAt := Some(now));
        (b.(financials := b.financials[id := paid]), Ok(paid))
  }

  function Settle(b: Books, id: nat, balanceMethod: string, discount: int, reason: string, now: Instant)
    : (Books, Result<Financial, LedgerError>)
  {
    SettleFor(b, id, balanceMethod, discount, Text.Strip(reason), now)
  }

  function SettleFor(b: Books, id: nat, balanceMethod: string, discount: int, reason: string, now: Instant)
    : (Books, Result<Financial, LedgerError>)
  {
    if discount < 0 then (b, Err(NegativeAmount))
    else if id >= |b.agenda.appts| then (b, Err(AppointmentMissing))
    else
      var f := FinancialOf(b, id);
      if f.settledAt.Some? then (b, Ok(f))
      else if discount != 0 && reason == "" then (b, Err(ReasonRequired))
      else if f.depositCents + discount > f.priceCents then (b, Err(ExceedsPrice))
      else
        var settled := f.(discountCents := discount,
                          discountReason := if discount != 0 then reason else "",
                          balanceMethod := if balanceMethod != "" then balanceMethod else f.balanceMethod,
                          settledAt := Some(now));
        (b.(financials := b.financials[id := settled]), Ok(settled))
  }

  /** `status == None` is a text that names no status. */
  function SetEntryStatus(b: Books, id: nat, status: Option<EntryStatus>): (Books, Result<nat, LedgerError>) {
    if status.None? then (b, Err(InvalidStatus))
    else if id !in b.entries then (b, Err(EntryMissing))
    else if b.entries[id].status.EntryCancelled? && !status.value.EntryCancelled? then (b, Err(EntryFrozen))
    else (b.(entries := b.entries[id := b.entries[id].(status := status.value)]), Ok(id))
  }

  datatype Step =
    | OnAgenda(step: Agenda.Step)
    | CompleteStep(id: nat)
    | DepositStep(id: nat, cents: int, now: Instant)
    | SettleStep(id: nat, balanceMethod: string, discount: int, reason: string, now: Instant)
    | StatusStep(id: nat, status: Option<EntryStatus>)
    | RulesStep(rules: seq<Commission.Rule>)

  /** Completion always goes through the service call that keeps the books. */
  ghost predicate Admissible(b: Books, step: Step) {
    step.OnAgenda? ==> Agenda.Admissible(b.agenda, step.step) && !(step.step.MoveTo? && step.step.action.Complete?)
  }

  function Apply(b: Books, step: Step): Books {
    match step
    case OnAgenda(s) => b.(agenda := Agenda.Apply(b.agenda, s))
    case CompleteStep(id) => CompleteAppointment(b, id).0
    case DepositStep(id, cents, now) => RecordDeposit(b, id, cents, now).0
    case SettleStep(id, m, d, r, now) => Settle(b, id, m, d, r, now).0
    case StatusStep(id, st) => SetEntryStatus(b, id, st).0
    case RulesStep(rules) => b.(rules := rules)
  }

  /** Each step of a run is one of the service calls above, and an agenda step leaves the money alone. */
  lemma StepIsCall(b: Books, step: Step)
    ensures var t := Apply(b, step);
      match step
      case OnAgenda(s) => t == Books(Agenda.Apply(b.agenda, s), b.financials, b.entries, b.rules)
      case CompleteStep(id) => t == CompleteAppointment(b, id).0
      case DepositStep(id, cents, now) => t == RecordDeposit(b, id, cents, now).0
      case SettleStep(id, m, d, r, now) => t == Settle(b, id, m, d, r, now).0
      case StatusStep(id, st) => t == SetEntryStatus(b, id, st).0
      case RulesStep(rules) => t == Books(b.agenda, b.financials, b.entries, rules)
  {
  }

  ghost predicate AdmissibleRun(b: Books, steps: seq<Step>)
    decreases |steps|
  {
    steps == [] || (Admissible(b, steps[0]) && AdmissibleRun(Apply(b, steps[0]), steps[1..]))
  }

  function Run(b: Books, steps: seq<Step>): Books
    decreases |steps|
  {
    if steps == [] then b else Run(Apply(b, steps[0]), steps[1..])
  }

  ghost predicate FinancialOk(b: Books, id: nat) {
    id in b.financials ==>
      && id < |b.agenda.appts|
      && var f := b.financials[id];
         && f.priceCents == b.agenda.appts[id].priceCents
         && 0 <= f.depositCents && 0 <= f.discountCents
         && f.depositCents + f.discountCents <= f.priceCents
         && BalanceDue(f) == f.priceCents - f.depositCents - f.discountCents
  }

  ghost predicate EntryOk(b: Books, id: nat) {
    && (id in b.entries <==> id < |b.agenda.appts| && b.agenda.appts[id].status == Completed)
    && (id in b.entries ==>
          && id in b.financials
          && b.entries[id].baseCents == b.agenda.appts[id].priceCents
          && 0 <= b.entries[id].commissionCents <= b.entries[id].baseCents)
  }

  ghost predicate Balanced(b: Books) {
    forall id: nat :: FinancialOk(b, id) && EntryOk(b, id)
  }

  lemma NewEntryBounds(b: Books, id: nat)
    requires id < |b.agenda.appts| && FinancialOk(b, id)
    ensures NewEntry(b, id).baseCents == b.agenda.appts[id].priceCents
    ensures 0 <= NewEntry(b, id).commissionCents <= NewEntry(b, id).baseCents
  {
    var a := b.agenda.appts[id];
    match Commission.Best(CommissionContext(a), b.rules)
    case None =>
    case Some(rule) => Commission.CommissionBounds(a.priceCents, a.priceCents, rule);
  }

  lemma AgendaKeepsBooks(b: Books, step: Agenda.Step)
    requires Balanced(b) && !(step.MoveTo? && step.action.Complete?)
    ensures Balanced(b.(agenda := Agenda.Apply(b.agenda, step)))
  {
    var t := b.(agenda := Agenda.Apply(b.agenda, step));
    Agenda.StepKeepsRows(b.agenda, step);
    forall id: nat ensures FinancialOk(t, id) && EntryOk(t, id) {
      assert FinancialOk(b, id) && EntryOk(b, id);
    }
  }

  lemma CompleteKeepsBooks(b: Books, id: nat)
    requires Balanced(b)
    ensures Balanced(CompleteAppointment(b, id).0)
  {
    var (t, res) := CompleteAppointment(b, id);
    if res.Ok? {
      assert FinancialOk(b, id) && EntryOk(b, id);
      var c := EnsureFinancial(b.(agenda := Agenda.Move(b.agenda, id, Complete).0), id);
      assert FinancialOk(c, id);
      NewEntryBounds(c, id);
      forall x: nat ensures FinancialOk(t, x) && EntryOk(t, x) {
        assert FinancialOk(b, x) && EntryOk(b, x);
      }
    }
  }

  /** The balance is what deposit and discount leave of the price, and never negative. */
  lemma BalanceIs(f: Financial)
    ensures var left := f.priceCents - f.depositCents - f.discountCents;
      BalanceDue(f) >= 0 && BalanceDue(f) >= left && (BalanceDue(f) == 0 || BalanceDue(f) == left)
  {
  }

  /** Only the financial of one appointment differs. */
  ghost predicate OnlyFinancial(b: Books, t: Books, id: nat) {
    && t.agenda == b.agenda && t.entries == b.entries && t.rules == b.rules
    && t.financials.Keys == b.financials.Keys + {id}
    && forall x :: x in b.financials && x != id ==> t.financials[x] == b.financials[x]
  }

  /** A deposit is accepted exactly while the financial is open and it fits in the balance that the deposit
      before it leaves; it replaces that deposit, and the balance moves by the difference. */
  lemma DepositIff(b: Books, id: nat, cents: int, now: Instant)
    requires Balanced(b)
    ensures var (t, res) := RecordDeposit(b, id, cents, now);
      && (res.Ok? <==>
            && cents >= 0 && id < |b.agenda.appts|
            && FinancialOf(b, id).settledAt.None?
              && cents <= BalanceDue(FinancialOf(b, id)) + FinancialOf(b, id).depositCents)
      && (res.Err? ==> t == b)
      && (res.Ok? ==>
            var f, g := FinancialOf(b, id), t.financials[id];
            && OnlyFinancial(b, t, id) && res.value == g
            && g == f.(depositCents := cents, depositAt := Some(now))
            && BalanceDue(g) == BalanceDue(f) + f.depositCents - cents)
  {
    assert FinancialOk(b, id);
  }

  /** A first settlement is accepted exactly when its discount fits in the balance that the discount before
      it leaves, and a discount has a reason; a second one changes nothing. */
  lemma SettleIff(b: Books, id: nat, balanceMethod: string, discount: int, reason: string, now: Instant)
    requires Balanced(b)
    ensures var (t, res) := SettleFor(b, id, balanceMethod, discount, reason, now);
      && (discount < 0 || id >= |b.agenda.appts| ==> res.Err? && t == b)
      && (discount >= 0 && id < |b.agenda.appts| ==>
            var f := FinancialOf(b, id);
            && (res.Ok? <==>
                  || f.settledAt.Some?
                  || (discount <= BalanceDue(f) + f.discountCents && (discount == 0 || reason != "")))
            && (res.Err? || f.settledAt.Some? ==> t == b)
            && (f.settledAt.Some? ==> res == Ok(f))
            && (res.Ok? && f.settledAt.None? ==>
                  var g := t.financials[id];
                  && OnlyFinancial(b, t, id) && res.value == g
                  && g.settledAt == Some(now) && g.discountCents == discount
                  && g.discountReason == (if discount > 0 then reason else "")
                  && g.balanceMethod == (if balanceMethod == "" then f.balanceMethod else balanceMethod)
                  && g.priceCents == f.priceCents && g.depositCents == f.depositCents && g.depositAt == f.depositAt
                  && BalanceDue(g) == BalanceDue(f) + f.discountCents - discount))
  {
    assert FinancialOk(b, id);
  }

  /** The reason is trimmed first, so a reason of white space is none. */
  lemma SettleTrimsReason(b: Books, id: nat, balanceMethod: string, discount: int, reason: string, now: Instant)
    requires Balanced(b) && discount > 0 && id < |b.agenda.appts| && FinancialOf(b, id).settledAt.None?
    ensures var (t, res) := Settle(b, id, balanceMethod, discount, reason, now);
      && (res.Ok? <==> discount <= BalanceDue(FinancialOf(b, id)) + FinancialOf(b, id).discountCents
                       && exists c :: c in reason && !Text.IsSpace(c))
      && (res.Ok? ==> t.financials[id].discountReason == Text.Strip(reason))
  {
    SettleIff(b, id, balanceMethod, discount, Text.Strip(reason), now);
    var x, y := Text.StripIs(reason);
    if x < y { assert reason[x] in reason; }
  }

  /** Rewriting one financial within the rules keeps the books. */
  lemma FinancialKeepsBooks(b: Books, t: Books, id: nat)
    requires Balanced(b) && OnlyFinancial(b, t, id) && FinancialOk(t, id)
    ensures Balanced(t)
  {
    forall x: nat ensures FinancialOk(t, x) && EntryOk(t, x) {
      assert FinancialOk(b, x) && EntryOk(b, x);
    }
  }

  lemma DepositKeepsBooks(b: Books, id: nat, cents: int, now: Instant)
    requires Balanced(b)
    ensures Balanced(RecordDeposit(b, id, cents, now).0)
  {
    DepositIff(b, id, cents, now);
    var (t, res) := RecordDeposit(b, id, cents, now);
    if res.Ok? {
      assert FinancialOk(b, id);
      FinancialKeepsBooks(b, t, id);
    }
  }

  lemma SettleKeepsBooks(b: Books, id: nat, balanceMethod: string, discount: int, reason: string, now: Instant)
    requires Balanced(b)
    ensures Balanced(SettleFor(b, id, balanceMethod, discount, reason, now).0)
  {
    SettleIff(b, id, balanceMethod, discount, reason, now);
    var (t, res) := SettleFor(b, id, balanceMethod, discount, reason, now);
    if t != b {
      assert FinancialOk(b, id);
      FinancialKeepsBooks(b, t, id);
    }
  }

  lemma StatusKeepsBooks(b: Books, id: nat, status: Option<EntryStatus>)
    requires Balanced(b)
    ensures Balanced(SetEntryStatus(b, id, status).0)
  {
    var t := SetEntryStatus(b, id, status).0;
    forall x: nat ensures FinancialOk(t, x) && EntryOk(t, x) {
      assert FinancialOk(b, x) && EntryOk(b, x);
    }
  }

  lemma RulesKeepBooks(b: Books, rules: seq<Commission.Rule>)
    requires Balanced(b)
    ensures Balanced(b.(rules := rules))
  {
    forall x: nat ensures FinancialOk(b.(rules := rules), x) && EntryOk(b.(rules := rules), x) {
      assert FinancialOk(b, x) && EntryOk(b, x);
    }
  }

  lemma StepKeepsBooks(b: Books, step: Step)
    requires Balanced(b) && Admissible(b, step)
    ensures Balanced(Apply(b, step))
  {
    match step
    case OnAgenda(s) => AgendaKeepsBooks(b, s);
    case CompleteStep(id) => CompleteKeepsBooks(b, id);
    case DepositStep(id, cents, now) => DepositKeepsBooks(b, id, cents, now);
    case SettleStep(id, m, d, r, now) => SettleKeepsBooks(b, id, m, d, Text.Strip(r), now);
    case StatusStep(id, st) => StatusKeepsBooks(b, id, st);
    case RulesStep(rules) => RulesKeepBooks(b, rules);
  }

  /** Main result: over every run of bookings, moves, catalog edits, completions, deposits,
      settlements, status changes and rule edits the books stay balanced. */
  lemma {:induction false} BooksStayBalanced(b: Books, steps: seq<Step>)
    requires Balanced(b) && AdmissibleRun(b, steps)
    ensures Balanced(Run(b, steps))
    decreases |steps|
  {
    if steps != [] {
      StepKeepsBooks(b, steps[0]);
      BooksStayBalanced(Apply(b, steps[0]), steps[1..]);
    }
  }

  lemma EmptyBooksAreBalanced(agenda: Agenda.State, rules: seq<Commission.Rule>)
    requires agenda.appts == []
    ensures Balanced(Books(agenda, map[], map[], rules))
  {
  }

  /** The rule concerns the appointment: it names no branch, and no other professional or service. */
  ghost predicate Covers(r: Commission.Rule, a: Agenda.Appointment) {
    && r.branch == None && (r.professional == None || r.professional == Some(a.professional))
    && (r.service == None || r.service == Some(a.service))
  }

  /** One that names the professional goes first, then one that names the service, then priority, then id. */
  ghost predicate Leads(r: Commission.Rule, x: Commission.Rule) {
    if r.professional.Some? != x.professional.Some? then r.professional.Some?
    else if r.service.Some? != x.service.Some? then r.service.Some?
    else if r.priority != x.priority then r.priority > x.priority
    else r.id > x.id
  }

  /** The entry a completion books: without a rule when none concerns the appointment, and otherwise with the
      amount of the one that goes before every other. */
  ghost predicate EntryFor(a: Agenda.Appointment, rules: seq<Commission.Rule>, e: Entry) {
    && e.professional == a.professional && e.service == a.service && e.baseCents == a.priceCents
    && e.status == EntryPending
    && if e.rule == None then e.commissionCents == 0 && forall r :: r in rules ==> !Covers(r, a)
       else exists r :: && r in rules && Covers(r, a) && e.rule == Some(r.id)
                        && Commission.IsAmount(a.priceCents, r, e.commissionCents)
                        && forall x :: x in rules && Covers(x, a) && x != r ==> Leads(r, x)
  }

  lemma NewEntryFor(b: Books, id: nat)
    requires id < |b.agenda.appts| && FinancialOk(b, id) && Commission.DistinctIds(b.rules)
    ensures EntryFor(b.agenda.appts[id], b.rules, NewEntry(b, id))
  {
    var a := b.agenda.appts[id];
    var ctx := CommissionContext(a);
    Commission.BestIsUniqueMaximum(ctx, b.rules);
    assert forall r :: r in b.rules ==> (Covers(r, a) <==> Commission.Matches(ctx, r));
    match Commission.Best(ctx, b.rules)
    case None =>
    case Some(rule) =>
      assert Commission.IsBest(ctx, b.rules, rule);
      Commission.AmountIff(a.priceCents, rule, NewEntry(b, id).commissionCents);
      forall x | x in b.rules && Covers(x, a) && x != rule ensures Leads(rule, x) {
        Commission.OutranksIsScopeOrder(rule, x);
      }
  }

  /** A completion succeeds exactly on an appointment in progress or completed. It opens the financial at the
      price when there is none, and books one entry; an entry there was is kept. */
  lemma CompleteIff(b: Books, id: nat)
    requires Balanced(b) && Commission.DistinctIds(b.rules)
    ensures var (t, res) := CompleteAppointment(b, id);
      && (res.Ok? <==> id < |b.agenda.appts|
                       && (b.agenda.appts[id].status.InProgress? || b.agenda.appts[id].status.Completed?))
      && (res.Err? ==> t == b)
      && (res.Ok? ==>
            var a := b.agenda.appts[id];
            && t.rules == b.rules
            && t.agenda == b.agenda.(appts := b.agenda.appts[id := a.(status := Completed)])
            && t.financials == b.financials[id := if id in b.financials then b.financials[id]
                                                  else Financial(a.priceCents, 0, 0, "", "", None, None)]
            && id in t.entries && t.entries == b.entries[id := t.entries[id]]
            && (if id in b.entries then t.entries[id] == b.entries[id] else EntryFor(a, b.rules, t.entries[id])))
  {
    Agenda.MoveIff(b.agenda, id, Complete);
    var (t, res) := CompleteAppointment(b, id);
    if res.Ok? {
      assert FinancialOk(b, id) && EntryOk(b, id);
      var a := b.agenda.appts[id];
      var c := EnsureFinancial(b.(agenda := Agenda.Move(b.agenda, id, Complete).0), id);
      assert FinancialOk(c, id);
      NewEntryFor(c, id);
      if id !in b.entries {
        assert t.entries[id] == NewEntry(c, id);
        SameEntryFor(a, c.agenda.appts[id], b.rules, t.entries[id]);
      }
    }
  }

  /** On any books, balanced or not, a completion takes the price of the appointment into the financial unless it
      is settled, and bases a new entry on the price the financial then has. */
  lemma CompletionPrices(b: Books, id: nat)
    requires id < |b.agenda.appts| && b.agenda.appts[id].status == InProgress
    ensures var (t, res) := CompleteAppointment(b, id);
      var a := b.agenda.appts[id];
      && res == Ok(id) && id in t.financials && id in t.entries
      && t.financials[id] == (if id !in b.financials then Financial(a.priceCents, 0, 0, "", "", None, None)
                              else if b.financials[id].settledAt.Some? then b.financials[id]
                              else b.financials[id].(priceCents := a.priceCents))
      && (id !in b.entries ==> t.entries[id].baseCents == t.financials[id].priceCents)
  {
    Agenda.MoveIff(b.agenda, id, Complete);
  }

  lemma SameEntryFor(a: Agenda.Appointment, x: Agenda.Appointment, rules: seq<Commission.Rule>, e: Entry)
    requires x == a.(status := x.status)
    ensures EntryFor(x, rules, e) == EntryFor(a, rules, e)
  {
    assert forall r :: Covers(r, x) == Covers(r, a);
  }

  /** The first completion books the unique best matching rule in force at that moment. */
  lemma CompletionUsesBestRule(b: Books, id: nat, rule: Commission.Rule)
    requires Balanced(b) && Commission.DistinctIds(b.rules)
    requires id < |b.agenda.appts| && b.agenda.appts[id].status == InProgress
    requires rule in b.rules && Covers(rule, b.agenda.appts[id])
    requires forall x :: x in b.rules && Covers(x, b.agenda.appts[id]) && x != rule ==> Leads(rule, x)
    ensures var (t, res) := CompleteAppointment(b, id);
      var a := b.agenda.appts[id];
      && res == Ok(id) && id !in b.entries && id in t.entries
      && var e := t.entries[id];
         && e == Entry(a.professional, a.service, Some(rule.id), a.priceCents, e.commissionCents, EntryPending)
         && Commission.IsAmount(a.priceCents, rule, e.commissionCents)
  {
    assert FinancialOk(b, id) && EntryOk(b, id);
    CompleteIff(b, id);
  }

  /** Any named status is stored, except that a cancelled entry takes no other; nothing else changes. */
  lemma SetEntryStatusIff(b: Books, id: nat, status: Option<EntryStatus>)
    ensures var (t, res) := SetEntryStatus(b, id, status);
      && (res.Ok? <==> id in b.entries && status.Some?
                       && (b.entries[id].status == EntryCancelled ==> status == Some(EntryCancelled)))
      && t == if res.Ok? then b.(entries := b.entries[id := b.entries[id].(status := status.value)]) else b
  {
  }

  /** What `b` has settled or cancelled for the appointment is kept in `t`, and the amounts of its entry. */
  ghost predicate Freezes(b: Books, t: Books, id: nat) {
    && (id in b.financials && b.financials[id].settledAt.Some? ==>
          id in t.financials && t.financials[id] == b.financials[id])
    && (id in b.entries ==>
          && id in t.entries
          && t.entries[id].(status := b.entries[id].status) == b.entries[id]
          && (b.entries[id].status.EntryCancelled? ==> t.entries[id] == b.entries[id]))
  }

  lemma CompleteFreezes(b: Books, done: nat, id: nat)
    ensures Freezes(b, CompleteAppointment(b, done).0, id)
  {
  }

  lemma DepositFreezes(b: Books, at: nat, cents: int, now: Instant, id: nat)
    requires Balanced(b)
    ensures Freezes(b, RecordDeposit(b, at, cents, now).0, id)
  {
    DepositIff(b, at, cents, now);
  }

  lemma SettleFreezes(b: Books, at: nat, balanceMethod: string, discount: int, reason: string, now: Instant, id: nat)
    requires Balanced(b)
    ensures Freezes(b, SettleFor(b, at, balanceMethod, discount, reason, now).0, id)
  {
    SettleIff(b, at, balanceMethod, discount, reason, now);
  }

  lemma StatusFreezes(b: Books, at: nat, status: Option<EntryStatus>, id: nat)
    ensures Freezes(b, SetEntryStatus(b, at, status).0, id)
  {
  }

  lemma StepFreezes(b: Books, step: Step, id: nat)
    requires Balanced(b) && Admissible(b, step)
    ensures Freezes(b, Apply(b, step), id)
  {
    match step
    case OnAgenda(_) =>
    case CompleteStep(done) => CompleteFreezes(b, done, id);
    case DepositStep(at, cents, now) => DepositFreezes(b, at, cents, now, id);
    case SettleStep(at, m, d, r, now) => SettleFreezes(b, at, m, d, Text.Strip(r), now, id);
    case StatusStep(at, status) => StatusFreezes(b, at, status, id);
    case RulesStep(_) =>
  }

  /** A settled financial never changes again; a commission entry keeps its amounts, and a cancelled
      entry keeps everything. */
  lemma {:induction false} SettledIsFinal(b: Books, steps: seq<Step>, id: nat)
    requires Balanced(b) && AdmissibleRun(b, steps)
    ensures Freezes(b, Run(b, steps), id)
    decreases |steps|
  {
    if steps != [] {
      StepKeepsBooks(b, steps[0]);
      StepFreezes(b, steps[0], id);
      SettledIsFinal(Apply(b, steps[0]), steps[1..], id);
    }
  }
}
