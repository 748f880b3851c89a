/** The scheduling services as methods that update the tenant's rows in place:
    apps/scheduling/services.py and apps/scheduling/finance.py. Every method is atomic; a raise
    leaves the rows as they were. */
module Scheduling {
  import opened Prelude
  import opened BookingRules
  import opened Agenda
  import Commission
  import Ledger
  import Slots
  import Text

  class SchedulingService {
    var catalog: Catalog
    var appointments: seq<Appointment>
    var financials: map<nat, Ledger.Financial>
    var entries: map<nat, Ledger.Entry>
    var rules: seq<Commission.Rule>

    ghost function Books(): Ledger.Books
      reads this
    {
      Ledger.Books(State(catalog, appointments), financials, entries, rules)
    }

    function Rows(): State
      reads this
    {
      State(catalog, appointments)
    }

    constructor (c: Catalog)
      ensures Books() == Ledger.Books(State(c, []), map[], map[], [])
    {
      catalog, appointments, financials, entries, rules := c, [], map[], map[], [];
    }

    method AssertNoAppointmentConflict(professional: Id, footprint: Span) returns (clear: bool)
      ensures clear == NoConflict(Rows(), professional, footprint)
    {
      for i := 0 to |appointments|
        invariant forall a :: a in appointments[..i] && Holds(a, professional) ==>
            !footprint.Overlaps(Footprint(catalog, a))
      {
        var appt := appointments[i];
        assert appt in appointments;
        if Holds(appt, professional) && footprint.Overlaps(Footprint(catalog, appt)) {
          return false;
        }
        assert appointments[..i + 1] == appointments[..i] + [appt];
      }
      assert appointments[..|appointments|] == appointments;
      clear := true;
    }

    method AssertSlotFree(professional: Id, service: Id, nominal: Span) returns (free: bool)
      requires professional in catalog.professionals && service in catalog.services
      ensures free == SlotFree(Rows(), professional, service, nominal)
      ensures var svc := catalog.services[service];
        var before := nominal.start - svc.bufferBefore * MINUTE;
        var after := nominal.end + svc.bufferAfter * MINUTE;
        var offset := catalog.professionals[professional].utcOffset;
        free <==> InOpenHours(catalog, professional, offset, nominal.start, nominal.end)
                  && InNoAbsence(catalog, professional, offset, before, after)
                  && MeetsNoAppointment(Rows(), professional, before, after)
    {
      SlotFreeIff(Rows(), professional, service, nominal.start, nominal.end);
      var offset := catalog.professionals[professional].utcOffset;
      var svc := catalog.services[service];
      if !FitsBusinessHours(catalog, professional, offset, nominal) {
        return false;
      }
      var footprint := nominal.Expand(svc.bufferBefore, svc.bufferAfter);
      if !ClearOfBlocksAndTimeOff(catalog, professional, offset, footprint) {
        return false;
      }
      free := AssertNoAppointmentConflict(professional, footprint);
    }

    method CreateAppointment(now: Instant, r: Request) returns (res: Result<nat, BookingError>)
      modifies this`appointments
      ensures (Rows(), res) == Create(old(Rows()), now, r)
    {
      var existing := FindKey(appointments, r.key);
      if existing.Some? {
        if !SameRequest(appointments[existing.value], r) {
          return Err(DuplicateIdempotencyKey);
        }
        return Ok(existing.value);
      }
      if r.professional !in catalog.professionals || !catalog.professionals[r.professional].active {
        return Err(ProfessionalNotFound);
      }
      if r.customer !in catalog.customers || !catalog.customers[r.customer].active {
        return Err(CustomerNotFound);
      }
      if InPast(r.startsAt, now) {
        return Err(AppointmentInPast);
      }
      if !CustomerAllowed(catalog.customers[r.customer], r.isStaff) {
        return Err(CustomerRestricted);
      }
      if !Bookable(catalog, r.professional, r.service) {
        return Err(ServiceNotBookable);
      }
      var svc := catalog.services[r.service];
      var endsAt := ResolvedEnd(r, svc);
      if !EndsMatchDuration(r.startsAt, endsAt, svc.durationMinutes) {
        return Err(DurationMismatch);
      }
      if r.priceCents.Some? && r.priceCents.value != svc.priceCents {
        return Err(PriceMismatch);
      }
      var free := AssertSlotFree(r.professional, r.service, Span(r.startsAt, endsAt));
      if !free {
        return Err(SlotUnavailable);
      }
      var status := if r.explicitConfirmation then Pending else Confirmed;
      var appt := Appointment(r.professional, r.customer, r.service, r.startsAt, endsAt, svc.priceCents,
                              status, r.source, r.explicitConfirmation, r.notes, r.key);
      res := Ok(|appointments|);
      appointments := appointments + [appt];
    }

    method Transition(id: nat, action: Action) returns (res: Result<nat, BookingError>)
      modifies this`appointments
      ensures (Rows(), res) == Move(old(Rows()), id, action)
    {
      if id >= |appointments| {
        return Err(AppointmentNotFound);
      }
      var appt := appointments[id];
      if appt.status == Target(action) {
        return Ok(id);
      }
      if appt.status !in AllowedFrom(action) {
        return Err(InvalidTransition);
      }
      appointments := appointments[id := appt.(status := Target(action))];
      res := Ok(id);
    }

    method EnsureFinancialOnCompleted(id: nat)
      requires id < |appointments|
      modifies this`financials
      ensures Books() == Ledger.EnsureFinancial(old(Books()), id)
    {
      var price := appointments[id].priceCents;
      if id !in financials {
        financials := financials[id := Ledger.Opened(price)];
        return;
      }
      var fin := financials[id];
      if fin.settledAt.None? && fin.priceCents != price {
        fin := fin.(priceCents := price);
      }
      financials := financials[id := fin];
    }

    method CreateCommissionEntryForCompleted(id: nat)
      requires id < |appointments|
      modifies this`entries
      ensures Books() == Ledger.EnsureEntry(old(Books()), id)
    {
      var appt := appointments[id];
      if appt.status != Completed || id in entries {
        return;
      }
      var base: int := if id in financials then financials[id].priceCents else appt.priceCents;
      var best := Commission.ResolveBest(Commission.Context(None, appt.professional, Some(appt.service)), rules);
      var cents, ruleId := 0, None;
      if best.Some? {
        cents := Commission.CommissionCents(base, best.value);
        ruleId := Some(best.value.id);
      }
      entries := entries[id := Ledger.Entry(appt.professional, appt.service, ruleId, base, cents, Ledger.EntryPending)];
    }

    method CompleteAppointment(id: nat) returns (res: Result<nat, Ledger.LedgerError>)
      modifies this
      ensures (Books(), res) == Ledger.CompleteAppointment(old(Books()), id)
    {
      var moved := Transition(id, Complete);
      if moved.Err? {
        return Err(Ledger.Booking(moved.error));
      }
      EnsureFinancialOnCompleted(id);
      CreateCommissionEntryForCompleted(id);
      res := Ok(id);
    }

    method RecordDeposit(id: nat, cents: int, now: Instant) returns (res: Result<Ledger.Financial, Ledger.LedgerError>)
      modifies this`financials
      ensures (Books(), res) == Ledger.RecordDeposit(old(Books()), id, cents, now)
    {
      if cents < 0 {
        return Err(Ledger.NegativeAmount);
      }
      if id >= |appointments| {
        return Err(Ledger.AppointmentMissing);
      }
      var fin := if id in financials then financials[id] else Ledger.Opened(appointments[id].priceCents);
      if fin.settledAt.Some? {
        return Err(Ledger.AlreadySettled);
      }
      if cents + fin.discountCents > fin.priceCents {
        return Err(Ledger.ExceedsPrice);
      }
      fin := fin.(depositCents := cents, depositAt := Some(now));
      financials := financials[id := fin];
      res := Ok(fin);
    }

    method SettleFinancial(id: nat, balanceMethod: string, discount: int, reason: string, now: Instant)
      returns (res: Result<Ledger.Financial, Ledger.LedgerError>)
      modifies this`financials
      ensures (Books(), res) == Ledger.Settle(old(Books()), id, balanceMethod, discount, reason, now)
    {
      if discount < 0 {
        return Err(Ledger.NegativeAmount);
      }
      if id >= |appointments| {
        return Err(Ledger.AppointmentMissing);
      }
      var fin := if id in financials then financials[id] else Ledger.Opened(appointments[id].priceCents);
      if fin.settledAt.Some? {
        return Ok(fin);
      }
      if discount != 0 && Text.Strip(reason) == "" {
        return Err(Ledger.ReasonRequired);
      }
      if fin.depositCents + discount > fin.priceCents {
        return Err(Ledger.ExceedsPrice);
      }
      fin := fin.(discountCents := discount, discountReason := if discount != 0 then Text.Strip(reason) else "");
      if balanceMethod != "" {
        fin := fin.(balanceMethod := balanceMethod);
      }
      fin := fin.(settledAt := Some(now));
      financials := financials[id := fin];
      res := Ok(fin);
    }

    method SetCommissionEntryStatus(id: nat, status: Option<Ledger.EntryStatus>)
        returns (res: Result<nat, Ledger.LedgerError>)
      modifies this`entries
      ensures (Books(), res) == Ledger.SetEntryStatus(old(Books()), id, status)
    {
      if status.None? {
        return Err(Ledger.InvalidStatus);
      }
      if id !in entries {
        return Err(Ledger.EntryMissing);
      }
      var entry := entries[id];
      if entry.status.EntryCancelled? && status.value != entry.status {
        return Err(Ledger.EntryFrozen);
      }
      entries := entries[id := entry.(status := status.value)];
      res := Ok(id);
    }

    /** The free starts of one business-hours row: the cursor walks the row's grid. */
    method ListRow(now: Instant, q: Slots.Query, h: BusinessHours) returns (slots: seq<Instant>)
      requires Slots.QueryError(catalog, q).None?
      requires Slots.RowTerminates(h, Slots.Length(catalog, q), q.interval * MINUTE)
      ensures var offset := catalog.professionals[q.professional].utcOffset;
        slots == Slots.GridRow(Slots.FreeStart(Rows(), now, q.professional, q.service), At(q.day, h.startsAt, offset),
                               At(q.day, h.endsAt, offset), Slots.Length(catalog, q), q.interval * MINUTE)
    {
      var offset := catalog.professionals[q.professional].utcOffset;
      var length, step := Slots.Length(catalog, q), q.interval * MINUTE;
      var duration := catalog.services[q.service].durationMinutes;
      var cursor, dayEnd := At(q.day, h.startsAt, offset), At(q.day, h.endsAt, offset);
      ghost var free := Slots.FreeStart(Rows(), now, q.professional, q.service);
      ghost var all := Slots.GridRow(free, cursor, dayEnd, length, step);
      slots := [];
      while cursor + length <= dayEnd
        invariant step > 0 || cursor + length > dayEnd
        invariant slots + Slots.GridRow(free, cursor, dayEnd, length, step) == all
        decreases if cursor + length > dayEnd then 0 else dayEnd - cursor - length + 1
      {
        var ok := !InPast(cursor, now);
        if ok {
          ok := AssertSlotFree(q.professional, q.service, Span(cursor, ComputeEndsAt(cursor, duration)));
        }
        assert ok == free(cursor);
        if ok {
          slots := slots + [cursor];
        }
        cursor := cursor + step;
      }
    }

    method ListRows(now: Instant, q: Slots.Query, hours: seq<BusinessHours>) returns (slots: seq<Instant>)
      requires Slots.QueryError(catalog, q).None?
      requires forall h :: h in hours ==> Slots.RowTerminates(h, Slots.Length(catalog, q), q.interval * MINUTE)
      ensures slots == Slots.GridRows(Slots.FreeStart(Rows(), now, q.professional, q.service), hours, q.day,
                                      catalog.professionals[q.professional].utcOffset, Slots.Length(catalog, q),
                                      q.interval * MINUTE)
    {
      ghost var offset := catalog.professionals[q.professional].utcOffset;
      ghost var length, step := Slots.Length(catalog, q), q.interval * MINUTE;
      ghost var free := Slots.FreeStart(Rows(), now, q.professional, q.service);
      ghost var all := Slots.GridRows(free, hours, q.day, offset, length, step);
      slots := [];
      for i := 0 to |hours|
        invariant slots + Slots.GridRows(free, hours[i..], q.day, offset, length, step) == all
      {
        assert hours[i..][0] == hours[i] && hours[i..][1..] == hours[i + 1..];
        var row := ListRow(now, q, hours[i]);
        slots := slots + row;
      }
      assert hours[|hours|..] == [];
    }

    /** The day's free starts, row by row. The precondition is exactly "the loop ends". */
    method ListAvailabilitySlots(now: Instant, q: Slots.Query) returns (res: Result<seq<Instant>, BookingError>)
      requires Slots.Terminates(catalog, q)
      ensures res == Slots.ListSlots(Rows(), now, q)
    {
      if q.professional !in catalog.professionals || !catalog.professionals[q.professional].active {
        return Err(ProfessionalNotFound);
      }
      if !Bookable(catalog, q.professional, q.service) {
        return Err(ServiceNotBookable);
      }
      var slots := ListRows(now, q, HoursFor(catalog, q.professional, Weekday(q.day)));
      res := Ok(slots);
    }
  }
}
