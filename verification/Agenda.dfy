/** The agenda of one tenant: booking and the appointment state machine, as values.
    apps/scheduling/services.py. Ids stand for primary keys; an appointment's id is its index. */
module Agenda {
  import opened Prelude
  import opened BookingRules

  type Id = nat

  /** The professional's time zone is a fixed offset from UTC. */
  datatype Professional = Professional(active: bool, utcOffset: int)
  datatype Restriction = Restriction(requiresDeposit: bool, manualBookingOnly: bool)
  datatype Customer = Customer(active: bool, restriction: Option<Restriction>)
  datatype Service = Service(active: bool, durationMinutes: nat, priceCents: nat, bufferBefore: nat, bufferAfter: nat)
  /** `professional == None` is a row of the tenant; times are microseconds after local midnight. */
  datatype BusinessHours = BusinessHours(professional: Option<Id>, weekday: int, startsAt: int, endsAt: int)
  datatype Absence = Absence(professional: Id, span: Span)
  datatype RecurringTimeOff = RecurringTimeOff(professional: Id, weekday: int, startsAt: int, endsAt: int)

  datatype Catalog = Catalog(
    professionals: map<Id, Professional>,
    customers: map<Id, Customer>,
    services: map<Id, Service>,
    enabled: set<(Id, Id)>,
    hours: seq<BusinessHours>,
    blocks: seq<Absence>,
    timeOffs: seq<Absence>,
    recurring: seq<RecurringTimeOff>)

  datatype Appointment = Appointment(
    professional: Id, customer: Id, service: Id, startsAt: Instant, endsAt: Instant, priceCents: nat,
    status: Status, source: string, explicitConfirmation: bool, notes: string, key: string)

  datatype State = State(catalog: Catalog, appts: seq<Appointment>)

  datatype Request = Request(
    customer: Id, professional: Id, service: Id, startsAt: Instant, endsAt: Option<Instant>,
    priceCents: Option<int>, source: string, key: string, notes: string,
    explicitConfirmation: bool, isStaff: bool)

  datatype BookingError =
    | DuplicateIdempotencyKey | ProfessionalNotFound | CustomerNotFound | AppointmentInPast
    | CustomerRestricted | ServiceNotBookable | DurationMismatch | PriceMismatch | SlotUnavailable
    | AppointmentNotFound | InvalidTransition

  /** The check constraints of the catalog tables (apps/scheduling/models.py). */
  ghost predicate CatalogOk(c: Catalog) {
    && (forall id :: id in c.services ==> 5 <= c.services[id].durationMinutes <= 480)
    && (forall h :: h in c.hours ==> 0 <= h.startsAt < h.endsAt < DAY)
    && (forall r :: r in c.recurring ==> 0 <= r.startsAt < r.endsAt < DAY)
  }

  // ---- local time -------------------------------------------------------------------------

  function LocalDay(t: Instant, offset: int): int { (t + offset) / DAY }

  function LocalTime(t: Instant, offset: int): int { (t + offset) % DAY }

  /** The instant of a wall-clock time on a local day. */
  function At(day: int, time: int, offset: int): Instant { day * DAY + time - offset }

  /** Sunday is 0; day 0 is Thursday, 1 January 1970. */
  function Weekday(day: int): int { (day + 4) % 7 }

  function RowsOf(hours: seq<BusinessHours>, who: Option<Id>, weekday: int): seq<BusinessHours> {
    if hours == [] then [] else
      (if hours[0].professional == who && hours[0].weekday == weekday then [hours[0]] else [])
      + RowsOf(hours[1..], who, weekday)
  }

  /** Rows of the professional, or the tenant's rows when the professional has none that day. */
  function HoursFor(c: Catalog, professional: Id, weekday: int): seq<BusinessHours> {
    var own := RowsOf(c.hours, Some(professional), weekday);
    if own != [] then own else RowsOf(c.hours, None, weekday)
  }

  // ---- the guards of a booking ------------------------------------------------------------

  predicate FitsBusinessHours(c: Catalog, professional: Id, offset: int, nominal: Span) {
    && LocalDay(nominal.start, offset) == LocalDay(nominal.end, offset)
    && exists h :: h in HoursFor(c, professional, Weekday(LocalDay(nominal.start, offset)))
                   && h.startsAt <= LocalTime(nominal.start, offset)
                   && LocalTime(nominal.end, offset) <= h.endsAt
  }

  predicate ClearOf(absences: seq<Absence>, professional: Id, footprint: Span) {
    forall a :: a in absences && a.professional == professional ==> !footprint.Overlaps(a.span)
  }

  function RecurringSpan(r: RecurringTimeOff, day: int, offset: int): Span {
    Span(At(day, r.startsAt, offset), At(day, r.endsAt, offset))
  }

  /** Recurring time off is consulted only when the footprint stays within one local day. */
  predicate ClearOfRecurring(c: Catalog, professional: Id, offset: int, footprint: Span) {
    var day := LocalDay(footprint.start, offset);
    day == LocalDay(footprint.end, offset) ==>
      forall r :: r in c.recurring && r.professional == professional && r.weekday == Weekday(day)
        ==> !footprint.Overlaps(RecurringSpan(r, day, offset))
  }

  predicate ClearOfBlocksAndTimeOff(c: Catalog, professional: Id, offset: int, footprint: Span) {
    && ClearOf(c.blocks, professional, footprint)
    && ClearOf(c.timeOffs, professional, footprint)
    && ClearOfRecurring(c, professional, offset, footprint)
  }

  function Nominal(a: Appointment): Span { Span(a.startsAt, a.endsAt) }

  /** The footprint under the buffers the service has now. */
  function Footprint(c: Catalog, a: Appointment): Span {
    if a.service in c.services then
      Nominal(a).Expand(c.services[a.service].bufferBefore, c.services[a.service].bufferAfter)
    else Nominal(a)
  }

  predicate Holds(a: Appointment, professional: Id) {
    a.professional == professional && a.status in SLOT_BLOCKING
  }

  predicate NoConflict(s: State, professional: Id, footprint: Span) {
    forall a :: a in s.appts && Holds(a, professional) ==> !footprint.Overlaps(Footprint(s.catalog, a))
  }

  predicate CustomerAllowed(customer: Customer, isStaff: bool) {
    match customer.restriction
    case None => true
    case Some(r) => isStaff || (!r.manualBookingOnly && !r.requiresDeposit)
  }

  predicate Bookable(c: Catalog, professional: Id, service: Id) {
    (professional, service) in c.enabled && service in c.services && c.services[service].active
  }

  /** The three guards that raise SlotUnavailableError, shared with the slot list. */
  predicate SlotFree(s: State, professional: Id, service: Id, nominal: Span)
    requires professional in s.catalog.professionals && service in s.catalog.services
  {
    var offset := s.catalog.professionals[professional].utcOffset;
    var svc := s.catalog.services[service];
    var footprint := nominal.Expand(svc.bufferBefore, svc.bufferAfter);
    && FitsBusinessHours(s.catalog, professional, offset, nominal)
    && ClearOfBlocksAndTimeOff(s.catalog, professional, offset, footprint)
    && NoConflict(s, professional, footprint)
  }

  function ResolvedEnd(r: Request, svc: Service): Instant {
    match r.endsAt
    case Some(e) => e
    case None => ComputeEndsAt(r.startsAt, svc.durationMinutes)
  }

  /** The first guard a request with a fresh key fails, in the order of the code. */
  function Refusal(s: State, now: Instant, r: Request): Option<BookingError> {
    var c := s.catalog;
    if r.professional !in c.professionals || !c.professionals[r.professional].active then Some(ProfessionalNotFound)
    else if r.customer !in c.customers || !c.customers[r.customer].active then Some(CustomerNotFound)
    else if InPast(r.startsAt, now) then Some(AppointmentInPast)
    else if !CustomerAllowed(c.customers[r.customer], r.isStaff) then Some(CustomerRestricted)
    else if !Bookable(c, r.professional, r.service) then Some(ServiceNotBookable)
    else
      var svc := c.services[r.service];
      if !EndsMatchDuration(r.startsAt, ResolvedEnd(r, svc), svc.durationMinutes) then Some(DurationMismatch)
      else if r.priceCents.Some? && r.priceCents.value != svc.priceCents then Some(PriceMismatch)
      else if !SlotFree(s, r.professional, r.service, Span(r.startsAt, ResolvedEnd(r, svc))) then Some(SlotUnavailable)
      else None
  }

  function FindKey(appts: seq<Appointment>, key: string): (r: Option<nat>)
    ensures r.Some? ==> r.value < |appts| && appts[r.value].key == key
    ensures r.None? <==> forall a :: a in appts ==> a.key != key
  {
    if appts == [] then None
    else match FindKey(appts[..|appts| - 1], key)
      case Some(i) => Some(i)
      case None => if appts[|appts| - 1].key == key then Some(|appts| - 1) else None
  }

  predicate SameRequest(a: Appointment, r: Request) {
    && a.customer == r.customer && a.professional == r.professional && a.service == r.service
    && a.startsAt == r.startsAt && (r.endsAt.None? || a.endsAt == r.endsAt.value)
    && a.source == r.source && a.notes == r.notes
  }

  function NewAppointment(c: Catalog, r: Request): Appointment
    requires r.service in c.services
  {
    var svc := c.services[r.service];
    Appointment(r.professional, r.customer, r.service, r.startsAt, ResolvedEnd(r, svc), svc.priceCents,
                if r.explicitConfirmation then Pending else Confirmed,
                r.source, r.explicitConfirmation, r.notes, r.key)
  }

  function Create(s: State, now: Instant, r: Request): (State, Result<nat, BookingError>) {
    match FindKey(s.appts, r.key)
    case Some(i) =>
      (s, if SameRequest(s.appts[i], r) then Ok(i) else Err(DuplicateIdempotencyKey))
    case None =>
      match Refusal(s, now, r)
      case Some(e) => (s, Err(e))
      case None => (s.(appts := s.appts + [NewAppointment(s.catalog, r)]), Ok(|s.appts|))
  }

  // ---- the appointment state machine ------------------------------------------------------

  function Move(s: State, id: nat, action: Action): (State, Result<nat, BookingError>) {
    if id >= |s.appts| then (s, Err(AppointmentNotFound))
    else if s.appts[id].status == Target(action) then (s, Ok(id))
    else if s.appts[id].status !in AllowedFrom(action) then (s, Err(InvalidTransition))
    else (s.(appts := s.appts[id := s.appts[id].(status := Target(action))]), Ok(id))
  }

  datatype Step =
    | Book(now: Instant, request: Request)
    | MoveTo(id: nat, action: Action)
    | Configure(catalog: Catalog)

  /** Administrators may change the catalog freely; a service that is in use cannot be deleted. */
  ghost predicate Admissible(s: State, step: Step) {
    step.Configure? ==> CatalogOk(step.catalog) && s.catalog.services.Keys <= step.catalog.services.Keys
  }

  function Apply(s: State, step: Step): State {
    match step
    case Book(now, r) => Create(s, now, r).0
    case MoveTo(id, action) => Move(s, id, action).0
    case Configure(c) => s.(catalog := c)
  }

  ghost predicate AdmissibleRun(s: State, steps: seq<Step>)
    decreases |steps|
  {
    steps == [] || (Admissible(s, steps[0]) && AdmissibleRun(Apply(s, steps[0]), steps[1..]))
  }

  function Run(s: State, steps: seq<Step>): State
    decreases |steps|
  {
    if steps == [] then s else Run(Apply(s, steps[0]), steps[1..])
  }

  // ---- safety -----------------------------------------------------------------------------

  ghost predicate WellFormed(s: State) {
    && CatalogOk(s.catalog)
    && (forall a :: a in s.appts ==> a.startsAt < a.endsAt && a.service in s.catalog.services)
    && (forall i, j :: 0 <= i < j < |s.appts| ==> s.appts[i].key != s.appts[j].key)
  }

  ghost predicate Rivals(s: State, i: nat, j: nat) {
    && i < |s.appts| && j < |s.appts| && i != j
    && s.appts[i].professional == s.appts[j].professional
    && s.appts[i].status in SLOT_BLOCKING && s.appts[j].status in SLOT_BLOCKING
  }

  ghost predicate NoDoubleBooking(s: State) {
    forall i: nat, j: nat :: Rivals(s, i, j) ==> !Nominal(s.appts[i]).Overlaps(Nominal(s.appts[j]))
  }

  ghost predicate FootprintsDisjoint(s: State) {
    forall i: nat, j: nat :: Rivals(s, i, j) ==>
        !Footprint(s.catalog, s.appts[i]).Overlaps(Footprint(s.catalog, s.appts[j]))
  }

  /** The room two appointments need between them, in minutes: after the first and before the second. */
  function Gap(c: Catalog, first: Id, second: Id): nat
    requires first in c.services && second in c.services
  {
    c.services[first].bufferAfter + c.services[second].bufferBefore
  }

  /** No pair of services needs more room in `d` than in `c`. */
  ghost predicate WidensNoGap(c: Catalog, d: Catalog) {
    forall x, y :: x in c.services && y in c.services && x in d.services && y in d.services ==>
        Gap(d, x, y) <= Gap(c, x, y)
  }

  ghost predicate KeepsGaps(s: State, step: Step) { step.Configure? ==> WidensNoGap(s.catalog, step.catalog) }

  ghost predicate NoGapWidened(s: State, steps: seq<Step>)
    decreases |steps|
  {
    steps == [] || (KeepsGaps(s, steps[0]) && NoGapWidened(Apply(s, steps[0]), steps[1..]))
  }

  // ---- what a slot needs, spelled out on the rows -------------------------------------------------

  /** The row is in force for the professional on the local day: a row of that weekday, of the professional, or
      of the tenant when the professional has none that weekday. */
  ghost predicate InForceOn(c: Catalog, p: Id, d: int, h: BusinessHours) {
    && h in c.hours && h.weekday == (d + 4) % 7
    && (h.professional == Some(p)
        || (h.professional == None && forall x :: x in c.hours && x.professional == Some(p) ==> x.weekday != h.weekday))
  }

  /** Both ends lie on one local day, within one row in force that day. */
  ghost predicate InOpenHours(c: Catalog, p: Id, offset: int, start: Instant, end: Instant) {
    var d := (start + offset) / DAY;
    && (end + offset) / DAY == d
    && exists h :: InForceOn(c, p, d, h) && d * DAY + h.startsAt <= start + offset && end + offset <= d * DAY + h.endsAt
  }

  /** No block and no time off of the professional meets the footprint, nor, when the footprint stays within
      one local day, any recurring time off of that weekday. */
  ghost predicate InNoAbsence(c: Catalog, p: Id, offset: int, start: Instant, end: Instant) {
    var d := (start + offset) / DAY;
    && (forall x :: x in c.blocks && x.professional == p ==> x.span.end <= start || end <= x.span.start)
    && (forall x :: x in c.timeOffs && x.professional == p ==> x.span.end <= start || end <= x.span.start)
    && ((end + offset) / DAY == d ==>
          forall x :: x in c.recurring && x.professional == p && x.weekday == (d + 4) % 7 ==>
            d * DAY + x.endsAt - offset <= start || end <= d * DAY + x.startsAt - offset)
  }

  /** Every appointment of the professional that is neither cancelled nor a no-show ends, with its service's
      buffer, by the start of the footprint, or begins, with its buffer, at its end or later. */
  ghost predicate MeetsNoAppointment(s: State, p: Id, start: Instant, end: Instant) {
    forall a :: a in s.appts && a.professional == p && a.status != Cancelled && a.status != NoShow ==>
      var used := s.catalog.services;
      || a.endsAt + (if a.service in used then used[a.service].bufferAfter else 0) * MINUTE <= start
      || end <= a.startsAt - (if a.service in used then used[a.service].bufferBefore else 0) * MINUTE
  }

  lemma {:induction false} RowsOfIff(hours: seq<BusinessHours>, who: Option<Id>, weekday: int, h: BusinessHours)
    ensures h in RowsOf(hours, who, weekday) <==> h in hours && h.professional == who && h.weekday == weekday
  {
    if hours != [] {
      RowsOfIff(hours[1..], who, weekday, h);
      assert hours == [hours[0]] + hours[1..];
    }
  }

  lemma HoursForIff(c: Catalog, p: Id, d: int, h: BusinessHours)
    ensures h in HoursFor(c, p, Weekday(d)) <==> InForceOn(c, p, d, h)
  {
    var own := RowsOf(c.hours, Some(p), Weekday(d));
    forall x ensures x in own <==> x in c.hours && x.professional == Some(p) && x.weekday == Weekday(d) {
      RowsOfIff(c.hours, Some(p), Weekday(d), x);
    }
    assert own != [] ==> own[0] in own;
    RowsOfIff(c.hours, None, Weekday(d), h);
  }

  lemma TimeOfDay(t: int)
    ensures t == (t / DAY) * DAY + t % DAY
  {
  }

  lemma FitsIff(c: Catalog, p: Id, offset: int, start: Instant, end: Instant)
    ensures FitsBusinessHours(c, p, offset, Span(start, end)) <==> InOpenHours(c, p, offset, start, end)
  {
    var d := (start + offset) / DAY;
    TimeOfDay(start + offset);
    TimeOfDay(end + offset);
    forall h ensures h in HoursFor(c, p, Weekday(d)) <==> InForceOn(c, p, d, h) { HoursForIff(c, p, d, h); }
  }

  /** The three guards of a slot, read off the rows. */
  lemma SlotFreeIff(s: State, p: Id, service: Id, start: Instant, end: Instant)
    requires p in s.catalog.professionals && service in s.catalog.services
    ensures SlotFree(s, p, service, Span(start, end)) <==>
      var c, offset := s.catalog, s.catalog.professionals[p].utcOffset;
      var before := start - c.services[service].bufferBefore * MINUTE;
      var after := end + c.services[service].bufferAfter * MINUTE;
      && InOpenHours(c, p, offset, start, end)
      && InNoAbsence(c, p, offset, before, after)
      && MeetsNoAppointment(s, p, before, after)
  {
    FitsIff(s.catalog, p, s.catalog.professionals[p].utcOffset, start, end);
    assert forall x: Status :: x in SLOT_BLOCKING <==> x != Cancelled && x != NoShow;
  }

  /** What an accepted booking has passed. */
  lemma Accepted(s: State, now: Instant, r: Request)
    requires CatalogOk(s.catalog) && FindKey(s.appts, r.key).None? && Refusal(s, now, r).None?
    ensures r.professional in s.catalog.professionals && r.service in s.catalog.services
    ensures var a := NewAppointment(s.catalog, r);
      && a.startsAt < a.endsAt && a.status in {Pending, Confirmed}
      && SlotFree(s, r.professional, r.service, Nominal(a))
      && NoConflict(s, r.professional, Footprint(s.catalog, a))
      && InOpenHours(s.catalog, r.professional, s.catalog.professionals[r.professional].utcOffset, a.startsAt, a.endsAt)
  {
    var a := NewAppointment(s.catalog, r);
    SlotFreeIff(s, r.professional, r.service, a.startsAt, a.endsAt);
  }

  /** A request with a fresh key is booked exactly when all of this holds, in no particular order; then one
      row is added, at the price of the service. */
  lemma BookedIff(s: State, now: Instant, r: Request)
    requires FindKey(s.appts, r.key).None?
    ensures Create(s, now, r).1.Ok? <==>
      var c := s.catalog;
      && r.professional in c.professionals && c.professionals[r.professional].active
      && r.customer in c.customers && c.customers[r.customer].active
      && now - MINUTE <= r.startsAt
      && (r.isStaff || c.customers[r.customer].restriction == None
          || c.customers[r.customer].restriction == Some(Restriction(false, false)))
      && (r.professional, r.service) in c.enabled && r.service in c.services && c.services[r.service].active
      && var svc, offset := c.services[r.service], c.professionals[r.professional].utcOffset;
         var planned := r.startsAt + svc.durationMinutes * MINUTE;
         var end := if r.endsAt.Some? then r.endsAt.value else planned;
         var before, after := r.startsAt - svc.bufferBefore * MINUTE, end + svc.bufferAfter * MINUTE;
         && planned - MINUTE <= end <= planned + MINUTE
         && (r.priceCents.None? || r.priceCents.value == svc.priceCents)
         && InOpenHours(c, r.professional, offset, r.startsAt, end)
         && InNoAbsence(c, r.professional, offset, before, after)
         && MeetsNoAppointment(s, r.professional, before, after)
    ensures Create(s, now, r).1.Err? ==> Create(s, now, r).0 == s
    ensures Create(s, now, r).1.Ok? ==>
      && r.service in s.catalog.services && Create(s, now, r).1 == Ok(|s.appts|)
      && var t, svc := Create(s, now, r).0, s.catalog.services[r.service];
         var end := if r.endsAt.Some? then r.endsAt.value else r.startsAt + svc.durationMinutes * MINUTE;
         var status := if r.explicitConfirmation then Pending else Confirmed;
         && t.catalog == s.catalog
         && t.appts == s.appts + [Appointment(r.professional, r.customer, r.service, r.startsAt, end, svc.priceCents,
                                              status, r.source, r.explicitConfirmation, r.notes, r.key)]
  {
    var c := s.catalog;
    if r.professional in c.professionals && r.service in c.services {
      SlotFreeIff(s, r.professional, r.service, r.startsAt, ResolvedEnd(r, c.services[r.service]));
    }
  }

  /** A request under a key of the agenda books nothing: it is answered with the row of that key when the row
      is of the same request, and refused otherwise. */
  lemma KnownKeyIff(s: State, now: Instant, r: Request, i: nat)
    requires i < |s.appts| && s.appts[i].key == r.key
        && forall j: nat :: j < |s.appts| && j != i ==> s.appts[j].key != r.key
    ensures Create(s, now, r).0 == s
    ensures var a := s.appts[i];
      Create(s, now, r).1 ==
        if a.customer == r.customer && a.professional == r.professional && a.service == r.service
           && a.startsAt == r.startsAt && (r.endsAt == None || r.endsAt == Some(a.endsAt)) && a.source == r.source
           && a.notes == r.notes
        then Ok(i) else Err(DuplicateIdempotencyKey)
  {
    assert s.appts[i] in s.appts;
    assert FindKey(s.appts, r.key) == Some(i);
  }

  /** The six calls, as a table: what each makes of an appointment, and from where. */
  lemma MoveIff(s: State, id: nat, action: Action)
    ensures id >= |s.appts| ==> Move(s, id, action) == (s, Err(AppointmentNotFound))
    ensures id < |s.appts| ==>
      var from, (t, res) := s.appts[id].status, Move(s, id, action);
      var to := match action
                case Confirm => Confirmed case Cancel => Cancelled case CheckIn => CheckedIn
                case Start => InProgress case Complete => Completed case MarkNoShow => NoShow;
      && (res == Ok(id) || res == Err(InvalidTransition))
      && (res.Ok? <==>
            || from == to
            || (action.Confirm? && from.Pending?)
            || (action.CheckIn? && (from.Confirmed? || from.NoShowPending?))
            || (action.Start? && from.CheckedIn?)
            || (action.Complete? && from.InProgress?)
            || (action.MarkNoShow? && (from.Pending? || from.Confirmed? || from.NoShowPending?))
            || (action.Cancel? && (from.Pending? || from.Confirmed? || from.NoShowPending? || from.CheckedIn?)))
      && t == if res.Ok? then s.(appts := s.appts[id := s.appts[id].(status := to)]) else s
  {
    if id < |s.appts| && s.appts[id].status == Target(action) {
      assert s.appts[id := s.appts[id]] == s.appts;
    }
  }

  /** Every step of a run either leaves an appointment alone or moves its status by one of the six calls. */
  lemma StepKeepsRows(s: State, step: Step)
    ensures |s.appts| <= |Apply(s, step).appts|
    ensures forall i :: 0 <= i < |s.appts| ==>
      var a, b := s.appts[i], Apply(s, step).appts[i];
      && b.(status := a.status) == a
      && (b.status == a.status || exists act :: a.status in AllowedFrom(act) && b.status == Target(act))
  {
  }

  lemma StepWellFormed(s: State, step: Step)
    requires WellFormed(s) && Admissible(s, step)
    ensures WellFormed(Apply(s, step))
  {
    var t := Apply(s, step);
    if step.Book? && |t.appts| > |s.appts| {
      Accepted(s, step.now, step.request);
      assert t.appts[..|s.appts|] == s.appts;
      forall a | a in t.appts
        ensures a.startsAt < a.endsAt && a.service in t.catalog.services
      {
      }
    } else if step.MoveTo? {
      forall a | a in t.appts
        ensures a.startsAt < a.endsAt && a.service in t.catalog.services
      {
        var i :| 0 <= i < |t.appts| && t.appts[i] == a;
        assert s.appts[i] in s.appts;
      }
    }
  }

  lemma StepNoDoubleBooking(s: State, step: Step)
    requires WellFormed(s) && Admissible(s, step) && NoDoubleBooking(s)
    ensures NoDoubleBooking(Apply(s, step))
  {
    var t := Apply(s, step);
    forall i: nat, j: nat | Rivals(t, i, j) ensures !Nominal(t.appts[i]).Overlaps(Nominal(t.appts[j])) {
      RivalsBefore(s, step, i, j);
    }
  }

  /** Two rivals after a step were rivals before, or one is the booking just accepted. */
  lemma RivalsBefore(s: State, step: Step, i: nat, j: nat)
    requires WellFormed(s) && Rivals(Apply(s, step), i, j)
    ensures var t := Apply(s, step);
      || (Rivals(s, i, j) && Nominal(s.appts[i]) == Nominal(t.appts[i]) && Nominal(s.appts[j]) == Nominal(t.appts[j])
          && s.appts[i].service == t.appts[i].service && s.appts[j].service == t.appts[j].service)
      || (step.Book? && t.catalog == s.catalog
          && !Footprint(s.catalog, t.appts[i]).Overlaps(Footprint(s.catalog, t.appts[j]))
          && !Nominal(t.appts[i]).Overlaps(Nominal(t.appts[j])))
  {
    if i < |s.appts| && j < |s.appts| {
      KeptRivals(s, step, i, j);
    } else {
      BookedIsClear(s, step, if i < j then i else j);
    }
  }

  lemma KeptRivals(s: State, step: Step, i: nat, j: nat)
    requires i < |s.appts| && j < |s.appts| && Rivals(Apply(s, step), i, j)
    ensures var t := Apply(s, step);
      && Rivals(s, i, j) && Nominal(s.appts[i]) == Nominal(t.appts[i]) && Nominal(s.appts[j]) == Nominal(t.appts[j])
      && s.appts[i].service == t.appts[i].service && s.appts[j].service == t.appts[j].service
  {
    StepKeepsRows(s, step);
  }

  /** The booking just accepted keeps clear of an earlier row of the same professional. */
  lemma BookedIsClear(s: State, step: Step, i: nat)
    requires WellFormed(s) && i < |s.appts| < |Apply(s, step).appts|
    requires Rivals(Apply(s, step), i, |s.appts|)
    ensures var t, n := Apply(s, step), |s.appts|;
      && step.Book? && t.catalog == s.catalog && |t.appts| == n + 1
      && !Footprint(s.catalog, t.appts[i]).Overlaps(Footprint(s.catalog, t.appts[n]))
      && !Nominal(t.appts[i]).Overlaps(Nominal(t.appts[n]))
  {
    Accepted(s, step.now, step.request);
    var t := Apply(s, step);
    assert s.appts[i] == t.appts[i] && s.appts[i] in s.appts && Holds(s.appts[i], step.request.professional);
  }

  /** Two disjoint footprints stay disjoint when no gap widens. */
  lemma GapsKeepDisjoint(c: Catalog, d: Catalog, a: Appointment, b: Appointment)
    requires a.service in c.services && b.service in c.services && a.service in d.services && b.service in d.services
    requires a.startsAt < a.endsAt && b.startsAt < b.endsAt
    requires Gap(d, a.service, b.service) <= Gap(c, a.service, b.service)
        && Gap(d, b.service, a.service) <= Gap(c, b.service, a.service)
    requires !Footprint(c, a).Overlaps(Footprint(c, b))
    ensures !Footprint(d, a).Overlaps(Footprint(d, b))
  {
  }

  lemma StepFootprintsDisjoint(s: State, step: Step)
    requires WellFormed(s) && Admissible(s, step) && KeepsGaps(s, step) && FootprintsDisjoint(s)
    ensures FootprintsDisjoint(Apply(s, step))
  {
    var t := Apply(s, step);
    forall i: nat, j: nat | Rivals(t, i, j)
      ensures !Footprint(t.catalog, t.appts[i]).Overlaps(Footprint(t.catalog, t.appts[j]))
    {
      RivalsBefore(s, step, i, j);
      if Rivals(s, i, j) {
        assert s.appts[i] in s.appts && s.appts[j] in s.appts;
        if step.Configure? { GapsKeepDisjoint(s.catalog, t.catalog, s.appts[i], s.appts[j]); }
      }
    }
  }

  /** Main result: no run from an empty agenda ever double-books a professional, even when service
      durations, buffers, hours and absences are edited between the steps; while no edit widens the room
      two services need between them, even the expanded footprints stay disjoint. */
  lemma {:induction false} NeverDoubleBooks(s: State, steps: seq<Step>)
    requires WellFormed(s) && NoDoubleBooking(s) && AdmissibleRun(s, steps)
    ensures WellFormed(Run(s, steps)) && NoDoubleBooking(Run(s, steps))
    ensures FootprintsDisjoint(s) && NoGapWidened(s, steps) ==> FootprintsDisjoint(Run(s, steps))
    decreases |steps|
  {
    if steps != [] {
      StepWellFormed(s, steps[0]);
      StepNoDoubleBooking(s, steps[0]);
      if FootprintsDisjoint(s) && NoGapWidened(s, steps) {
        StepFootprintsDisjoint(s, steps[0]);
      }
      NeverDoubleBooks(Apply(s, steps[0]), steps[1..]);
    }
  }

  lemma EmptyAgendaIsSafe(c: Catalog)
    requires CatalogOk(c)
    ensures var s := State(c, []); WellFormed(s) && NoDoubleBooking(s) && FootprintsDisjoint(s)
  {
  }

  /** Rows are never deleted or rescheduled, and the three final statuses are final. */
  lemma {:induction false} RunKeepsRows(s: State, steps: seq<Step>, i: nat)
    requires i < |s.appts|
    ensures |s.appts| <= |Run(s, steps).appts|
    ensures var a, b := s.appts[i], Run(s, steps).appts[i];
      && b.(status := a.status) == a
      && (a.status in {Cancelled, NoShow, Completed} ==> b.status == a.status)
    decreases |steps|
  {
    if steps != [] {
      StepKeepsRows(s, steps[0]);
      RunKeepsRows(Apply(s, steps[0]), steps[1..], i);
    }
  }

  /** No service call ever produces the no-show-pending status. */
  lemma {:induction false} NoShowPendingUnreachable(s: State, steps: seq<Step>)
    requires forall a :: a in s.appts ==> a.status != NoShowPending
    ensures forall a :: a in Run(s, steps).appts ==> a.status != NoShowPending
    decreases |steps|
  {
    if steps != [] {
      var t := Apply(s, steps[0]);
      StepKeepsRows(s, steps[0]);
      forall a | a in t.appts ensures a.status != NoShowPending {
        var i :| 0 <= i < |t.appts| && t.appts[i] == a;
        if i < |s.appts| { assert s.appts[i] in s.appts; }
      }
      NoShowPendingUnreachable(t, steps[1..]);
    }
  }

  lemma UniqueKey(s: State, i: nat)
    requires WellFormed(s) && i < |s.appts|
    ensures FindKey(s.appts, s.appts[i].key) == Some(i)
  {
    assert s.appts[i] in s.appts;
  }

  /** Replaying a booking returns the row it created, unchanged, at any later time and after any run. */
  lemma ReplayReturnsSameRow(s: State, now: Instant, r: Request, steps: seq<Step>, later: Instant)
    requires WellFormed(s) && Create(s, now, r).1.Ok?
    requires AdmissibleRun(Create(s, now, r).0, steps)
    ensures var t := Run(Create(s, now, r).0, steps);
      Create(t, later, r) == (t, Create(s, now, r).1)
  {
    var (s1, res) := Create(s, now, r);
    StepWellFormed(s, Book(now, r));
    assert s1.appts[res.value].key == r.key && SameRequest(s1.appts[res.value], r);
    WellFormedRun(s1, steps);
    RunKeepsRows(s1, steps, res.value);
    UniqueKey(Run(s1, steps), res.value);
  }

  lemma {:induction false} WellFormedRun(s: State, steps: seq<Step>)
    requires WellFormed(s) && AdmissibleRun(s, steps)
    ensures WellFormed(Run(s, steps))
    decreases |steps|
  {
    if steps != [] {
      StepWellFormed(s, steps[0]);
      WellFormedRun(Apply(s, steps[0]), steps[1..]);
    }
  }

  // ---- edits that break an agenda ----------------------------------------------------------------

  /** The steps lead from an empty agenda to the state. */
  ghost predicate LeadsTo(c: Catalog, steps: seq<Step>, s: State) {
    CatalogOk(c) && AdmissibleRun(State(c, []), steps) && Run(State(c, []), steps) == s
  }

  ghost predicate Reachable(s: State) { exists c, steps :: LeadsTo(c, steps, s) }

  lemma ReachableIsWellFormed(s: State)
    requires Reachable(s)
    ensures WellFormed(s) && NoDoubleBooking(s)
  {
    var c, steps :| LeadsTo(c, steps, s);
    NeverDoubleBooks(State(c, []), steps);
  }

  /** Rows of the tenant that are open all day on every day. */
  function AllWeek(): seq<BusinessHours> { seq(7, weekday => BusinessHours(None, weekday, 0, DAY - 1)) }

  lemma OpenAllWeek(c: Catalog, nominal: Span)
    requires c.hours == AllWeek() && LocalDay(nominal.start, 0) == LocalDay(nominal.end, 0)
    ensures FitsBusinessHours(c, 0, 0, nominal)
  {
    var weekday := Weekday(LocalDay(nominal.start, 0));
    var h := BusinessHours(None, weekday, 0, DAY - 1);
    assert c.hours[weekday] == h;
    assert forall x :: x in c.hours ==> x.professional != Some(0);
    HoursForIff(c, 0, LocalDay(nominal.start, 0), h);
  }

  /** The services of a catalog, all active, offered by one professional who is always open. */
  function OpenCatalog(c: Catalog, first: Id, second: Id): Catalog {
    Catalog(map[0 := Professional(true, 0)], map[0 := Customer(true, None)],
            map id | id in c.services :: c.services[id].(active := true), {(0, first), (0, second)}, AllWeek(),
                [], [], [])
  }

  function Visit(service: Id, startsAt: Instant, key: string): Request {
    Request(0, 0, service, startsAt, None, None, "admin", key, "", false, true)
  }

  lemma VisitIsBooked(s: State, service: Id, startsAt: Instant, key: string, first: Id, second: Id, c: Catalog)
    requires s.catalog == OpenCatalog(c, first, second) && service in c.services
        && (service == first || service == second)
    requires var end := startsAt + c.services[service].durationMinutes * MINUTE;
        LocalDay(startsAt, 0) == LocalDay(end, 0)
    requires FindKey(s.appts, key).None?
    requires NoConflict(s, 0, Footprint(s.catalog, NewAppointment(s.catalog, Visit(service, startsAt, key))))
    ensures Create(s, startsAt, Visit(service, startsAt, key)).0
            == s.(appts := s.appts + [NewAppointment(s.catalog, Visit(service, startsAt, key))])
  {
    var end := startsAt + c.services[service].durationMinutes * MINUTE;
    OpenAllWeek(s.catalog, Span(startsAt, end));
    assert Refusal(s, startsAt, Visit(service, startsAt, key)).None?;
  }

  /** A start from which two visits of at most eight hours, `apart` from start to start, each stay in a day. */
  lemma FindStart(apart: nat, first: nat, second: nat) returns (at: nat)
    requires first <= 480 * MINUTE && second <= 480 * MINUTE
    ensures LocalDay(at, 0) == LocalDay(at + first, 0) && LocalDay(at + apart, 0) == LocalDay(at + apart + second, 0)
  {
    if apart % DAY + second < DAY {
      at := 0;
      SameDay(apart, second);
    } else {
      at := DAY - apart % DAY;
      SameDay(at, first);
      NextDay(apart);
      SameDay(at + apart, second);
    }
  }

  lemma SameDay(t: nat, length: nat)
    requires t % DAY + length < DAY
    ensures t / DAY == (t + length) / DAY
  {
  }

  lemma NextDay(t: nat)
    ensures (t + (DAY - t % DAY)) % DAY == 0
  {
    assert t + (DAY - t % DAY) == (t / DAY + 1) * DAY;
  }

  lemma OtherKeyFree(a: Appointment, key: string)
    requires a.key != key
    ensures FindKey([], key).None? && FindKey([a], key).None?
  {
    assert forall x :: x in [a] ==> x.key != key;
  }

  lemma RunFirst(s: State, x: Step, rest: seq<Step>)
    ensures Run(s, [x] + rest) == Run(Apply(s, x), rest)
    ensures AdmissibleRun(s, [x] + rest) <==> Admissible(s, x) && AdmissibleRun(Apply(s, x), rest)
  {
    assert ([x] + rest)[1..] == rest;
  }

  lemma RunOfThree(s: State, x: Step, y: Step, z: Step)
    ensures Run(s, [x, y, z]) == Apply(Apply(Apply(s, x), y), z)
    ensures AdmissibleRun(s, [x, y, z]) <==>
      Admissible(s, x) && Admissible(Apply(s, x), y) && Admissible(Apply(Apply(s, x), y), z)
  {
    RunFirst(Apply(Apply(s, x), y), z, []);
    RunFirst(Apply(s, x), y, [z]);
    RunFirst(s, x, [y, z]);
    assert [z] + [] == [z] && [y] + [z] == [y, z] && [x] + [y, z] == [x, y, z];
  }

  /** Two visits a gap apart are disjoint under the gap, and overlap under a wider one. */
  lemma PairTouches(c: Catalog, d: Catalog, a: Appointment, b: Appointment)
    requires a.service in c.services && b.service in c.services && a.service in d.services && b.service in d.services
    requires a.professional == b.professional && a.status in SLOT_BLOCKING && b.status in SLOT_BLOCKING
    requires a.startsAt < a.endsAt && b.startsAt == a.endsAt + Gap(c, a.service, b.service) * MINUTE
        && b.startsAt < b.endsAt
    requires Gap(d, a.service, b.service) > Gap(c, a.service, b.service)
    ensures FootprintsDisjoint(State(c, [a, b])) && !FootprintsDisjoint(State(d, [a, b]))
    ensures NoDoubleBooking(State(d, [a, b]))
  {
    assert !Footprint(c, a).Overlaps(Footprint(c, b)) && !Footprint(c, b).Overlaps(Footprint(c, a));
    assert Footprint(d, a).Overlaps(Footprint(d, b));
    assert Rivals(State(d, [a, b]), 0, 1);
  }

  /** The agenda with the two visits is reached by booking them and then configuring the catalog. */
  lemma TwoVisits(c: Catalog, first: Id, second: Id, at: Instant, later: Instant)
    requires CatalogOk(c) && first in c.services && second in c.services
    requires var end := at + c.services[first].durationMinutes * MINUTE;
      LocalDay(at, 0) == LocalDay(end, 0) && later == end + Gap(c, first, second) * MINUTE
    requires LocalDay(later, 0) == LocalDay(later + c.services[second].durationMinutes * MINUTE, 0)
    ensures var e := OpenCatalog(c, first, second);
      Reachable(State(c, [NewAppointment(e, Visit(first, at, "a")), NewAppointment(e, Visit(second, later, "b"))]))
  {
    var e := OpenCatalog(c, first, second);
    var a, b := NewAppointment(e, Visit(first, at, "a")), NewAppointment(e, Visit(second, later, "b"));
    var s0, s1, s2 := State(e, []), State(e, [a]), State(e, [a, b]);
    assert "a"[0] != "b"[0];
    OtherKeyFree(a, "b");
    OtherKeyFree(b, "a");
    VisitIsBooked(s0, first, at, "a", first, second, c);
    assert s0.appts + [a] == [a];
    assert !Footprint(e, b).Overlaps(Footprint(e, a));
    VisitIsBooked(s1, second, later, "b", first, second, c);
    assert s1.appts + [b] == [a, b];
    var x, y, z := Book(at, Visit(first, at, "a")), Book(later, Visit(second, later, "b")), Configure(c);
    RunOfThree(s0, x, y, z);
    OpenCatalogOk(c, first, second);
    assert LeadsTo(e, [x, y, z], State(c, [a, b]));
  }

  lemma OpenCatalogOk(c: Catalog, first: Id, second: Id)
    requires CatalogOk(c)
    ensures CatalogOk(OpenCatalog(c, first, second)) && OpenCatalog(c, first, second).services.Keys == c.services.Keys
  {
    forall h | h in AllWeek() ensures 0 <= h.startsAt < h.endsAt < DAY {}
  }

  /** Every edit that widens a gap breaks some agenda that bookings lead to: two visits exactly as far apart as
      they needed to be. Their intervals stay disjoint. */
  lemma EditedBuffersOverlap(c: Catalog, d: Catalog, first: Id, second: Id) returns (s: State)
    requires CatalogOk(c) && CatalogOk(d) && c.services.Keys <= d.services.Keys
    requires first in c.services && second in c.services && Gap(d, first, second) > Gap(c, first, second)
    ensures Reachable(s) && s.catalog == c && FootprintsDisjoint(s) && Admissible(s, Configure(d))
    ensures var t := Apply(s, Configure(d)); NoDoubleBooking(t) && !FootprintsDisjoint(t)
  {
    var e := OpenCatalog(c, first, second);
    var l1, l2 := c.services[first].durationMinutes * MINUTE, c.services[second].durationMinutes * MINUTE;
    var apart := l1 + Gap(c, first, second) * MINUTE;
    var at := FindStart(apart, l1, l2);
    TwoVisits(c, first, second, at, at + apart);
    var a, b := NewAppointment(e, Visit(first, at, "a")), NewAppointment(e, Visit(second, at + apart, "b"));
    PairTouches(c, d, a, b);
    s := State(c, [a, b]);
  }

  /** So an edit keeps the footprints of every agenda that runs lead to disjoint if and only if it widens no
      gap. */
  lemma EditIsSafeIff(c: Catalog, d: Catalog)
    requires CatalogOk(c) && CatalogOk(d) && c.services.Keys <= d.services.Keys
    ensures WidensNoGap(c, d) <==>
      forall s :: Reachable(s) && s.catalog == c && FootprintsDisjoint(s) ==> FootprintsDisjoint(Apply(s, Configure(d)))
  {
    if WidensNoGap(c, d) {
      forall s | Reachable(s) && s.catalog == c && FootprintsDisjoint(s)
          ensures FootprintsDisjoint(Apply(s, Configure(d))) {
        ReachableIsWellFormed(s);
        StepFootprintsDisjoint(s, Configure(d));
      }
    } else {
      var x, y :| x in c.services && y in c.services && x in d.services && y in d.services
          && Gap(d, x, y) > Gap(c, x, y);
      var s := EditedBuffersOverlap(c, d, x, y);
    }
  }

  /** An accepted booking keeps its footprint clear of every block and time off, and of every
      recurring time off of that weekday when the footprint stays within one local day. */
  lemma BookingIsClearOfAbsences(s: State, now: Instant, r: Request)
    requires CatalogOk(s.catalog) && FindKey(s.appts, r.key).None? && Create(s, now, r).1.Ok?
    ensures r.professional in s.catalog.professionals
    ensures var fp := Footprint(s.catalog, NewAppointment(s.catalog, r));
            var offset := s.catalog.professionals[r.professional].utcOffset;
      && (forall x :: x in s.catalog.blocks + s.catalog.timeOffs && x.professional == r.professional
            ==> !fp.Overlaps(x.span))
      && (LocalDay(fp.start, offset) == LocalDay(fp.end, offset) ==>
            forall x :: x in s.catalog.recurring && x.professional == r.professional
                        && x.weekday == Weekday(LocalDay(fp.start, offset))
              ==> !fp.Overlaps(RecurringSpan(x, LocalDay(fp.start, offset), offset)))
  {
  }

  /** Whenever the footprint of a request leaves its local day, recurring time off is not consulted: replacing
      it by anything changes no answer. */
  lemma RecurringIgnoredAcrossMidnight(s: State, now: Instant, r: Request, recurring: seq<RecurringTimeOff>)
    requires r.professional in s.catalog.professionals && r.service in s.catalog.services
    requires var svc := s.catalog.services[r.service];
      var offset := s.catalog.professionals[r.professional].utcOffset;
      var fp := Span(r.startsAt, ResolvedEnd(r, svc)).Expand(svc.bufferBefore, svc.bufferAfter);
      LocalDay(fp.start, offset) != LocalDay(fp.end, offset)
    ensures Refusal(s.(catalog := s.catalog.(recurring := recurring)), now, r) == Refusal(s, now, r)
  {
  }

  /** And such a request that is accepted can be accepted inside recurring time off: some row overlaps its
      interval and changes nothing. */
  lemma RecurringMissedAcrossMidnight(s: State, now: Instant, r: Request) returns (row: RecurringTimeOff)
    requires CatalogOk(s.catalog) && FindKey(s.appts, r.key).None? && Create(s, now, r).1.Ok?
    requires r.professional in s.catalog.professionals && r.service in s.catalog.services
    requires var offset := s.catalog.professionals[r.professional].utcOffset;
      var fp := Footprint(s.catalog, NewAppointment(s.catalog, r));
          LocalDay(fp.start, offset) != LocalDay(fp.end, offset)
    ensures var offset := s.catalog.professionals[r.professional].utcOffset;
      var t := s.(catalog := s.catalog.(recurring := [row]));
      && CatalogOk(t.catalog) && Create(t, now, r).1.Ok? && row.professional == r.professional
      && row.weekday == Weekday(LocalDay(r.startsAt, offset))
      && Nominal(NewAppointment(t.catalog, r)).Overlaps(RecurringSpan(row, LocalDay(r.startsAt, offset), offset))
  {
    var offset := s.catalog.professionals[r.professional].utcOffset;
    var day := LocalDay(r.startsAt, offset);
    row := RecurringTimeOff(r.professional, Weekday(day), 0, DAY - 1);
    Accepted(s, now, r);
    RecurringIgnoredAcrossMidnight(s, now, r, [row]);
  }

  /** An accepted booking can lie in recurring time off of its day if and only if its footprint leaves the day. */
  lemma RecurringMissedIff(s: State, now: Instant, r: Request)
    requires CatalogOk(s.catalog) && FindKey(s.appts, r.key).None? && Create(s, now, r).1.Ok?
    requires r.professional in s.catalog.professionals && r.service in s.catalog.services
    ensures var offset := s.catalog.professionals[r.professional].utcOffset;
      var fp := Footprint(s.catalog, NewAppointment(s.catalog, r));
      LocalDay(fp.start, offset) != LocalDay(fp.end, offset) <==>
        exists row :: MissedBy(s, now, r, offset, row)
  {
    var offset := s.catalog.professionals[r.professional].utcOffset;
    var fp := Footprint(s.catalog, NewAppointment(s.catalog, r));
    if LocalDay(fp.start, offset) != LocalDay(fp.end, offset) {
      var row := RecurringMissedAcrossMidnight(s, now, r);
      assert MissedBy(s, now, r, offset, row);
    } else {
      forall row ensures !MissedBy(s, now, r, offset, row) { NotMissedWithinDay(s, now, r, offset, row); }
    }
  }

  /** With this row as the only recurring time off the request is accepted all the same, although its interval
      overlaps the row on its day. */
  predicate MissedBy(s: State, now: Instant, r: Request, offset: int, row: RecurringTimeOff) {
    var t := s.(catalog := s.catalog.(recurring := [row]));
    && r.service in s.catalog.services && 0 <= row.startsAt < row.endsAt < DAY
    && Create(t, now, r).1.Ok? && row.professional == r.professional
    && row.weekday == Weekday(LocalDay(r.startsAt, offset))
    && Nominal(NewAppointment(t.catalog, r)).Overlaps(RecurringSpan(row, LocalDay(r.startsAt, offset), offset))
  }

  /** A start inside a footprint that stays within one local day is on that day. */
  lemma StartsThatDay(start: Instant, before: nat, end: Instant, after: nat, offset: int)
    requires start <= end && LocalDay(start - before * MINUTE, offset) == LocalDay(end + after * MINUTE, offset)
    ensures LocalDay(start, offset) == LocalDay(start - before * MINUTE, offset)
  {
    DayOrder(start - before * MINUTE + offset, start + offset);
    DayOrder(start + offset, end + after * MINUTE + offset);
  }

  lemma DayOrder(t: int, u: int)
    requires t <= u
    ensures t / DAY <= u / DAY
  {
  }

  lemma NotMissedWithinDay(s: State, now: Instant, r: Request, offset: int, row: RecurringTimeOff)
    requires CatalogOk(s.catalog) && FindKey(s.appts, r.key).None?
    requires r.professional in s.catalog.professionals && r.service in s.catalog.services
    requires offset == s.catalog.professionals[r.professional].utcOffset
    requires var fp := Footprint(s.catalog, NewAppointment(s.catalog, r));
        LocalDay(fp.start, offset) == LocalDay(fp.end, offset)
    ensures !MissedBy(s, now, r, offset, row)
  {
    var t := s.(catalog := s.catalog.(recurring := [row]));
    if Create(t, now, r).1.Ok? && 0 <= row.startsAt < row.endsAt < DAY {
      BookingIsClearOfAbsences(t, now, r);
      assert row in t.catalog.recurring;
      StartsThatDay(r.startsAt, s.catalog.services[r.service].bufferBefore,
          ResolvedEnd(r, s.catalog.services[r.service]),
                    s.catalog.services[r.service].bufferAfter, offset);
    }
  }

  /** The same-day condition cannot be dropped: a buffer that crosses midnight lets a booking land
      inside recurring time off. */
  lemma RecurringSkippedAcrossMidnight() returns (s: State, now: Instant, r: Request)
    ensures CatalogOk(s.catalog) && Create(s, now, r).1.Ok?
    ensures var a := Create(s, now, r).0.appts[0];
      |s.catalog.recurring| == 1 && s.catalog.recurring[0].professional == a.professional
      && s.catalog.recurring[0].weekday == Weekday(LocalDay(a.startsAt, 0))
      && Nominal(a).Overlaps(RecurringSpan(s.catalog.recurring[0], LocalDay(a.startsAt, 0), 0))
  {
    var svc := Service(true, 30, 0, 0, 60);
    var row := BusinessHours(None, 4, 0, DAY - 1);
    var off := RecurringTimeOff(0, 4, 22 * 60 * MINUTE, DAY - 1);
    var c := Catalog(map[0 := Professional(true, 0)], map[0 := Customer(true, None)], map[0 := svc],
                     {(0, 0)}, [row], [], [], [off]);
    s := State(c, []);
    now := 0;
    r := Request(0, 0, 0, 23 * 60 * MINUTE, None, None, "admin", "k", "", false, true);
    var end := 23 * 60 * MINUTE + 30 * MINUTE;
    assert RowsOf(c.hours, Some(0), 4) == [];
    assert RowsOf(c.hours, None, 4) == [row];
    assert row in HoursFor(c, 0, 4);
    assert FitsBusinessHours(c, 0, 0, Span(r.startsAt, end));
    assert Refusal(s, now, r).None?;
  }
}
