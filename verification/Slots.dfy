/** The slot list of one day, as a value, and its agreement with the booking routine.
    apps/scheduling/services.py:429-496. */
module Slots {
  import opened Prelude
  import opened BookingRules
  import opened Agenda

  /** The starts cursor, cursor + step, ... whose slot ends by `until`, keeping those that are free. */
  function GridRow(free: Instant -> bool, cursor: Instant, until: Instant, length: int, step: int): seq<Instant>
    requires step > 0 || cursor + length > until
    decreases if cursor + length > until then 0 else until - cursor - length + 1
  {
    if cursor + length > until then []
    else (if free(cursor) then [cursor] else []) + GridRow(free, cursor + step, until, length, step)
  }

  predicate RowTerminates(h: BusinessHours, length: int, step: int) {
    step > 0 || h.startsAt + length > h.endsAt
  }

  function GridRows(free: Instant -> bool, rows: seq<BusinessHours>, day: int, offset: int, length: int,
      step: int): seq<Instant>
    requires forall h :: h in rows ==> RowTerminates(h, length, step)
  {
    if rows == [] then []
    else
      assert RowTerminates(rows[0], length, step);
      GridRow(free, At(day, rows[0].startsAt, offset), At(day, rows[0].endsAt, offset), length, step)
      + GridRows(free, rows[1..], day, offset, length, step)
  }

  /** A start that the list keeps: not past, and free under the three slot guards. */
  function FreeStart(s: State, now: Instant, professional: Id, service: Id): Instant -> bool
    requires professional in s.catalog.professionals && service in s.catalog.services
  {
    var length := s.catalog.services[service].durationMinutes;
    t => !InPast(t, now) && SlotFree(s, professional, service, Span(t, ComputeEndsAt(t, length)))
  }

  datatype Query = Query(professional: Id, service: Id, day: int, interval: int)

  function QueryError(c: Catalog, q: Query): Option<BookingError> {
    if q.professional !in c.professionals || !c.professionals[q.professional].active then Some(ProfessionalNotFound)
    else if !Bookable(c, q.professional, q.service) then Some(ServiceNotBookable)
    else None
  }

  function Length(c: Catalog, q: Query): int
    requires q.service in c.services
  {
    c.services[q.service].durationMinutes * MINUTE
  }

  function Rows(c: Catalog, q: Query): seq<BusinessHours> {
    HoursFor(c, q.professional, Weekday(q.day))
  }

  /** The loop of the list ends: the interval is positive, or no row has room for one slot. */
  predicate Terminates(c: Catalog, q: Query) {
    QueryError(c, q).None? ==> forall h :: h in Rows(c, q) ==> RowTerminates(h, Length(c, q), q.interval * MINUTE)
  }

  function ListSlots(s: State, now: Instant, q: Query): Result<seq<Instant>, BookingError>
    requires Terminates(s.catalog, q)
  {
    match QueryError(s.catalog, q)
    case Some(e) => Err(e)
    case None =>
      Ok(GridRows(FreeStart(s, now, q.professional, q.service), Rows(s.catalog, q), q.day,
                  s.catalog.professionals[q.professional].utcOffset, Length(s.catalog, q), q.interval * MINUTE))
  }

  /** The loop's condition cannot fail when a row has room and the interval is not positive. */
  lemma NonPositiveIntervalDiverges(h: BusinessHours, length: int, step: int, iterations: nat)
    requires !RowTerminates(h, length, step)
    ensures h.startsAt + iterations * step + length <= h.endsAt
  {
    assert iterations * step <= 0;
  }

  // ---- membership -------------------------------------------------------------------------

  predicate OnGrid(t: Instant, origin: Instant, step: int, k: nat) { t == origin + k * step }

  lemma {:induction false} InGridRow(free: Instant -> bool, cursor: Instant, until: Instant, length: int, step: int,
      t: Instant)
    requires step > 0 || cursor + length > until
    ensures t in GridRow(free, cursor, until, length, step)
            <==> free(t) && t + length <= until && step > 0 && exists k: nat :: OnGrid(t, cursor, step, k)
    decreases if cursor + length > until then 0 else until - cursor - length + 1
  {
    if cursor + length > until {
      if step > 0 {
        forall k: nat | OnGrid(t, cursor, step, k) ensures t >= cursor { assert k * step >= 0; }
      }
    } else {
      var next := cursor + step;
      InGridRow(free, next, until, length, step, t);
      assert OnGrid(cursor, cursor, step, 0);
      if k: nat :| OnGrid(t, next, step, k) {
        assert (k + 1) * step == k * step + step;
        assert OnGrid(t, cursor, step, k + 1);
      }
      if k: nat :| OnGrid(t, cursor, step, k) && k > 0 {
        assert OnGrid(t, next, step, k - 1) by { assert (k - 1) * step == k * step - step; }
      }
    }
  }

  /** `t` is a start of the grid of some row whose slot ends within that row. */
  ghost predicate InRowGrid(t: Instant, h: BusinessHours, q: Query, offset: int, length: int) {
    && t + length <= At(q.day, h.endsAt, offset)
    && q.interval > 0
    && exists k: nat :: OnGrid(t, At(q.day, h.startsAt, offset), q.interval * MINUTE, k)
  }

  lemma {:induction false} InGridRows(free: Instant -> bool, rows: seq<BusinessHours>, q: Query, offset: int,
      length: int, t: Instant)
    requires forall h :: h in rows ==> RowTerminates(h, length, q.interval * MINUTE)
    ensures t in GridRows(free, rows, q.day, offset, length, q.interval * MINUTE)
            <==> free(t) && exists h :: h in rows && InRowGrid(t, h, q, offset, length)
  {
    if rows != [] {
      var h := rows[0];
      assert h in rows;
      InGridRow(free, At(q.day, h.startsAt, offset), At(q.day, h.endsAt, offset), length, q.interval * MINUTE, t);
      InGridRows(free, rows[1..], q, offset, length, t);
      assert rows == [h] + rows[1..];
    }
  }

  // ---- agreement with the booking routine ---------------------------------------------------

  /** A request the list speaks for: an eligible customer, a fresh key, no declared end or price. */
  predicate Eligible(s: State, r: Request) {
    && r.customer in s.catalog.customers && s.catalog.customers[r.customer].active
    && CustomerAllowed(s.catalog.customers[r.customer], r.isStaff)
    && r.endsAt.None? && r.priceCents.None?
    && FindKey(s.appts, r.key).None?
  }

  /** Sound and complete: at the same `now`, a start is listed exactly when it lies on the grid of a
      business-hours row of that day with room for the slot and the booking routine accepts it. */
  lemma ListedIffBookable(s: State, now: Instant, q: Query, r: Request)
    requires Terminates(s.catalog, q) && Eligible(s, r) && r.professional == q.professional && r.service == q.service
    ensures ListSlots(s, now, q).Err? <==> QueryError(s.catalog, q).Some?
    ensures ListSlots(s, now, q).Err? ==> Create(s, now, r).1.Err?
    ensures ListSlots(s, now, q).Ok? ==>
      (r.startsAt in ListSlots(s, now, q).value
       <==> && Create(s, now, r).1.Ok?
            && exists h :: InForceOn(s.catalog, q.professional, q.day, h)
                 && InRowGrid(r.startsAt, h, q, s.catalog.professionals[q.professional].utcOffset,
                              s.catalog.services[q.service].durationMinutes * MINUTE))
  {
    if QueryError(s.catalog, q).None? {
      forall h ensures h in Rows(s.catalog, q) <==> InForceOn(s.catalog, q.professional, q.day, h) {
        HoursForIff(s.catalog, q.professional, q.day, h);
      }
      InGridRows(FreeStart(s, now, q.professional, q.service), Rows(s.catalog, q), q,
                 s.catalog.professionals[q.professional].utcOffset, Length(s.catalog, q), r.startsAt);
      assert EndsMatchDuration(r.startsAt, ResolvedEnd(r, s.catalog.services[r.service]),
          s.catalog.services[r.service].durationMinutes);
    }
  }

  // ---- booking and releasing ----------------------------------------------------------------

  function Filter(keep: Instant -> bool, ts: seq<Instant>): seq<Instant> {
    if ts == [] then [] else (if keep(ts[0]) then [ts[0]] else []) + Filter(keep, ts[1..])
  }

  lemma {:induction false} FilterConcat(keep: Instant -> bool, a: seq<Instant>, b: seq<Instant>)
    ensures Filter(keep, a + b) == Filter(keep, a) + Filter(keep, b)
  {
    if a == [] {
      assert a + b == b;
    } else {
      var head := if keep(a[0]) then [a[0]] else [];
      assert (a + b)[0] == a[0] && (a + b)[1..] == a[1..] + b;
      FilterConcat(keep, a[1..], b);
      assert Filter(keep, a) == head + Filter(keep, a[1..]);
      assert Filter(keep, a + b) == head + (Filter(keep, a[1..]) + Filter(keep, b));
    }
  }

  lemma {:induction false} FilterGridRow(free: Instant -> bool, fewer: Instant -> bool, keep: Instant -> bool,
                                         cursor: Instant, until: Instant, length: int, step: int)
    requires step > 0 || cursor + length > until
    requires forall t :: fewer(t) <==> free(t) && keep(t)
    ensures GridRow(fewer, cursor, until, length, step) == Filter(keep, GridRow(free, cursor, until, length, step))
    decreases if cursor + length > until then 0 else until - cursor - length + 1
  {
    if cursor + length <= until {
      FilterGridRow(free, fewer, keep, cursor + step, until, length, step);
      var rest := GridRow(free, cursor + step, until, length, step);
      FilterConcat(keep, if free(cursor) then [cursor] else [], rest);
      assert Filter(keep, [cursor]) == if keep(cursor) then [cursor] else [];
    }
  }

  lemma {:induction false} FilterGridRows(free: Instant -> bool, fewer: Instant -> bool, keep: Instant -> bool,
                                          rows: seq<BusinessHours>, day: int, offset: int, length: int, step: int)
    requires forall h :: h in rows ==> RowTerminates(h, length, step)
    requires forall t :: fewer(t) <==> free(t) && keep(t)
    ensures GridRows(fewer, rows, day, offset, length, step)
        == Filter(keep, GridRows(free, rows, day, offset, length, step))
  {
    if rows != [] {
      var h := rows[0];
      assert h in rows;
      FilterGridRow(free, fewer, keep, At(day, h.startsAt, offset), At(day, h.endsAt, offset), length, step);
      FilterGridRows(free, fewer, keep, rows[1..], day, offset, length, step);
      FilterConcat(keep, GridRow(free, At(day, h.startsAt, offset), At(day, h.endsAt, offset), length, step),
                   GridRows(free, rows[1..], day, offset, length, step));
    }
  }

  lemma {:induction false} FilterAll(keep: Instant -> bool, ts: seq<Instant>)
    requires forall t :: keep(t)
    ensures Filter(keep, ts) == ts
  {
    if ts != [] { FilterAll(keep, ts[1..]); }
  }

  /** The footprint a slot of the query would take at `t`. */
  function SlotFootprint(c: Catalog, q: Query, t: Instant): Span
    requires q.service in c.services
  {
    var svc := c.services[q.service];
    Span(t, ComputeEndsAt(t, svc.durationMinutes)).Expand(svc.bufferBefore, svc.bufferAfter)
  }

  /** Slots that a row of the agenda leaves open. */
  function LeftOpenBy(c: Catalog, q: Query, a: Appointment): Instant -> bool
    requires q.service in c.services
  {
    t => !(Holds(a, q.professional) && SlotFootprint(c, q, t).Overlaps(Footprint(c, a)))
  }

  /** One more row filters the list by its footprint, whatever its status. */
  lemma OneMoreRow(s: State, now: Instant, q: Query, a: Appointment)
    requires Terminates(s.catalog, q) && QueryError(s.catalog, q).None?
    ensures ListSlots(s.(appts := s.appts + [a]), now, q)
            == Ok(Filter(LeftOpenBy(s.catalog, q, a), ListSlots(s, now, q).value))
  {
    var t := s.(appts := s.appts + [a]);
    forall start
      ensures FreeStart(t, now, q.professional, q.service)(start)
              <==> FreeStart(s, now, q.professional, q.service)(start) && LeftOpenBy(s.catalog, q, a)(start)
    {
      assert forall x :: x in t.appts <==> x in s.appts || x == a;
    }
    FilterGridRows(FreeStart(s, now, q.professional, q.service), FreeStart(t, now, q.professional, q.service),
                   LeftOpenBy(s.catalog, q, a), Rows(s.catalog, q), q.day,
                   s.catalog.professionals[q.professional].utcOffset, Length(s.catalog, q), q.interval * MINUTE);
  }

  /** Round trip: a booking removes exactly the slots whose footprint meets the new footprint, and
      cancelling it or marking a no-show restores the earlier list at the same `now`, in order. */
  lemma BookThenRelease(s: State, booked: Instant, r: Request, now: Instant, q: Query, release: Action)
    requires Terminates(s.catalog, q) && QueryError(s.catalog, q).None?
    requires FindKey(s.appts, r.key).None? && Create(s, booked, r).1.Ok?
    requires release in {Cancel, MarkNoShow}
    ensures r.service in s.catalog.services
    ensures var (s1, id) := Create(s, booked, r);
            var (s2, moved) := Move(s1, id.value, release);
            var fp := Footprint(s.catalog, NewAppointment(s.catalog, r));
      && ListSlots(s1, now, q) ==
           Ok(Filter(t => !(r.professional == q.professional && SlotFootprint(s.catalog, q, t).Overlaps(fp)),
                     ListSlots(s, now, q).value))
      && moved.Ok?
      && ListSlots(s2, now, q) == ListSlots(s, now, q)
  {
    var a := NewAppointment(s.catalog, r);
    BookFilters(s, booked, r, now, q);
    var (s1, id) := Create(s, booked, r);
    var (s2, moved) := Move(s1, id.value, release);
    assert s2 == s.(appts := s.appts + [a.(status := Target(release))]);
    OneMoreRow(s, now, q, a.(status := Target(release)));
    FilterAll(LeftOpenBy(s.catalog, q, a.(status := Target(release))), ListSlots(s, now, q).value);
  }

  lemma BookFilters(s: State, booked: Instant, r: Request, now: Instant, q: Query)
    requires Terminates(s.catalog, q) && QueryError(s.catalog, q).None?
    requires FindKey(s.appts, r.key).None? && Create(s, booked, r).1.Ok?
    ensures r.service in s.catalog.services
    ensures var fp := Footprint(s.catalog, NewAppointment(s.catalog, r));
      ListSlots(Create(s, booked, r).0, now, q) ==
        Ok(Filter(t => !(r.professional == q.professional && SlotFootprint(s.catalog, q, t).Overlaps(fp)),
                  ListSlots(s, now, q).value))
  {
    var a := NewAppointment(s.catalog, r);
    OneMoreRow(s, now, q, a);
    var fp := Footprint(s.catalog, a);
    var keep: Instant -> bool := t =>
        !(r.professional == q.professional && SlotFootprint(s.catalog, q, t).Overlaps(fp));
    FilterCongruent(keep, LeftOpenBy(s.catalog, q, a), ListSlots(s, now, q).value);
  }

  lemma {:induction false} FilterCongruent(f: Instant -> bool, g: Instant -> bool, ts: seq<Instant>)
    requires forall t :: f(t) == g(t)
    ensures Filter(f, ts) == Filter(g, ts)
  {
    if ts != [] { FilterCongruent(f, g, ts[1..]); }
  }
}
