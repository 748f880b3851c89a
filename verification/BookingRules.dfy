/** Pure booking rules: apps/scheduling/booking_rules.py. Instants are microseconds. */
module BookingRules {
  type Instant = int

  const SECOND: int := 1_000_000
  const MINUTE: int := 60_000_000
  const DAY: int := 86_400_000_000
  const PAST_GRACE: int := MINUTE

  datatype Status =
    | Pending | Confirmed | NoShowPending | NoShow | CheckedIn | InProgress | Completed | Cancelled

  const SLOT_BLOCKING: set<Status> := {Pending, Confirmed, NoShowPending, CheckedIn, InProgress, Completed}

  /** The six service calls that move an appointment. */
  datatype Action = Confirm | Cancel | CheckIn | Start | Complete | MarkNoShow

  function AllowedFrom(a: Action): set<Status> {
    match a
    case Confirm => {Pending}
    case Cancel => {Pending, Confirmed, NoShowPending, CheckedIn}
    case CheckIn => {Confirmed, NoShowPending}
    case Start => {CheckedIn}
    case Complete => {InProgress}
    case MarkNoShow => {Pending, Confirmed, NoShowPending}
  }

  function Target(a: Action): Status {
    match a
    case Confirm => Confirmed
    case Cancel => Cancelled
    case CheckIn => CheckedIn
    case Start => InProgress
    case Complete => Completed
    case MarkNoShow => NoShow
  }

  /** A half-open interval [start, end) of instants. */
  datatype Span = Span(start: Instant, end: Instant) {
    predicate Overlaps(that: Span) {
      start < that.end && that.start < end
    }

    predicate Contains(t: Instant) {
      start <= t < end
    }

    function Expand(bufferBefore: nat, bufferAfter: nat): Span {
      Span(start - bufferBefore * MINUTE, end + bufferAfter * MINUTE)
    }
  }

  predicate InPast(startsAt: Instant, now: Instant) {
    startsAt < now - PAST_GRACE
  }

  function ComputeEndsAt(startsAt: Instant, durationMinutes: int): Instant {
    startsAt + durationMinutes * MINUTE
  }

  predicate EndsMatchDuration(startsAt: Instant, endsAt: Instant, durationMinutes: int) {
    -60 * SECOND <= endsAt - ComputeEndsAt(startsAt, durationMinutes) <= 60 * SECOND
  }

  /** The overlap test is exactly "some instant lies in both", for non-empty intervals. */
  lemma OverlapIsCommonInstant(a: Span, b: Span)
    requires a.start < a.end && b.start < b.end
    ensures a.Overlaps(b) <==> exists t: Instant :: a.Contains(t) && b.Contains(t)
  {
    if a.Overlaps(b) {
      var t := if a.start < b.start then b.start else a.start;
      assert a.Contains(t) && b.Contains(t);
    }
  }

  /** An interval kept clear of a footprint is clear of the interval the footprint expands. */
  lemma ClearOfFootprint(a: Span, b: Span, ab: nat, aa: nat, bb: nat, ba: nat)
    ensures a.Overlaps(b) ==> a.Expand(ab, aa).Overlaps(b.Expand(bb, ba))
  {
  }

  /** No service call brings a cancelled or no-show appointment back to a slot-blocking status. */
  lemma NoReentry(a: Action, s: Status)
    ensures s !in SLOT_BLOCKING ==> s !in AllowedFrom(a)
    ensures s == Completed ==> s !in AllowedFrom(a)
    ensures Target(a) != NoShowPending && Target(a) != Pending
  {
  }
}
