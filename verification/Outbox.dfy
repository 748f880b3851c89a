/** The outbox table and its dispatcher: apps/ops/dispatcher.py and the enqueue of apps/ops/services.py.
    Instants are whole microseconds; a message is named by its position. */
module Outbox {
  import opened Prelude

  datatype Status = Pending | Processing | Processed | Failed | Dead
  datatype EventType = NfIssueQueued | OtherEvent(name: string)

  /** `queuedAt` is the first availability. `runs` and `failures` record the history: the instants at which
      the handler ran, and how many of the runs raised. */
  datatype Message = Message(
    event: EventType, status: Status, attempts: nat, availableAt: int, error: bool,
    queuedAt: int, runs: seq<int>, failures: nat)

  datatype Answer = Missing | Already(status: Status) | NotReady | Skipped | HandlerFailed | HandlerDone

  const MAX_ATTEMPTS: nat := 8
  const SECOND: int := 1_000_000

  function Enqueue(rows: seq<Message>, event: EventType, now: int): seq<Message> {
    rows + [Message(event, Pending, 0, now, false, now, [], 0)]
  }

  /** One claim of a message: `now` is the clock when it is checked, `later` when a failure is recorded. */
  function Dispatch(m: Message, now: int, raises: bool, later: int): (Message, Answer) {
    if m.status != Pending && m.status != Failed then (m, Already(m.status))
    else if m.availableAt > now then (m, NotReady)
    else if m.event == NfIssueQueued then (m.(status := Processed), Skipped)
    else
      var run := m.(attempts := m.attempts + 1, runs := m.runs + [now]);
      if !raises then (run.(status := Processed, error := false), HandlerDone)
      else if run.attempts >= MAX_ATTEMPTS
          then (run.(status := Dead, error := true, failures := m.failures + 1), HandlerFailed)
      else
        (run.(status := Failed, error := true, availableAt := later + 30 * SECOND * run.attempts,
            failures := m.failures + 1),
         HandlerFailed)
  }

  /** The issue worker marks the pending message of the issue it has processed. */
  function WorkerDone(m: Message): Message {
    if m.event == NfIssueQueued && m.status == Pending then m.(status := Processed) else m
  }

  datatype Step =
    | EnqueueStep(event: EventType, now: int)
    | ClaimStep(id: nat, now: int, raises: bool, later: int)
    | WorkerStep(id: nat)

  function Claim(rows: seq<Message>, id: nat, now: int, raises: bool, later: int): (seq<Message>, Answer) {
    if id >= |rows| then (rows, Missing)
    else
      var (m, answer) := Dispatch(rows[id], now, raises, later);
      (rows[id := m], answer)
  }

  function Perform(rows: seq<Message>, step: Step): seq<Message> {
    match step
    case EnqueueStep(event, now) => Enqueue(rows, event, now)
    case ClaimStep(id, now, raises, later) => Claim(rows, id, now, raises, later).0
    case WorkerStep(id) => if id < |rows| then rows[id := WorkerDone(rows[id])] else rows
  }

  function Run(rows: seq<Message>, steps: seq<Step>): seq<Message>
    decreases |steps|
  {
    if steps == [] then rows else Run(Perform(rows, steps[0]), steps[1..])
  }

  /** Within each claim the clock does not run backwards. */
  predicate Clocked(step: Step) { step.ClaimStep? ==> step.now <= step.later }

  // ---- invariant --------------------------------------------------------------------------------

  /** The waiting time before attempt `k`, in microseconds. */
  function Backoff(k: nat): int
    requires k >= 1
  {
    if k == 1 then 0 else Backoff(k - 1) + 30 * SECOND * (k - 1)
  }

  lemma {:induction false} BackoffIsQuadratic(k: nat)
    requires k >= 1
    ensures Backoff(k) == 15 * k * (k - 1) * SECOND
  {
    if k > 1 {
      BackoffIsQuadratic(k - 1);
      Quadratic(k, SECOND);
    }
  }

  lemma Quadratic(k: int, s: int)
    ensures 15 * k * (k - 1) * s == 15 * (k - 1) * (k - 2) * s + 30 * s * (k - 1)
  {
    var p := (k - 1) * s;
    assert 15 * k * (k - 1) * s == 15 * (k * p);
    assert 15 * (k - 1) * (k - 2) * s == 15 * ((k - 2) * p);
    assert k * p == (k - 2) * p + 2 * p;
  }

  /** Attempt k+1 runs no earlier than the first availability plus its waiting time. */
  ghost predicate RunsSpaced(queuedAt: int, runs: seq<int>) {
    forall k: nat :: k < |runs| ==> runs[k] >= queuedAt + Backoff(k + 1)
  }

  /** What each status says about the history. */
  predicate Counted(m: Message) {
    && m.attempts == |m.runs| <= MAX_ATTEMPTS
    && m.failures <= m.attempts <= m.failures + 1
    && (m.attempts == m.failures + 1 ==> m.status == Processed)
    && (m.status == Dead <==> m.failures == MAX_ATTEMPTS)
    && (m.status == Pending ==> m.attempts == 0)
    && (m.status == Failed ==> m.attempts > 0)
    && m.status != Processing
    && (m.event == NfIssueQueued ==> m.attempts == 0)
  }

  ghost predicate Sound(m: Message) {
    && Counted(m)
    && RunsSpaced(m.queuedAt, m.runs)
    && (m.status == Pending || m.status == Failed ==> m.availableAt >= m.queuedAt + Backoff(m.attempts + 1))
  }

  ghost predicate AllSound(rows: seq<Message>) { forall i :: 0 <= i < |rows| ==> Sound(rows[i]) }

  lemma DispatchIsSound(m: Message, now: int, raises: bool, later: int)
    requires Sound(m) && now <= later
    ensures Sound(Dispatch(m, now, raises, later).0)
  {
    var t := Dispatch(m, now, raises, later).0;
    if t.runs != m.runs {
      assert now >= m.queuedAt + Backoff(m.attempts + 1);
      assert RunsSpaced(t.queuedAt, t.runs);
    }
  }

  /** Main result, over every run from the empty table: each message satisfies Sound. In particular its
      handler runs at most 8 times and never for nf_issue.queued; attempt k starts at least 15*k*(k-1)
      seconds after the first availability; it is DEAD exactly when 8 runs have raised; and no message is
      left PROCESSING. */
  lemma {:induction false} RunIsSound(rows: seq<Message>, steps: seq<Step>)
    requires AllSound(rows) && forall k :: 0 <= k < |steps| ==> Clocked(steps[k])
    ensures AllSound(Run(rows, steps))
    decreases |steps|
  {
    if steps != [] {
      var step := steps[0];
      if step.ClaimStep? && step.id < |rows| {
        DispatchIsSound(rows[step.id], step.now, step.raises, step.later);
      }
      RunIsSound(Perform(rows, step), steps[1..]);
    }
  }

  /** What one claim does: only a pending or failed message that is due is claimed. One of nf_issue.queued is
      processed without a run; any other runs once, and is then processed, or failed until half a minute per
      attempt has passed, or dead after the eighth attempt. */
  lemma DispatchOutcome(m: Message, now: int, raises: bool, later: int)
    ensures var (t, answer) := Dispatch(m, now, raises, later);
      if m.status == Processed || m.status == Dead || m.status == Processing then t == m && answer == Already(m.status)
      else if now < m.availableAt then t == m && answer == NotReady
      else if m.event == NfIssueQueued then t == m.(status := Processed) && answer == Skipped
      else
        && t.attempts == m.attempts + 1 && t.runs == m.runs + [now] && t.event == m.event && t.queuedAt == m.queuedAt
        && (answer == if raises then HandlerFailed else HandlerDone)
        && t.error == raises && t.failures == m.failures + (if raises then 1 else 0)
        && t.status == (if !raises then Processed else if t.attempts < 8 then Failed else Dead)
        && t.availableAt == if t.status == Failed then later + 30_000_000 * t.attempts else m.availableAt
  {
  }

  /** A claim touches its own message only; the worker marks the pending message of the issue it has processed
      and no other; a new message is pending, never tried, and available at once. */
  lemma StepOutcome(rows: seq<Message>, id: nat, now: int, raises: bool, later: int, event: EventType)
    ensures Claim(rows, id, now, raises, later) ==
      if id < |rows| then
        (rows[id := Dispatch(rows[id], now, raises, later).0], Dispatch(rows[id], now, raises, later).1)
      else (rows, Missing)
    ensures Perform(rows, ClaimStep(id, now, raises, later)) == Claim(rows, id, now, raises, later).0
    ensures Perform(rows, WorkerStep(id)) ==
      if id < |rows| && rows[id].event == NfIssueQueued && rows[id].status == Pending
      then rows[id := rows[id].(status := Processed)] else rows
    ensures Perform(rows, EnqueueStep(event, now)) == rows + [Message(event, Pending, 0, now, false, now, [], 0)]
  {
    if id < |rows| { assert rows[id := rows[id]] == rows; }
  }

  /** Read off the invariant: the spacing of the attempts in seconds, and the count. */
  lemma AttemptsAreSpaced(m: Message, k: nat)
    requires Sound(m) && k < |m.runs|
    ensures k < MAX_ATTEMPTS && m.runs[k] >= m.queuedAt + 15 * (k + 1) * k * SECOND
  {
    BackoffIsQuadratic(k + 1);
  }

  /** PROCESSED and DEAD are final: no step changes such a message at all. */
  lemma {:induction false} SettledIsFinal(rows: seq<Message>, steps: seq<Step>, id: nat)
    requires id < |rows| && (rows[id].status == Processed || rows[id].status == Dead)
    ensures id < |Run(rows, steps)| && Run(rows, steps)[id] == rows[id]
    decreases |steps|
  {
    if steps != [] {
      SettledIsFinal(Perform(rows, steps[0]), steps[1..], id);
    }
  }

  // ---- the bounds are reached -------------------------------------------------------------------

  /** A handler that always raises, claimed at each first opportunity: `n` claims of message 0. */
  function Eager(at: int, n: nat): seq<Step> {
    if n == 0 then []
    else
      var k := at + Backoff(n);
      Eager(at, n - 1) + [ClaimStep(0, k, true, k)]
  }

  lemma {:induction false} RunAppend(rows: seq<Message>, steps: seq<Step>, step: Step)
    ensures Run(rows, steps + [step]) == Perform(Run(rows, steps), step)
    decreases |steps|
  {
    if steps == [] {
      assert [] + [step] == [step];
      assert [step][1..] == [];
    } else {
      assert (steps + [step])[1..] == steps[1..] + [step];
      RunAppend(Perform(rows, steps[0]), steps[1..], step);
    }
  }

  /** Eight claims at exactly those instants all run, and the last one kills the message: neither bound
      can be improved. */
  lemma {:induction false} BoundsAreReached(name: string, at: int, n: nat)
    requires n <= MAX_ATTEMPTS
    ensures var t := Run(Enqueue([], OtherEvent(name), at), Eager(at, n));
      && |t| == 1 && t[0].queuedAt == at && t[0].attempts == |t[0].runs| == n
      && (forall k: nat :: k < n ==> t[0].runs[k] == at + Backoff(k + 1))
      && t[0].event == OtherEvent(name)
      && t[0].status == (if n == 0 then Pending else if n < MAX_ATTEMPTS then Failed else Dead)
      && (n < MAX_ATTEMPTS ==> t[0].availableAt == at + Backoff(n + 1))
  {
    var rows := Enqueue([], OtherEvent(name), at);
    if n > 0 {
      BoundsAreReached(name, at, n - 1);
      var k := at + Backoff(n);
      RunAppend(rows, Eager(at, n - 1), ClaimStep(0, k, true, k));
    }
  }

  // ---- the dispatcher ---------------------------------------------------------------------------

  class Dispatcher {
    var rows: seq<Message>

    constructor ()
      ensures rows == [] && AllSound(rows)
    {
      rows := [];
    }

    method EnqueueOutbox(event: EventType, now: int) returns (id: nat)
      modifies this
      ensures id == |old(rows)| && rows == Enqueue(old(rows), event, now)
      ensures AllSound(old(rows)) ==> AllSound(rows)
    {
      id := |rows|;
      rows := rows + [Message(event, Pending, 0, now, false, now, [], 0)];
    }

    /** Claims one message. `raises` is what the handler does, `later` the clock after it. */
    method ClaimAndDispatch(id: nat, now: int, raises: bool, later: int) returns (answer: Answer)
      requires now <= later
      modifies this
      ensures (rows, answer) == Claim(old(rows), id, now, raises, later)
      ensures AllSound(old(rows)) ==> AllSound(rows)
    {
      if id >= |rows| {
        return Missing;
      }
      var m := rows[id];
      assert rows[id := m] == rows;
      if m.status != Pending && m.status != Failed {
        return Already(m.status);
      }
      if m.availableAt > now {
        return NotReady;
      }
      if AllSound(rows) { DispatchIsSound(m, now, raises, later); }
      if m.event == NfIssueQueued {
        rows := rows[id := m.(status := Processed)];
        return Skipped;
      }
      m := m.(status := Processing, attempts := m.attempts + 1, runs := m.runs + [now]);
      rows := rows[id := m];
      if raises {
        m := m.(error := true, failures := m.failures + 1);
        if m.attempts >= MAX_ATTEMPTS {
          m := m.(status := Dead);
        } else {
          m := m.(status := Failed, availableAt := later + 30 * SECOND * m.attempts);
        }
        rows := rows[id := m];
        assert rows == old(rows)[id := m];
        return HandlerFailed;
      }
      m := m.(status := Processed, error := false);
      rows := rows[id := m];
      assert rows == old(rows)[id := m];
      answer := HandlerDone;
    }
  }
}
