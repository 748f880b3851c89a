/** Inbound messages and their debounce: apps/channel/services.py. Instants are whole microseconds. */
module Channel {
  import opened Prelude

  datatype Status = Collecting | ReadyToConfirm | Emitted | Expired | Cancelled

  /** `createdAt` records the instant of creation. */
  datatype Session = Session(
    key: string, phone: string, status: Status, text: string, lastMessageId: string, lastAt: int, createdAt: int)

  const DEBOUNCE: int := 5_000_000

  /** One message; `now` and `later` are the two readings of the clock the service takes. */
  datatype Inbound = Inbound(phone: string, messageId: string, text: string, now: int, later: int)

  function Key(phone: string, messageId: string): string { phone + [':'] + messageId }

  function ByKey(sessions: seq<Session>, key: string): (r: Option<nat>)
    ensures r.Some? ==> r.value < |sessions| && sessions[r.value].key == key
    ensures r.None? ==> forall i :: 0 <= i < |sessions| ==> sessions[i].key != key
  {
    if sessions == [] then None
    else if sessions[|sessions| - 1].key == key then Some(|sessions| - 1)
    else ByKey(sessions[..|sessions| - 1], key)
  }

  predicate IsRecent(s: Session, phone: string, start: int) {
    s.phone == phone && s.status == Collecting && s.lastAt >= start
  }

  /** The recent session of the phone with the latest message. */
  function Recent(sessions: seq<Session>, phone: string, start: int): (r: Option<nat>)
    ensures r.Some? ==> r.value < |sessions| && IsRecent(sessions[r.value], phone, start)
    ensures r.Some? ==>
      forall i :: 0 <= i < |sessions| && IsRecent(sessions[i], phone, start) ==>
          sessions[i].lastAt <= sessions[r.value].lastAt
    ensures r.None? ==> forall i :: 0 <= i < |sessions| ==> !IsRecent(sessions[i], phone, start)
  {
    if sessions == [] then None
    else
      var n := |sessions| - 1;
      var front := Recent(sessions[..n], phone, start);
      if !IsRecent(sessions[n], phone, start) then front
      else if front.Some? && sessions[front.value].lastAt >= sessions[n].lastAt then front
      else Some(n)
  }

  /** The sessions after one message, and the session that took it. */
  function Ingest(sessions: seq<Session>, m: Inbound): (seq<Session>, nat) {
    var key := Key(m.phone, m.messageId);
    var existing := ByKey(sessions, key);
    if existing.Some? then
      (sessions[existing.value := sessions[existing.value].(text := m.text, lastAt := m.now)], existing.value)
    else
      var recent := Recent(sessions, m.phone, m.now - DEBOUNCE);
      if recent.Some? then
        (sessions[recent.value := sessions[recent.value].(text := m.text, lastMessageId := m.messageId,
            lastAt := m.later)],
         recent.value)
      else
        (sessions + [Session(key, m.phone, Collecting, m.text, m.messageId, m.later, m.later)], |sessions|)
  }

  function Run(sessions: seq<Session>, ms: seq<Inbound>): seq<Session>
    decreases |ms|
  {
    if ms == [] then sessions else Run(Ingest(sessions, ms[0]).0, ms[1..])
  }

  /** The clock never runs backwards, within a call or from one call to the next. */
  predicate Clocked(from: int, ms: seq<Inbound>)
    decreases |ms|
  {
    ms == [] || (from <= ms[0].now <= ms[0].later && Clocked(ms[0].later, ms[1..]))
  }

  /** A message is taken by exactly one session, the only one that changes: it holds the text and keeps its
      key, phone, status and creation. A new session is created exactly when the key is unknown and no
      collecting session of the phone had a message in the last five seconds. */
  lemma IngestTakesMessage(sessions: seq<Session>, m: Inbound)
    ensures var (t, at) := Ingest(sessions, m);
      && |sessions| <= |t| <= |sessions| + 1 && at < |t| && t[at].text == m.text
      && (forall i :: 0 <= i < |sessions| && i != at ==> t[i] == sessions[i])
      && (at < |sessions| ==>
            var s := sessions[at];
            t[at].key == s.key && t[at].phone == s.phone && t[at].status == s.status && t[at].createdAt == s.createdAt)
      && (|t| > |sessions| <==>
            && (forall i :: 0 <= i < |sessions| ==> sessions[i].key != Key(m.phone, m.messageId))
            && (forall i :: 0 <= i < |sessions| ==> !IsRecent(sessions[i], m.phone, m.now - DEBOUNCE)))
      && (|t| > |sessions| ==>
            at == |sessions| && t[at].phone == m.phone && t[at].lastMessageId == m.messageId
                && t[at].createdAt == m.later)
  {
  }

  /** Which session takes a message, and what it keeps: the one whose key is the phone and the message id, else
      the collecting session of the phone with the latest message of the last five seconds, else a new one. */
  lemma IngestOutcome(sessions: seq<Session>, m: Inbound)
    ensures var ((t, at), key) := (Ingest(sessions, m), m.phone + [':'] + m.messageId);
      if exists s :: s in sessions && s.key == key then
        && at < |sessions| && sessions[at].key == key
        && t == sessions[at := sessions[at].(text := m.text, lastAt := m.now)]
      else if exists s :: s in sessions && s.phone == m.phone && s.status == Collecting && m.now - 5_000_000 <= s.lastAt
      then
        && at < |sessions| && sessions[at].phone == m.phone && sessions[at].status == Collecting
        && m.now - 5_000_000 <= sessions[at].lastAt
        && (forall s :: s in sessions && s.phone == m.phone && s.status == Collecting ==>
              s.lastAt <= sessions[at].lastAt)
        && t == sessions[at := sessions[at].(text := m.text, lastMessageId := m.messageId, lastAt := m.later)]
      else
        && at == |sessions|
        && t == sessions + [Session(key, m.phone, Collecting, m.text, m.messageId, m.later, m.later)]
  {
    var known, recent := ByKey(sessions, Key(m.phone, m.messageId)), Recent(sessions, m.phone, m.now - DEBOUNCE);
    if known.Some? { assert sessions[known.value] in sessions; }
    if recent.Some? { assert sessions[recent.value] in sessions; }
    assert forall s :: s in sessions && IsRecent(s, m.phone, m.now - DEBOUNCE) ==> recent.Some?;
  }

  // ---- spacing ----------------------------------------------------------------------------------

  /** Sessions of one phone are created more than five seconds apart, in order of creation. */
  ghost predicate Spaced(sessions: seq<Session>) {
    forall i, j :: 0 <= i < j < |sessions| && sessions[i].phone == sessions[j].phone ==>
      sessions[i].createdAt + DEBOUNCE < sessions[j].createdAt
  }

  predicate SessionSound(s: Session, clock: int) {
    s.status == Collecting && s.createdAt <= s.lastAt <= clock
  }

  /** Every session is collecting, was created no later than its last message, and that not after `clock`. */
  ghost predicate Sound(sessions: seq<Session>, clock: int) {
    && Spaced(sessions)
    && forall i :: 0 <= i < |sessions| ==> SessionSound(sessions[i], clock)
  }

  lemma IngestIsSound(sessions: seq<Session>, m: Inbound, clock: int)
    requires Sound(sessions, clock) && clock <= m.now <= m.later
    ensures Sound(Ingest(sessions, m).0, m.later)
  {
    var t, at := Ingest(sessions, m).0, Ingest(sessions, m).1;
    forall i | 0 <= i < |t| ensures SessionSound(t[i], m.later) {
      if i < |sessions| { assert SessionSound(sessions[i], clock); }
    }
    if |t| > |sessions| {
      forall i | 0 <= i < |sessions| && sessions[i].phone == m.phone
          ensures sessions[i].createdAt + DEBOUNCE < m.later {
        assert SessionSound(sessions[i], clock) && !IsRecent(sessions[i], m.phone, m.now - DEBOUNCE);
      }
    }
  }

  /** Main result, over every run from no session and a clock that never runs backwards: sessions of one
      phone are created pairwise more than five seconds apart. */
  lemma {:induction false} RunIsSound(sessions: seq<Session>, ms: seq<Inbound>, clock: int)
    requires Sound(sessions, clock) && Clocked(clock, ms)
    ensures Spaced(Run(sessions, ms))
    decreases |ms|
  {
    if ms != [] {
      IngestIsSound(sessions, ms[0], clock);
      RunIsSound(Ingest(sessions, ms[0]).0, ms[1..], ms[0].later);
    }
  }

  /** How many sessions of the phone were created from `from` to `until`, both included. */
  function Created(sessions: seq<Session>, phone: string, from: int, until: int): nat {
    if sessions == [] then 0
    else
      var last := sessions[|sessions| - 1];
      Created(sessions[..|sessions| - 1], phone, from, until)
      + if last.phone == phone && from <= last.createdAt <= until then 1 else 0
  }

  lemma {:induction false} CreatedBefore(sessions: seq<Session>, phone: string, from: int, until: int, bound: int)
    requires bound <= until
    requires forall i :: 0 <= i < |sessions| && sessions[i].phone == phone ==> sessions[i].createdAt <= bound
    ensures Created(sessions, phone, from, until) == Created(sessions, phone, from, bound)
  {
    if sessions != [] {
      CreatedBefore(sessions[..|sessions| - 1], phone, from, until, bound);
    }
  }

  lemma {:induction false} CreatedNone(sessions: seq<Session>, phone: string, from: int, until: int)
    requires until < from
    ensures Created(sessions, phone, from, until) == 0
  {
    if sessions != [] {
      CreatedNone(sessions[..|sessions| - 1], phone, from, until);
    }
  }

  /** A window of L microseconds holds at most 1 + L div 5000001 creations of one phone, hence at most one
      more than the whole periods of five seconds in it. */
  lemma {:induction false} WindowBound(sessions: seq<Session>, phone: string, from: int, until: int)
    requires Spaced(sessions) && from <= until
    ensures Created(sessions, phone, from, until) <= 1 + (until - from) / (DEBOUNCE + 1)
            <= 1 + (until - from) / DEBOUNCE
  {
    if sessions != [] {
      var n := |sessions| - 1;
      var front, last := sessions[..n], sessions[n];
      if last.phone == phone && from <= last.createdAt <= until {
        var bound := last.createdAt - (DEBOUNCE + 1);
        CreatedBefore(front, phone, from, until, bound);
        if from <= bound { WindowBound(front, phone, from, bound); } else { CreatedNone(front, phone, from, bound); }
      } else {
        WindowBound(front, phone, from, until);
      }
    }
  }

  // ---- bursts -----------------------------------------------------------------------------------

  /** A session's key names its phone, because no phone holds the separator. */
  predicate Keyed(s: Session) {
    ':' !in s.phone && |s.phone| < |s.key| && s.key[..|s.phone|] == s.phone && s.key[|s.phone|] == ':'
  }

  /** A text without the separator that begins the key ends no later than the first separator. */
  lemma EndsBefore(key: string, a: string, n: nat)
    requires |a| <= |key| && key[..|a|] == a && ':' !in a && n < |key| && key[n] == ':'
    ensures |a| <= n
  {
    assert forall i :: 0 <= i < |a| ==> a[i] == key[i];
  }

  lemma KeyNamesPhone(s: Session, phone: string, messageId: string)
    requires Keyed(s) && s.key == Key(phone, messageId) && ':' !in phone
    ensures s.phone == phone
  {
    var key := s.key;
    assert key[|phone|] == ':' && key[..|phone|] == phone;
    EndsBefore(key, s.phone, |phone|);
    EndsBefore(key, phone, |s.phone|);
  }

  /** All of one phone, each at most five seconds after the one before. */
  predicate Burst(phone: string, ms: seq<Inbound>) {
    forall k :: 0 <= k < |ms| ==> ms[k].phone == phone && (k > 0 ==> ms[k].now <= ms[k - 1].now + DEBOUNCE)
  }

  ghost predicate AllKeyed(sessions: seq<Session>) { forall i :: 0 <= i < |sessions| ==> Keyed(sessions[i]) }

  /** The message leaves a collecting session of its phone no older than its instant. */
  lemma IngestLeavesRecent(sessions: seq<Session>, m: Inbound, clock: int)
    requires Sound(sessions, clock) && clock <= m.now <= m.later && AllKeyed(sessions) && ':' !in m.phone
    ensures AllKeyed(Ingest(sessions, m).0)
    ensures var (t, at) := Ingest(sessions, m); at < |t| && IsRecent(t[at], m.phone, m.now)
  {
    var existing := ByKey(sessions, Key(m.phone, m.messageId));
    if existing.Some? {
      KeyNamesPhone(sessions[existing.value], m.phone, m.messageId);
      assert SessionSound(sessions[existing.value], clock);
    }
  }

  /** While some session of the phone is recent enough, a burst that follows creates none. */
  lemma {:induction false} BurstIsAbsorbed(sessions: seq<Session>, ms: seq<Inbound>, phone: string, clock: int, at: nat)
    requires Sound(sessions, clock) && Clocked(clock, ms) && AllKeyed(sessions) && ':' !in phone && Burst(phone, ms)
    requires ms != [] ==> at < |sessions| && IsRecent(sessions[at], phone, ms[0].now - DEBOUNCE)
    ensures |Run(sessions, ms)| == |sessions|
    decreases |ms|
  {
    if ms != [] {
      IngestIsSound(sessions, ms[0], clock);
      IngestLeavesRecent(sessions, ms[0], clock);
      var (t, next) := Ingest(sessions, ms[0]);
      assert |ms| > 1 ==> ms[1..][0] == ms[1];
      BurstIsAbsorbed(t, ms[1..], phone, ms[0].later, next);
    }
  }

  /** A burst of messages of one phone, however long, creates at most one session. */
  lemma BurstCreatesOne(sessions: seq<Session>, ms: seq<Inbound>, phone: string, clock: int)
    requires Sound(sessions, clock) && Clocked(clock, ms) && AllKeyed(sessions) && ':' !in phone && Burst(phone, ms)
    ensures |Run(sessions, ms)| <= |sessions| + 1
  {
    if ms != [] {
      IngestIsSound(sessions, ms[0], clock);
      IngestLeavesRecent(sessions, ms[0], clock);
      var (t, next) := Ingest(sessions, ms[0]);
      assert |ms| > 1 ==> ms[1..][0] == ms[1];
      BurstIsAbsorbed(t, ms[1..], phone, ms[0].later, next);
    }
  }

  // ---- the service ------------------------------------------------------------------------------

  class ChannelService {
    var sessions: seq<Session>

    constructor ()
      ensures sessions == []
    {
      sessions := [];
    }

    method IngestInboundMessage(m: Inbound) returns (at: nat)
      modifies this
      ensures (sessions, at) == Ingest(old(sessions), m)
    {
      var key := Key(m.phone, m.messageId);
      var existing := ByKey(sessions, key);
      if existing.Some? {
        at := existing.value;
        sessions := sessions[at := sessions[at].(text := m.text, lastAt := m.now)];
        return;
      }
      var start := m.now - DEBOUNCE;
      var recent := Recent(sessions, m.phone, start);
      if recent.Some? {
        at := recent.value;
        sessions := sessions[at := sessions[at].(text := m.text, lastMessageId := m.messageId, lastAt := m.later)];
        return;
      }
      at := |sessions|;
      sessions := sessions + [Session(key, m.phone, Collecting, m.text, m.messageId, m.later, m.later)];
    }
  }
}
