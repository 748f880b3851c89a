/** Convergence of webhook callbacks: apps/billing/services.py:690-708, 833-838, 863-933. */
module Webhooks {
  import opened Prelude
  import opened Charges
  import opened ChargeRuns

  /** What a final payload asks of a charge of the given amount. */
  datatype Effect = Pay | CancelIt | Lifecycle(status: Status) | Nothing

  function EffectOf(p: Payload, amount: int): Effect {
    if IsPayment(p) then (if p.amount == Some(amount) then Pay else Nothing)
    else if p.hub.value.Cancelled? then CancelIt
    else Lifecycle(p.hub.value)
  }

  function Effects(ps: seq<Payload>, amount: int): seq<Effect> {
    seq(|ps|, i requires 0 <= i < |ps| => EffectOf(ps[i], amount))
  }

  /** The outcome read off the whole list: a payment wins, then a cancellation, then the last word. */
  function Outcome(start: Status, es: seq<Effect>): Status {
    if start.Paid? || Pay in es then Paid
    else if start.Cancelled? || CancelIt in es then Cancelled
    else LastWord(start, es)
  }

  function LastWord(start: Status, es: seq<Effect>): Status {
    if es == [] then start
    else if es[|es| - 1].Lifecycle? then es[|es| - 1].status
    else LastWord(start, es[..|es| - 1])
  }

  /** The status after one callback. */
  function After(current: Status, e: Effect): Status {
    match e
    case Pay => Paid
    case CancelIt => LifecycleStatus(current, Cancelled)
    case Lifecycle(s) => LifecycleStatus(current, s)
    case Nothing => current
  }

  ghost predicate NoPaidLifecycle(es: seq<Effect>) {
    forall e :: e in es && e.Lifecycle? ==> !e.status.Paid? && !e.status.Cancelled?
  }

  /** One more callback moves the outcome as the service moves the status. */
  lemma OutcomeStep(start: Status, es: seq<Effect>, e: Effect)
    requires NoPaidLifecycle(es + [e])
    ensures Outcome(start, es + [e]) == After(Outcome(start, es), e)
  {
    assert (es + [e])[..|es|] == es;
    assert forall x :: x in es ==> x in es + [e];
    if !(start.Paid? || Pay in es) && !(start.Cancelled? || CancelIt in es) {
      LastWordIsOpen(start, es);
    }
  }

  lemma {:induction false} LastWordIsOpen(start: Status, es: seq<Effect>)
    requires !start.Paid? && !start.Cancelled? && NoPaidLifecycle(es)
    ensures !LastWord(start, es).Paid? && !LastWord(start, es).Cancelled?
  {
    if es != [] {
      assert es[|es| - 1] in es;
      LastWordIsOpen(start, es[..|es| - 1]);
    }
  }

  /** The first two outcomes do not depend on the order of delivery. */
  lemma OutcomeIgnoresOrder(start: Status, es: seq<Effect>, fs: seq<Effect>)
    requires multiset(es) == multiset(fs) && (start.Paid? || start.Cancelled? || Pay in es || CancelIt in es)
    ensures Outcome(start, es) == Outcome(start, fs)
  {
    forall e: Effect ensures e in es <==> e in fs {
      assert e in es <==> e in multiset(es);
      assert e in fs <==> e in multiset(fs);
    }
  }

  // ---- the service on a list of callbacks ---------------------------------------------------------

  datatype Callback = Callback(key: string, payload: Payload)

  function IngestAll(b: Billing, provider: string, cs: seq<Callback>): Billing {
    if cs == [] then b
    else Ingest(IngestAll(b, provider, cs[..|cs| - 1]), provider, cs[|cs| - 1].key, cs[|cs| - 1].payload, Unreachable).0
  }

  /** Lookups see the same rows: only statuses differ. */
  ghost predicate SameDirectory(b: Billing, t: Billing) {
    && t.nextId == b.nextId && t.charges.Keys == b.charges.Keys
    && forall id :: id in b.charges ==> t.charges[id].(status := b.charges[id].status) == b.charges[id]
  }

  lemma {:induction false} SameFirst(b: Billing, t: Billing, bound: nat, p: Charge -> bool)
    requires SameDirectory(b, t)
    requires forall c: Charge, s: Status :: p(c.(status := s)) == p(c)
    ensures FirstWhere(t.charges, bound, p) == FirstWhere(b.charges, bound, p)
  {
    if bound > 0 {
      SameFirst(b, t, bound - 1, p);
      if bound - 1 in b.charges {
        assert b.charges[bound - 1] == t.charges[bound - 1].(status := b.charges[bound - 1].status);
      }
    }
  }

  lemma SameCharge(b: Billing, t: Billing, p: Payload)
    requires SameDirectory(b, t)
    ensures FindCharge(t, p) == FindCharge(b, p)
  {
    SameFirst(b, t, b.nextId, (c: Charge) => c.gatewayRef == p.gatewayRef);
    if p.externalRef.ControlCode? {
      SameFirst(b, t, b.nextId, (c: Charge) => c.seuNumero == p.externalRef.text);
    }
  }

  /** Fresh, pairwise distinct keys; final payloads; all about one charge. */
  ghost predicate Delivery(b: Billing, provider: string, cs: seq<Callback>, id: nat) {
    && id in b.charges
    && (forall c :: c in cs ==> c.key != "" && !c.payload.needsEnrich && FindCharge(b, c.payload) == Some(id)
                                && FindInbox(b.inboxes, provider, c.key).None?)
    && (forall i, j :: 0 <= i < j < |cs| ==> cs[i].key != cs[j].key)
  }

  function Payloads(cs: seq<Callback>): seq<Payload> {
    seq(|cs|, i requires 0 <= i < |cs| => cs[i].payload)
  }

  lemma EffectsExtend(cs: seq<Callback>, amount: int)
    requires cs != []
    ensures Effects(Payloads(cs), amount)
            == Effects(Payloads(cs[..|cs| - 1]), amount) + [EffectOf(cs[|cs| - 1].payload, amount)]
  {
  }

  lemma EffectsAreTame(ps: seq<Payload>, amount: int)
    ensures NoPaidLifecycle(Effects(ps, amount))
  {
  }

  lemma SettleEffect(b: Billing, i: nat, id: nat, p: Payload)
    requires i < |b.inboxes| && id in b.charges
    ensures var t := Settle(b, i, id, p);
      && SameDirectory(b, t)
      && t.charges[id].status == After(b.charges[id].status, EffectOf(p, b.charges[id].amount))
      && |t.inboxes| == |b.inboxes| && t.inboxes[i].(status := b.inboxes[i].status) == b.inboxes[i]
      && forall k :: 0 <= k < |b.inboxes| && k != i ==> t.inboxes[k] == b.inboxes[k]
  {
  }

  /** One fresh, final callback applies its effect to the charge and nothing to the other rows. */
  lemma OneCallback(b: Billing, provider: string, c: Callback, id: nat)
    requires Safe(b) && id in b.charges && c.key != "" && !c.payload.needsEnrich
    requires FindCharge(b, c.payload) == Some(id) && FindInbox(b.inboxes, provider, c.key).None?
    ensures var t := Ingest(b, provider, c.key, c.payload, Unreachable).0;
      && SameDirectory(b, t)
      && t.charges[id].status == After(b.charges[id].status, EffectOf(c.payload, b.charges[id].amount))
      && |t.inboxes| == |b.inboxes| + 1
      && (forall i :: 0 <= i < |b.inboxes| ==> t.inboxes[i] == b.inboxes[i])
      && t.inboxes[|b.inboxes|].key == c.key && t.inboxes[|b.inboxes|].provider == provider
  {
    var s := b.(inboxes := b.inboxes + [Inbox(provider, c.key, Received, c.payload)]);
    SameCharge(b, s, c.payload);
    SettleEffect(s, |b.inboxes|, id, c.payload);
    var t := Ingest(b, provider, c.key, c.payload, Unreachable).0;
    assert t == Settle(s, |b.inboxes|, id, c.payload);
  }

  lemma StillFresh(before: seq<Inbox>, after: seq<Inbox>, provider: string, key: string, added: string)
    requires |after| == |before| + 1 && (forall i :: 0 <= i < |before| ==> after[i] == before[i])
    requires after[|before|].key == added && added != key && FindInbox(before, provider, key).None?
    ensures FindInbox(after, provider, key).None?
  {
    assert after == before + [after[|before|]];
  }

  /** Main result: any delivery of final callbacks about one charge ends in the outcome of the list. */
  lemma {:induction false} CallbacksConverge(b: Billing, provider: string, cs: seq<Callback>, id: nat)
    requires Safe(b) && Delivery(b, provider, cs, id)
    ensures var t := IngestAll(b, provider, cs);
      && Safe(t) && SameDirectory(b, t)
      && t.charges[id].status == Outcome(b.charges[id].status, Effects(Payloads(cs), b.charges[id].amount))
      && (forall key :: FindInbox(b.inboxes, provider, key).None? && (forall c :: c in cs ==> c.key != key)
            ==> FindInbox(t.inboxes, provider, key).None?)
  {
    var amount := b.charges[id].amount;
    if cs != [] {
      var front, last := cs[..|cs| - 1], cs[|cs| - 1];
      assert cs == front + [last];
      CallbacksConverge(b, provider, front, id);
      var m := IngestAll(b, provider, front);
      SameCharge(b, m, last.payload);
      assert last in cs;
      assert m.charges[id].amount == amount;
      OneCallback(m, provider, last, id);
      IngestIsSafe(m, provider, last.key, last.payload, Unreachable);
      EffectsExtend(cs, amount);
      EffectsAreTame(Payloads(cs), amount);
      OutcomeStep(b.charges[id].status, Effects(Payloads(front), amount), EffectOf(last.payload, amount));
      var t := IngestAll(b, provider, cs);
      SameDirectoryTransitive(b, m, t);
      forall key | FindInbox(b.inboxes, provider, key).None? && (forall c :: c in cs ==> c.key != key)
        ensures FindInbox(t.inboxes, provider, key).None?
      {
        StillFresh(m.inboxes, t.inboxes, provider, key, last.key);
      }
    }
  }

  lemma {:induction false} EffectsOccur(cs: seq<Callback>, amount: int, e: Effect)
    ensures e in Effects(Payloads(cs), amount) <==> exists c :: c in cs && EffectOf(c.payload, amount) == e
  {
    var es := Effects(Payloads(cs), amount);
    assert forall i :: 0 <= i < |cs| ==> es[i] == EffectOf(cs[i].payload, amount);
    if c :| c in cs && EffectOf(c.payload, amount) == e {
      var i :| 0 <= i < |cs| && cs[i] == c;
      assert es[i] == e;
    }
  }

  lemma {:induction false} DistinctOnce(cs: seq<Callback>, c: Callback)
    requires forall i, j :: 0 <= i < j < |cs| ==> cs[i].key != cs[j].key
    ensures multiset(cs)[c] <= 1
  {
    if cs != [] {
      var front, last := cs[..|cs| - 1], cs[|cs| - 1];
      DistinctOnce(front, c);
      assert cs == front + [last];
      assert forall i :: 0 <= i < |front| ==> front[i].key != last.key;
      assert c == last ==> c !in multiset(front);
    }
  }

  lemma TwiceIsTwo(ds: seq<Callback>, i: int, j: int)
    requires 0 <= i < j < |ds| && ds[i] == ds[j]
    ensures multiset(ds)[ds[i]] >= 2
  {
    assert ds == ds[..i] + [ds[i]] + ds[i + 1..j] + [ds[j]] + ds[j + 1..];
  }

  /** Delivering the same callbacks in another order is a delivery too. */
  lemma DeliveryIgnoresOrder(b: Billing, provider: string, cs: seq<Callback>, ds: seq<Callback>, id: nat)
    requires Delivery(b, provider, cs, id) && multiset(cs) == multiset(ds)
    ensures Delivery(b, provider, ds, id) && forall c :: c in cs <==> c in ds
  {
    forall c ensures c in cs <==> c in ds {
      assert c in cs <==> c in multiset(cs);
      assert c in ds <==> c in multiset(ds);
    }
    forall i, j | 0 <= i < j < |ds| ensures ds[i].key != ds[j].key {
      assert ds[i] in cs && ds[j] in cs;
      if ds[i] == ds[j] {
        TwiceIsTwo(ds, i, j);
        DistinctOnce(cs, ds[i]);
      }
      var x :| 0 <= x < |cs| && cs[x] == ds[i];
      var y :| 0 <= y < |cs| && cs[y] == ds[j];
      assert x < y ==> cs[x].key != cs[y].key;
      assert y < x ==> cs[y].key != cs[x].key;
    }
  }

  /** Two deliveries of the same callbacks in different orders leave the charge in the same status when it
      was settled before, or one of them pays or cancels. */
  lemma DeliveriesCommute(b: Billing, provider: string, cs: seq<Callback>, ds: seq<Callback>, id: nat)
    requires Safe(b) && Delivery(b, provider, cs, id) && multiset(cs) == multiset(ds)
    requires
      || b.charges[id].status.Paid? || b.charges[id].status.Cancelled?
      || exists c :: c in cs && EffectOf(c.payload, b.charges[id].amount) in {Pay, CancelIt}
    ensures id in IngestAll(b, provider, cs).charges && id in IngestAll(b, provider, ds).charges
    ensures IngestAll(b, provider, ds).charges[id].status == IngestAll(b, provider, cs).charges[id].status
  {
    DeliveryIgnoresOrder(b, provider, cs, ds, id);
    CallbacksConverge(b, provider, cs, id);
    CallbacksConverge(b, provider, ds, id);
    var amount := b.charges[id].amount;
    forall e ensures e in Effects(Payloads(cs), amount) <==> e in Effects(Payloads(ds), amount) {
      EffectsOccur(cs, amount, e);
      EffectsOccur(ds, amount, e);
    }
    if c :| c in cs && EffectOf(c.payload, amount) in {Pay, CancelIt} {
      EffectsOccur(cs, amount, EffectOf(c.payload, amount));
    }
  }

  lemma SameDirectoryTransitive(a: Billing, b: Billing, c: Billing)
    requires SameDirectory(a, b) && SameDirectory(b, c)
    ensures SameDirectory(a, c)
  {
    forall id | id in a.charges ensures c.charges[id].(status := a.charges[id].status) == a.charges[id] {
      assert c.charges[id].(status := b.charges[id].status) == b.charges[id];
      assert b.charges[id].(status := a.charges[id].status) == a.charges[id];
    }
  }

  /** Re-ingesting a known key changes nothing, in any later state and whatever the payload says. */
  lemma ReingestIsNoOp(b: Billing, i: nat, steps: seq<Step>, payload: Payload, lookup: Lookup)
    requires Safe(b) && i < |b.inboxes| && b.inboxes[i].key != "" && forall s :: s in steps ==> Admissible(s)
    ensures var t := Run(b, steps);
      && Ingest(t, b.inboxes[i].provider, b.inboxes[i].key, payload, lookup).0 == t
      && Ingest(t, b.inboxes[i].provider, b.inboxes[i].key, payload, lookup).1.Ok?
  {
    RunIsSafe(b, steps);
    var t := Run(b, steps);
    assert t.inboxes[i] in t.inboxes;
  }
}
