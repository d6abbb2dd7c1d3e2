/** The in-memory broker of one replica: every dispatched event is offered to every interested
    subscriber's bounded channel, and dropped for that subscriber when the channel is full. */
module Fanout {
  import opened Common
  import opened Events

  /** Slots in a subscriber's channel. */
  const CAPACITY := 64

  /** A subscriber with service id 0 wants every event; kinds are not filtered here. */
  predicate Wants(serviceId: int, e: Event) {
    serviceId == 0 || serviceId == e.serviceId
  }

  /** A non-blocking send: the event is dropped when the channel is full. */
  function Offered(ch: seq<Event>, e: Event): seq<Event> {
    if |ch| < CAPACITY then ch + [e] else ch
  }

  function AfterDispatch(serviceId: int, ch: seq<Event>, e: Event): seq<Event> {
    if Wants(serviceId, e) then Offered(ch, e) else ch
  }

  /** Service id 0 stands for all services, and a channel holds 64 events. */
  lemma DispatchInFull(serviceId: int, ch: seq<Event>, e: Event)
    ensures AfterDispatch(serviceId, ch, e)
         == if (serviceId == 0 || serviceId == e.serviceId) && |ch| < 64 then ch + [e] else ch
  {
  }

  function WantedOf(serviceId: int, e: Event): seq<Event> {
    if Wants(serviceId, e) then [e] else []
  }

  /** The events of `es` that a subscriber with `serviceId` wants, in order. */
  function Wanted(es: seq<Event>, serviceId: int): seq<Event> {
    if es == [] then [] else
      var rest := Wanted(es[..|es| - 1], serviceId);
      if Wants(serviceId, es[|es| - 1]) then rest + [es[|es| - 1]] else rest
  }

  lemma WantedNext(es: seq<Event>, start: nat, e: Event, serviceId: int)
    requires start <= |es|
    ensures Wanted((es + [e])[start..], serviceId)
         == Wanted(es[start..], serviceId) + WantedOf(serviceId, e)
  {
    assert (es + [e])[start..] == es[start..] + [e];
    assert (es[start..] + [e])[..|es[start..]|] == es[start..];
  }

  /** `a` is `b` with some elements left out. */
  predicate IsSubsequence<T(==)>(a: seq<T>, b: seq<T>) {
    if a == [] then true
    else if b == [] then false
    else (a[|a| - 1] == b[|b| - 1] && IsSubsequence(a[..|a| - 1], b[..|b| - 1]))
         || IsSubsequence(a, b[..|b| - 1])
  }

  /** `kept` is `all` with `dropped` elements left out. */
  ghost predicate Accounted<T>(kept: seq<T>, all: seq<T>, dropped: nat) {
    && IsSubsequence(kept, all)
    && |kept| + dropped == |all|
    && (dropped == 0 ==> kept == all)
  }

  lemma AccountedNext<T>(kept: seq<T>, all: seq<T>, dropped: nat, x: T)
    requires Accounted(kept, all, dropped)
    ensures Accounted(kept + [x], all + [x], dropped)
    ensures Accounted(kept, all + [x], dropped + 1)
  {
    assert (kept + [x])[..|kept + [x]| - 1] == kept;
    assert (all + [x])[..|all + [x]| - 1] == all;
  }

  /** The notifications that decode, in order. */
  function Decoded(payloads: seq<Option<Event>>): seq<Event> {
    if payloads == [] then [] else
      var rest := Decoded(payloads[..|payloads| - 1]);
      match payloads[|payloads| - 1]
      case Some(e) => rest + [e]
      case None => rest
  }

  lemma {:induction false} DecodedConcat(a: seq<Option<Event>>, b: seq<Option<Event>>)
    ensures Decoded(a + b) == Decoded(a) + Decoded(b)
  {
    if b == [] {
      assert a + b == a;
    } else {
      DecodedConcat(a, b[..|b| - 1]);
      assert (a + b)[..|a + b| - 1] == a + b[..|b| - 1];
    }
  }

  /** What cannot be decoded is skipped and stops nothing that follows. */
  lemma DecodedEach(a: seq<Option<Event>>, payload: Option<Event>, b: seq<Option<Event>>)
    ensures Decoded(a + [payload] + b) == Decoded(a) + (if payload.Some? then [payload.value] else []) + Decoded(b)
  {
    DecodedConcat(a + [payload], b);
    DecodedConcat(a, [payload]);
    assert [payload][..0] == [];
  }

  /** A channel after a sequence of events was offered to it and nothing was received. */
  function AfterAll(serviceId: int, ch: seq<Event>, es: seq<Event>): seq<Event> {
    if es == [] then ch else AfterDispatch(serviceId, AfterAll(serviceId, ch, es[..|es| - 1]), es[|es| - 1])
  }

  class Subscriber {
    const serviceId: int
    var ch: seq<Event>
    var closed: bool

    // What happened to this subscriber so far.
    ghost const start: nat
    ghost var offered: seq<Event>
    ghost var taken: seq<Event>
    ghost var dropped: nat

    /** Received and buffered events together are the offered events with the dropped ones left
        out, in the order of dispatch. */
    ghost predicate Valid()
      reads this
    {
      && |ch| <= CAPACITY
      && Accounted(taken + ch, offered, dropped)
    }

    constructor (serviceId: int, ghost start: nat)
      ensures Valid() && this.serviceId == serviceId && this.start == start
      ensures ch == [] && !closed && offered == [] && taken == [] && dropped == 0
    {
      this.serviceId, this.start := serviceId, start;
      ch, closed := [], false;
      offered, taken, dropped := [], [], 0;
    }

    /** The broker's turn at this subscriber: a non-blocking send if it wants the event. Sending on a
        closed channel would panic. */
    method TrySend(e: Event)
      requires Valid() && !closed
      modifies this`ch, this`offered, this`dropped
      ensures Valid()
      ensures ch == AfterDispatch(serviceId, old(ch), e)
      ensures offered == old(offered) + WantedOf(serviceId, e)
    {
      if !Wants(serviceId, e) {
        return;
      }
      AccountedNext(taken + ch, offered, dropped, e);
      if |ch| < CAPACITY {
        Associate(taken, ch, [e]);
        ch := ch + [e];
      } else {
        dropped := dropped + 1;
      }
      offered := offered + [e];
    }

    /** The consumer's receive: the oldest buffered event, or the end of a closed channel. */
    method Receive() returns (e: Option<Event>)
      requires Valid()
      modifies this`ch, this`taken
      ensures Valid()
      ensures e.None? <==> old(ch) == []
      ensures e.None? ==> ch == old(ch) && taken == old(taken)
      ensures e.Some? ==> old(ch) == [e.value] + ch && taken == old(taken) + [e.value]
    {
      if ch == [] {
        return None;
      }
      e := Some(ch[0]);
      assert taken + ch == (taken + [ch[0]]) + ch[1..];
      taken := taken + [ch[0]];
      ch := ch[1..];
    }

    /** Closing a closed channel would panic. */
    method Close()
      requires !closed
      modifies this`closed
      ensures closed
    {
      closed := true;
    }
  }

  class Broker {
    var subs: set<Subscriber>
    ghost var dispatched: seq<Event>

    /** Registered channels are open, and each was offered exactly what it wants of the events
        dispatched since it subscribed. */
    ghost predicate Valid()
      reads this, subs
    {
      forall s :: s in subs ==>
        && s.Valid() && !s.closed
        && s.start <= |dispatched|
        && s.offered == Wanted(dispatched[s.start..], s.serviceId)
    }

    constructor ()
      ensures Valid() && subs == {} && dispatched == []
    {
      subs, dispatched := {}, [];
    }

    method Subscribe(serviceId: int) returns (s: Subscriber)
      requires Valid()
      modifies this`subs
      ensures Valid() && fresh(s)
      ensures subs == old(subs) + {s}
      ensures s.serviceId == serviceId && s.ch == [] && s.start == |dispatched|
    {
      s := new Subscriber(serviceId, |dispatched|);
      subs := subs + {s};
    }

    /** The function returned by Subscribe: safe to call more than once. */
    method Cancel(s: Subscriber)
      requires Valid()
      modifies this`subs, s`closed
      ensures Valid() && subs == old(subs) - {s}
      ensures s.closed == (old(s.closed) || s in old(subs))
    {
      if s in subs {
        subs := subs - {s};
        s.Close();
      }
    }

    /** Offers `e` to every subscriber, in no particular order; what happens to one depends on
        its own channel alone. */
    method Dispatch(e: Event)
      requires Valid()
      modifies this`dispatched, subs`ch, subs`offered, subs`dropped
      ensures Valid() && dispatched == old(dispatched) + [e]
      ensures forall s :: s in subs ==>
        s.ch == AfterDispatch(s.serviceId, old(s.ch), e)
    {
      var remaining := subs;
      while remaining != {}
        invariant remaining <= subs && dispatched == old(dispatched)
        invariant forall s :: s in subs ==> s.Valid()
        invariant forall s :: s in remaining ==> s.ch == old(s.ch) && s.offered == old(s.offered)
        invariant forall s :: s in subs - remaining ==>
          && s.ch == AfterDispatch(s.serviceId, old(s.ch), e)
          && s.offered == old(s.offered) + WantedOf(s.serviceId, e)
        decreases remaining
      {
        var s :| s in remaining;
        remaining := remaining - {s};
        s.TrySend(e);
      }
      dispatched := dispatched + [e];
      forall s | s in subs ensures s.offered == Wanted(dispatched[s.start..], s.serviceId) {
        WantedNext(old(dispatched), s.start, e, s.serviceId);
      }
    }

    /** The LISTEN loop until its connection fails: payloads that do not decode are skipped. */
    method ListenLoop(payloads: seq<Option<Event>>)
      requires Valid()
      modifies this`dispatched, subs`ch, subs`offered, subs`dropped
      ensures Valid() && dispatched == old(dispatched) + Decoded(payloads)
      ensures forall s :: s in subs ==> s.ch == AfterAll(s.serviceId, old(s.ch), Decoded(payloads))
    {
      var i := 0;
      while i < |payloads|
        invariant 0 <= i <= |payloads|
        invariant Valid() && dispatched == old(dispatched) + Decoded(payloads[..i])
        invariant forall s :: s in subs ==> s.ch == AfterAll(s.serviceId, old(s.ch), Decoded(payloads[..i]))
      {
        assert payloads[..i + 1][..i] == payloads[..i];
        if payloads[i].Some? {
          Dispatch(payloads[i].value);
        }
        i := i + 1;
      }
      assert payloads[..i] == payloads;
    }
  }
}
