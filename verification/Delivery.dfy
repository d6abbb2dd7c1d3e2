/** Progress: from every reachable state what is on its way can be delivered, and every client can
    get back to the store. */
module Delivery {
  import opened Common
  import opened VersionedStore
  import opened Events
  import opened Fanout
  import opened Distribution
  import opened DistributionProofs
  import opened Convergence

  lemma {:induction false} ExecConcat(sys: System, a: seq<Step>, b: seq<Step>)
    ensures Exec(sys, a + b) == Exec(Exec(sys, a), b)
  {
    if b == [] {
      assert a + b == a;
    } else {
      ExecConcat(sys, a, b[..|b| - 1]);
      assert (a + b)[..|a + b| - 1] == a + b[..|b| - 1];
    }
  }

  /** Every step of the run is one that can be taken. */
  predicate AllEnabled(sys: System, steps: seq<Step>) {
    steps == [] ||
    (AllEnabled(sys, steps[..|steps| - 1]) && Enabled(Exec(sys, steps[..|steps| - 1]), steps[|steps| - 1]))
  }

  lemma {:induction false} EnabledConcat(sys: System, a: seq<Step>, b: seq<Step>)
    requires AllEnabled(sys, a) && AllEnabled(Exec(sys, a), b)
    ensures AllEnabled(sys, a + b)
  {
    if b == [] {
      assert a + b == a;
    } else {
      EnabledConcat(sys, a, b[..|b| - 1]);
      ExecConcat(sys, a, b[..|b| - 1]);
      assert (a + b)[..|a + b| - 1] == a + b[..|b| - 1];
    }
  }

  lemma Prepend(sys: System, step: Step, rest: seq<Step>)
    requires Enabled(sys, step) && AllEnabled(Do(sys, step), rest)
    ensures AllEnabled(sys, [step] + rest) && Exec(sys, [step] + rest) == Exec(Do(sys, step), rest)
  {
    assert [step][..0] == [];
    assert Exec(sys, []) == sys && AllEnabled(sys, []);
    assert Exec(sys, [step]) == Do(sys, step) && AllEnabled(sys, [step]);
    EnabledConcat(sys, [step], rest);
    ExecConcat(sys, [step], rest);
  }

  // ---------- Delivering what is on its way ----------

  /** `c` has its snapshot, and its replica hears of what is published. */
  predicate Reached(sys: System, c: int) {
    Streaming(sys, c) && sys.replicas[sys.clients[c].conn.value.replica].listening
  }

  /** How many hops are left for what is on its way to `c`, at most. */
  function Hops(sys: System, c: int): nat
    requires Streaming(sys, c)
  {
    var conn := sys.clients[c].conn.value;
    |conn.wire| + 2 * |conn.ch| + 3 * |sys.replicas[conn.replica].queue| + 4 * |sys.unpublished|
  }

  /** Brings what is nearest to the client one hop closer. */
  function NextHop(sys: System, c: int): Step
    requires Streaming(sys, c)
  {
    var conn := sys.clients[c].conn.value;
    if conn.wire != [] then Receive(c)
    else if conn.ch != [] then Send(c)
    else if sys.replicas[conn.replica].queue != [] then Dispatch(conn.replica)
    else Publish(0)
  }

  /** A hop leads from `sys` to `sys'`: nothing is lost on the way to `c`. */
  predicate Advances(sys: System, sys': System, c: int) {
    && Reached(sys, c) && Reached(sys', c)
    && sys'.db == sys.db && sys'.clients[c].serviceId == sys.clients[c].serviceId
    && Hops(sys', c) < Hops(sys, c)
    && Drained(sys', sys'.clients[c]) == Drained(sys, sys.clients[c])
  }

  lemma SettleFirst(m: map<string, string>, e: Event, rest: seq<Event>, serviceId: int)
    ensures Settle(m, [e] + rest, serviceId)
         == Settle(if Concerns(e, serviceId) then Apply(m, ChangeMsg(e)) else m, rest, serviceId)
  {
    SettleConcat(m, [e], rest, serviceId);
    assert [e][..0] == [];
  }

  lemma ReceiveAdvances(sys: System, c: int)
    requires Reached(sys, c) && sys.clients[c].conn.value.wire != []
    ensures Advances(sys, Do(sys, Receive(c)), c)
  {
    var cl, sys' := sys.clients[c], Do(sys, Receive(c));
    var wire := cl.conn.value.wire;
    assert Inflight(sys', sys'.clients[c]) == Inflight(sys, cl);
    assert wire == [wire[0]] + wire[1..];
    ApplyAllConcat(cl.overrides, [wire[0]], wire[1..]);
    assert [wire[0]][..0] == [];
  }

  /** Sending an event and applying the message is settling the event. */
  lemma SendSettles(m: map<string, string>, wire: seq<Msg>, e: Event, rest: seq<Event>, serviceId: int)
    requires e.serviceId == serviceId
    ensures Settle(ApplyAll(m, if e.kind == Var then wire + [ChangeMsg(e)] else wire), rest, serviceId)
         == Settle(ApplyAll(m, wire), [e] + rest, serviceId)
  {
    SettleFirst(ApplyAll(m, wire), e, rest, serviceId);
    assert (wire + [ChangeMsg(e)])[..|wire|] == wire;
  }

  lemma SendDrains(sys: System, cl: Client)
    requires ClientInv(sys, cl) && cl.conn.Some? && cl.conn.value.ch != []
    ensures Drained(sys, Sent(cl)) == Drained(sys, cl)
  {
    var conn := cl.conn.value;
    var e, rest := conn.ch[0], Inflight(sys, Sent(cl));
    assert e in conn.ch;
    assert Inflight(sys, cl) == [e] + rest;
    SendSettles(cl.overrides, conn.wire, e, rest, cl.serviceId);
  }

  lemma SendAdvances(sys: System, c: int)
    requires Inv(sys) && Reached(sys, c) && sys.clients[c].conn.value.ch != []
    ensures Advances(sys, Do(sys, Send(c)), c)
  {
    var cl, sys' := sys.clients[c], Do(sys, Send(c));
    SendDrains(sys, cl);
    assert Inflight(sys', Sent(cl)) == Inflight(sys, Sent(cl));
  }

  /** What an empty channel makes of the event at the head of the queue. */
  lemma OfferSettles(m: map<string, string>, e: Event, rest: seq<Event>, serviceId: int)
    requires serviceId > 0
    ensures Settle(m, if Wants(serviceId, e) then [e] + rest else rest, serviceId) == Settle(m, [e] + rest, serviceId)
  {
    SettleFirst(m, e, rest, serviceId);
  }

  lemma DispatchAdvances(sys: System, c: int)
    requires Inv(sys) && Reached(sys, c) && sys.clients[c].conn.value.ch == []
    requires sys.replicas[sys.clients[c].conn.value.replica].queue != []
    ensures Advances(sys, Do(sys, Dispatch(sys.clients[c].conn.value.replica)), c)
  {
    var cl := sys.clients[c];
    var r := cl.conn.value.replica;
    var sys' := Do(sys, Dispatch(r));
    var cl' := sys'.clients[c];
    assert cl.serviceId > 0 by { assert ClientInv(sys, cl); }
    assert cl' == OfferedTo(cl, r, sys.replicas[r].queue[0]);
    DispatchDrains(sys, sys', cl, r);
  }

  lemma DispatchDrains(sys: System, sys': System, cl: Client, r: int)
    requires cl.serviceId > 0 && OnReplica(cl, r) && cl.conn.value.ch == []
    requires r in sys.replicas && sys.replicas[r].queue != [] && r in sys'.replicas
    requires sys'.replicas[r].queue == sys.replicas[r].queue[1..] && sys'.unpublished == sys.unpublished
    ensures var cl' := OfferedTo(cl, r, sys.replicas[r].queue[0]);
      OnReplica(cl', r) && Drained(sys', cl') == Drained(sys, cl)
  {
    var e, rest := sys.replicas[r].queue[0], sys.replicas[r].queue[1..] + sys.unpublished;
    assert Inflight(sys, cl) == [e] + rest;
    assert Inflight(sys', OfferedTo(cl, r, e)) == if Wants(cl.serviceId, e) then [e] + rest else rest;
    OfferSettles(ApplyAll(cl.overrides, cl.conn.value.wire), e, rest, cl.serviceId);
  }

  lemma PublishAdvances(sys: System, c: int)
    requires Reached(sys, c) && sys.unpublished != []
    ensures Enabled(sys, Publish(0)) && Advances(sys, Do(sys, Publish(0)), c)
  {
    var cl, sys' := sys.clients[c], Do(sys, Publish(0));
    assert sys'.clients[c] == cl;
    assert Inflight(sys', cl) == Inflight(sys, cl);
  }

  lemma HopAdvances(sys: System, c: int)
    requires Inv(sys) && Reached(sys, c) && Hops(sys, c) > 0
    ensures Enabled(sys, NextHop(sys, c)) && Advances(sys, Do(sys, NextHop(sys, c)), c)
  {
    var conn := sys.clients[c].conn.value;
    if conn.wire != [] {
      ReceiveAdvances(sys, c);
    } else if conn.ch != [] {
      SendAdvances(sys, c);
    } else if sys.replicas[conn.replica].queue != [] {
      DispatchAdvances(sys, c);
    } else {
      PublishAdvances(sys, c);
    }
  }

  lemma {:induction false} Deliver(sys: System, c: int) returns (more: seq<Step>)
    requires Inv(sys) && Reached(sys, c)
    ensures var sys' := Exec(sys, more);
      && AllEnabled(sys, more) && |more| <= Hops(sys, c) && Reached(sys', c)
      && sys'.db == sys.db && sys'.clients[c].serviceId == sys.clients[c].serviceId
      && Quiet(sys', sys'.clients[c]) && sys'.clients[c].overrides == Drained(sys, sys.clients[c])
    decreases Hops(sys, c)
  {
    if Hops(sys, c) == 0 {
      more := [];
      assert Inflight(sys, sys.clients[c]) == [];
    } else {
      HopAdvances(sys, c);
      var step := NextHop(sys, c);
      DoKeepsInv(sys, step);
      more := Deliver(Do(sys, step), c);
      Prepend(sys, step, more);
      more := [step] + more;
    }
  }

  /** MAIN: from every reachable state, publishing, dispatching, sending and receiving deliver what is on
      its way to a client on a listening replica, after at most `Hops` steps, and leave it with exactly
      what it was said to drain to. */
  lemma {:induction false} DrainedIsReached(init: System, steps: seq<Step>, c: int) returns (more: seq<Step>)
    requires Init(init) && Reached(Exec(init, steps), c)
    ensures var sys, sys' := Exec(init, steps), Exec(init, steps + more);
      && AllEnabled(sys, more) && |more| <= Hops(sys, c) && Reached(sys', c) && sys'.db == sys.db
      && Quiet(sys', sys'.clients[c]) && sys'.clients[c].overrides == Drained(sys, sys.clients[c])
  {
    ExecInv(init, steps);
    more := Deliver(Exec(init, steps), c);
    ExecConcat(init, steps, more);
  }

  // ---------- Reconnecting ----------

  /** `c` has received the snapshot of `sys.db` on a new stream from `r`, and nothing else. */
  predicate Restarted(sys: System, sys': System, c: int, r: int)
    requires c in sys.clients && r in sys.replicas
  {
    && Streaming(sys', c) && sys'.db == sys.db && sys'.replicas == sys.replicas
    && sys'.clients[c].serviceId == sys.clients[c].serviceId
    && sys'.clients[c].conn.value.replica == r && sys'.clients[c].conn.value.wire == []
    && sys'.clients[c].overrides == ServiceVars(sys.db, sys.clients[c].serviceId)
    && Inflight(sys', sys'.clients[c]) == sys.replicas[r].queue + sys.unpublished
  }

  lemma Restarts(sys: System, c: int, r: int, vars: seq<PbVariable>)
    requires c in sys.clients && r in sys.replicas && IsListing(sys.db, sys.clients[c].serviceId, vars)
    ensures var gone := Do(sys, Disconnect(c));
      var subscribed := Do(gone, Subscribe(c, r));
      var snapped := Do(subscribed, ReadSnapshot(c, vars));
      && Enabled(sys, Disconnect(c)) && Enabled(gone, Subscribe(c, r)) && Enabled(subscribed, ReadSnapshot(c, vars))
      && Enabled(snapped, Receive(c)) && Restarted(sys, Do(snapped, Receive(c)), c, r)
  {
    ListingIsVars(sys.db, sys.clients[c].serviceId, vars);
  }

  /** Whatever became of its stream, a client can drop it and subscribe anew, to any replica; its first
      message leaves it with the store's current variables of its service. */
  lemma Reconnect(sys: System, c: int, r: int, vars: seq<PbVariable>) returns (steps: seq<Step>)
    requires c in sys.clients && r in sys.replicas && IsListing(sys.db, sys.clients[c].serviceId, vars)
    ensures steps == [Disconnect(c), Subscribe(c, r), ReadSnapshot(c, vars), Receive(c)]
    ensures AllEnabled(sys, steps) && Restarted(sys, Exec(sys, steps), c, r)
  {
    Restarts(sys, c, r, vars);
    var gone := Do(sys, Disconnect(c));
    var subscribed := Do(gone, Subscribe(c, r));
    steps := [Receive(c)] + [];
    Prepend(Do(subscribed, ReadSnapshot(c, vars)), Receive(c), []);
    Prepend(subscribed, ReadSnapshot(c, vars), steps);
    steps := [ReadSnapshot(c, vars)] + steps;
    Prepend(gone, Subscribe(c, r), steps);
    steps := [Subscribe(c, r)] + steps;
    Prepend(sys, Disconnect(c), steps);
    steps := [Disconnect(c)] + steps;
  }

  /** `c` waits, disconnected, while `r` listens. */
  predicate Waiting(sys: System, c: int, r: int) {
    && c in sys.clients && sys.clients[c].conn.None?
    && r in sys.replicas && sys.replicas[r].listening
  }

  /** The same client and the same store. */
  predicate SameFor(sys: System, sys': System, c: int)
    requires c in sys.clients
  {
    sys'.db == sys.db && c in sys'.clients && sys'.clients[c].serviceId == sys.clients[c].serviceId
  }

  /** Publishes and dispatches until nothing is on its way to the subscribers of `r`. */
  lemma {:induction false} Flush(sys: System, c: int, r: int) returns (more: seq<Step>)
    requires Waiting(sys, c, r)
    ensures var sys' := Exec(sys, more);
      && AllEnabled(sys, more) && Waiting(sys', c, r) && SameFor(sys, sys', c)
      && sys'.unpublished == [] && sys'.replicas[r].queue == []
    decreases 2 * |sys.unpublished| + |sys.replicas[r].queue|
  {
    if sys.unpublished == [] && sys.replicas[r].queue == [] {
      more := [];
    } else {
      var step := if sys.unpublished != [] then Publish(0) else Dispatch(r);
      var sys' := Do(sys, step);
      more := Flush(sys', c, r);
      Prepend(sys, step, more);
      more := [step] + more;
    }
  }

  lemma TurnAway(sys: System, c: int, r: int) returns (steps: seq<Step>)
    requires c in sys.clients && r in sys.replicas
    ensures AllEnabled(sys, steps) && Waiting(Exec(sys, steps), c, r) && SameFor(sys, Exec(sys, steps), c)
  {
    var gone := Do(sys, Disconnect(c));
    Prepend(gone, ListenUp(r), []);
    Prepend(sys, Disconnect(c), [ListenUp(r)] + []);
    steps := [Disconnect(c)] + ([ListenUp(r)] + []);
  }

  /** MAIN: from any state at all, whatever was lost and whatever is on its way, without any further commit:
      a client that drops its stream and subscribes, to any replica, only after that replica's queue and
      the unpublished events have run empty, ends quiet with exactly the store's variables. Subscribing at
      once does not ensure that. */
  lemma {:induction false} WaitingRecovers(sys: System, c: int, r: int, vars: seq<PbVariable>)
    returns (more: seq<Step>)
    requires c in sys.clients && r in sys.replicas && IsListing(sys.db, sys.clients[c].serviceId, vars)
    ensures var sys' := Exec(sys, more);
      && AllEnabled(sys, more) && Reached(sys', c) && SameFor(sys, sys', c)
      && Quiet(sys', sys'.clients[c]) && sys'.clients[c].overrides == ServiceVars(sys.db, sys.clients[c].serviceId)
  {
    var away := TurnAway(sys, c, r);
    var waiting := Exec(sys, away);
    var flushing := Flush(waiting, c, r);
    var flushed := Exec(waiting, flushing);
    var back := Reconnect(flushed, c, r, vars);
    ExecConcat(sys, away, flushing);
    EnabledConcat(sys, away, flushing);
    ExecConcat(sys, away + flushing, back);
    EnabledConcat(sys, away + flushing, back);
    more := away + flushing + back;
  }
}
