/** The steps of the protocol are what its components do: the broker, the stream server, the handlers
    and the clients, each as its own file has it. */
module Components {
  import opened Common
  import opened VersionedStore
  import opened Events
  import opened Fanout
  import opened StreamServer
  import opened Distribution
  import opened DistributionProofs
  import opened Convergence
  import opened Delivery
  import Handlers
  import ConfigClient

  /** The client has the same state, and its stream, if any, the same contents. */
  predicate SameStream(cl: Client, cl': Client) {
    && cl'.serviceId == cl.serviceId && cl'.overrides == cl.overrides && cl'.got == cl.got
    && (cl'.conn.Some? <==> cl.conn.Some?)
    && (cl.conn.Some? ==>
          var conn, conn' := cl.conn.value, cl'.conn.value;
          && conn'.replica == conn.replica && conn'.snapped == conn.snapped
          && conn'.ch == conn.ch && conn'.wire == conn.wire)
  }

  /** A commit leaves to publish what the handlers announce. */
  lemma CommitIsHandler(sys: System, op: Op)
    ensures var sys' := Do(sys, Commit(op));
      && sys'.db == Transact(sys.db, op)
      && sys'.unpublished == sys.unpublished + Handlers.Announcements(sys.db, sys'.db)
      && sys'.replicas == sys.replicas && sys'.clients == sys.clients
  {
  }

  /** A publication joins the queue of every listening replica, and of no other, and touches no stream. */
  lemma PublishQueues(sys: System, i: nat)
    requires Enabled(sys, Publish(i))
    ensures var sys' := Do(sys, Publish(i));
      && sys'.db == sys.db && sys'.unpublished == sys.unpublished[..i] + sys.unpublished[i + 1..]
      && sys'.replicas.Keys == sys.replicas.Keys && sys'.clients.Keys == sys.clients.Keys
      && (forall r :: r in sys.replicas ==>
            && sys'.replicas[r].listening == sys.replicas[r].listening
            && sys'.replicas[r].queue
                 == sys.replicas[r].queue + if sys.replicas[r].listening then [sys.unpublished[i]] else [])
      && (forall c :: c in sys.clients ==> SameStream(sys.clients[c], sys'.clients[c]))
  {
  }

  /** A lost LISTEN connection empties the replica's queue and touches no stream. */
  lemma ListenDownForgets(sys: System, r: int)
    requires r in sys.replicas
    ensures var sys' := Do(sys, ListenDown(r));
      && sys'.db == sys.db && sys'.unpublished == sys.unpublished && sys'.clients.Keys == sys.clients.Keys
      && sys'.replicas.Keys == sys.replicas.Keys && !sys'.replicas[r].listening && sys'.replicas[r].queue == []
      && (forall s :: s in sys.replicas && s != r ==> sys'.replicas[s] == sys.replicas[s])
      && (forall c :: c in sys.clients ==> SameStream(sys.clients[c], sys'.clients[c]))
  {
  }

  /** A dispatched event reaches the channels of the replica's streams as its broker has it, and nothing
      else. */
  lemma DispatchIsBroker(sys: System, r: int)
    requires Enabled(sys, Dispatch(r))
    ensures var e, sys' := sys.replicas[r].queue[0], Do(sys, Dispatch(r));
      && sys'.db == sys.db && sys'.unpublished == sys.unpublished && sys'.clients.Keys == sys.clients.Keys
      && sys'.replicas == sys.replicas[r := sys.replicas[r].(queue := sys.replicas[r].queue[1..])]
      && (forall c :: c in sys.clients ==>
            var cl, cl' := sys.clients[c], sys'.clients[c];
            if !OnReplica(cl, r) then cl' == cl else
              && OnReplica(cl', r)
              && cl'.conn.value.ch == AfterDispatch(cl.serviceId, cl.conn.value.ch, e)
              && SameStream(cl, cl'.(conn := Some(cl'.conn.value.(ch := cl.conn.value.ch)))))
  {
  }

  /** A stream of the replica whose channel has not been given an event it wants. */
  predicate MissedOut(sys: System, sys': System, r: int, e: Event, c: int) {
    && c in sys.clients && OnReplica(sys.clients[c], r) && c in sys'.clients && OnReplica(sys'.clients[c], r)
    && (sys.clients[c].serviceId == 0 || sys.clients[c].serviceId == e.serviceId)
    && sys'.clients[c].conn.value.ch == sys.clients[c].conn.value.ch
  }

  /** The steps that count as losses are those after which somebody has not got what was meant for them:
      a replica a publication, a replica's dispatcher a queued change, or a stream a dispatched event. */
  lemma LossesInFull(sys: System, i: nat, r: int)
    ensures Enabled(sys, Publish(i)) ==>
      var sys' := Do(sys, Publish(i));
      (Loses(sys, Publish(i)) <==> exists s :: s in sys.replicas && sys'.replicas[s].queue == sys.replicas[s].queue)
    ensures r in sys.replicas ==>
      (Loses(sys, ListenDown(r)) <==> exists e :: e in sys.replicas[r].queue && e.kind == Var)
    ensures Enabled(sys, Dispatch(r)) ==>
      var e, sys' := sys.replicas[r].queue[0], Do(sys, Dispatch(r));
      (Loses(sys, Dispatch(r)) <==> exists c :: MissedOut(sys, sys', r, e, c))
    ensures Enabled(sys, PublishFails(i)) ==> Loses(sys, PublishFails(i))
  {
    if Enabled(sys, Publish(i)) {
      var sys' := Do(sys, Publish(i));
      forall s | s in sys.replicas
        ensures sys'.replicas[s].queue == sys.replicas[s].queue <==> !sys.replicas[s].listening
      {
      }
    }
    if Enabled(sys, Dispatch(r)) {
      DispatchLosses(sys, r);
    }
  }

  lemma DispatchLosses(sys: System, r: int)
    requires Enabled(sys, Dispatch(r))
    ensures var e, sys' := sys.replicas[r].queue[0], Do(sys, Dispatch(r));
      Loses(sys, Dispatch(r)) <==> exists c :: MissedOut(sys, sys', r, e, c)
  {
    var e, sys' := sys.replicas[r].queue[0], Do(sys, Dispatch(r));
    forall c | c in sys.clients && OnReplica(sys.clients[c], r)
      ensures MissedOut(sys, sys', r, e, c)
         <==> Wants(sys.clients[c].serviceId, e) && |sys.clients[c].conn.value.ch| >= CAPACITY
    {
      assert sys'.clients[c] == OfferedTo(sys.clients[c], r, e);
      var ch := sys.clients[c].conn.value.ch;
      assert |ch + [e]| != |ch|;
    }
  }

  /** The client with its channel forwarded. */
  function Forwarded(cl: Client): Client
    requires cl.conn.Some?
  {
    var conn := cl.conn.value;
    cl.(conn := Some(conn.(ch := [], wire := conn.wire + Messages(conn.ch))))
  }

  lemma ForwardedNext(cl: Client)
    requires cl.conn.Some?
    ensures cl.conn.value.ch == [] ==> Forwarded(cl) == cl
    ensures cl.conn.value.ch != [] ==> Forwarded(Sent(cl)) == Forwarded(cl)
  {
    var conn := cl.conn.value;
    if conn.ch == [] {
      assert conn.wire + Messages([]) == conn.wire;
    } else {
      var e, rest := conn.ch[0], conn.ch[1..];
      assert conn.ch == [e] + rest && [e][..0] == [];
      assert Messages([e]) == if e.kind == Var then [ChangeMsg(e)] else [];
      MessagesConcat([e], rest);
      Associate(conn.wire, Messages([e]), Messages(rest));
      assert Sent(cl).conn.value.wire == conn.wire + Messages([e]);
    }
  }

  lemma UpdateTwice<K, V>(m: map<K, V>, k: K, v: V, w: V)
    ensures m[k := v][k := w] == m[k := w]
  {
  }

  /** Sending until the channel is empty is what the stream server's loop does with it. */
  lemma {:induction false} SendsAreForward(sys: System, c: int) returns (steps: seq<Step>)
    requires c in sys.clients && sys.clients[c].conn.Some? && sys.clients[c].conn.value.snapped
    ensures |steps| == |sys.clients[c].conn.value.ch| && (forall i :: 0 <= i < |steps| ==> steps[i] == Send(c))
    ensures AllEnabled(sys, steps)
    ensures Exec(sys, steps) == sys.(clients := sys.clients[c := Forwarded(sys.clients[c])])
    decreases |sys.clients[c].conn.value.ch|
  {
    var cl := sys.clients[c];
    ForwardedNext(cl);
    if cl.conn.value.ch == [] {
      steps := [];
      assert sys.clients == sys.clients[c := cl];
    } else {
      var rest := SendsAreForward(Do(sys, Send(c)), c);
      Prepend(sys, Send(c), rest);
      steps := [Send(c)] + rest;
      UpdateTwice(sys.clients, c, Sent(cl), Forwarded(cl));
    }
  }

  /** In every reachable state the protocol's client holds what the client library shows after the same
      messages. */
  lemma {:induction false} ClientIsLibrary(init: System, steps: seq<Step>, c: int, defaults: map<string, string>)
    requires Init(init) && c in Exec(init, steps).clients
    ensures var cl := Exec(init, steps).clients[c];
      ConfigClient.ConfigAfter(defaults, cl.got) == defaults + cl.overrides
  {
    ExecInv(init, steps);
    assert ClientInv(Exec(init, steps), Exec(init, steps).clients[c]);
  }

  /** MAIN: after any run without loss, delivering what is on its way leaves the application with its
      defaults overlaid by exactly the store's current variables of its service. */
  lemma {:induction false} ApplicationSeesStore(init: System, steps: seq<Step>, c: int, defaults: map<string, string>)
    returns (more: seq<Step>)
    requires Init(init) && LossFree(init, steps) && Reached(Exec(init, steps), c)
    ensures var sys, sys' := Exec(init, steps), Exec(init, steps + more);
      && AllEnabled(sys, more) && c in sys'.clients && sys'.db == sys.db
      && ConfigClient.ConfigAfter(defaults, sys'.clients[c].got)
           == defaults + ServiceVars(sys.db, sys.clients[c].serviceId)
  {
    more := DrainedIsReached(init, steps, c);
    LossFreeConvergence(init, steps, c);
    ClientIsLibrary(init, steps + more, c, defaults);
  }
}
