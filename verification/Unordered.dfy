/** What is left of convergence when handlers publish in any order, which nothing in them prevents. */
module Unordered {
  import opened Common
  import opened VersionedStore
  import opened VersionedStoreProofs
  import opened Events
  import opened Distribution
  import opened Fanout
  import opened Convergence
  import opened DistributionProofs
  import opened HeldVersions

  /** The protocol without the hypothesis on publication order. */
  function DoAnyOrder(sys: System, step: Step): System {
    if step.Publish? && step.i < |sys.unpublished| then Published(sys, step.i) else Do(sys, step)
  }

  function ExecAnyOrder(sys: System, steps: seq<Step>): System {
    if steps == [] then sys else DoAnyOrder(ExecAnyOrder(sys, steps[..|steps| - 1]), steps[|steps| - 1])
  }

  /** Everything on its way announces a logged change. */
  ghost predicate AllGenuine(sys: System) {
    && Consistent(sys.db)
    && AllFaithful(sys.db, sys.unpublished)
    && (forall r :: r in sys.replicas ==> AllFaithful(sys.db, sys.replicas[r].queue))
    && (forall c :: c in sys.clients && sys.clients[c].conn.Some? ==> ConnGenuine(sys, sys.clients[c].conn.value))
  }

  ghost predicate ConnGenuine(sys: System, conn: Conn) {
    conn.replica in sys.replicas && AllFaithful(sys.db, conn.ch)
  }

  // ---------- Commit ----------

  lemma {:induction false} UpsertsExtend(t: Tables, serviceId: int, kvs: seq<(string, string)>, author: string)
    ensures t.versions <= UpsertedAll(t, serviceId, kvs, author).versions
  {
    if kvs != [] {
      UpsertsExtend(t, serviceId, kvs[..|kvs| - 1], author);
    }
  }

  lemma TransactExtends(t: Tables, op: Op)
    ensures t.versions <= Transact(t, op).versions
  {
    if op.Bulk? {
      UpsertsExtend(t, op.serviceId, op.kvs, op.author);
    }
  }

  lemma FaithfulPersists(t: Tables, t': Tables, es: seq<Event>)
    requires t.versions <= t'.versions && AllFaithful(t, es)
    ensures AllFaithful(t', es)
  {
    forall e | e in es ensures Faithful(t', e) {
      HistoryPrefix(t.versions, t'.versions, Slot(e.serviceId, e.key));
    }
  }

  /** The event of any logged row is found in the log under its version. */
  lemma RowFaithful(t: Tables, i: nat)
    requires Consistent(t) && i < |t.versions|
    ensures Faithful(t, EventOf(t.versions[i]))
  {
    var row := t.versions[i];
    var upto := t.versions[..i + 1];
    var h := History(upto, row.slot);
    assert upto[..i] == t.versions[..i];
    assert h[|h| - 1] == row;
    HistoryPrefix(upto, t.versions, row.slot);
    assert SlotConsistent(t, row.slot);
    LegalVersions(History(t.versions, row.slot));
    assert History(t.versions, row.slot)[|h| - 1] == row;
  }

  lemma CommitKeepsGenuine(sys: System, op: Op)
    requires AllGenuine(sys)
    ensures AllGenuine(Committed(sys, op))
  {
    var db := Transact(sys.db, op);
    TransactConsistent(sys.db, op);
    TransactExtends(sys.db, op);
    FaithfulPersists(sys.db, db, sys.unpublished);
    var added := EventsOf(NewRows(sys.db, db));
    forall e | e in added ensures Faithful(db, e) {
      var i :| 0 <= i < |added| && added[i] == e;
      RowFaithful(db, |sys.db.versions| + i);
    }
    forall r | r in sys.replicas ensures AllFaithful(db, sys.replicas[r].queue) {
      FaithfulPersists(sys.db, db, sys.replicas[r].queue);
    }
    forall c | c in sys.clients && sys.clients[c].conn.Some?
      ensures ConnGenuine(Committed(sys, op), sys.clients[c].conn.value)
    {
      assert ConnGenuine(sys, sys.clients[c].conn.value);
      FaithfulPersists(sys.db, db, sys.clients[c].conn.value.ch);
    }
  }

  // ---------- Other steps move events or drop them ----------

  /** `es'` holds nothing but what `es` holds, and perhaps a genuine `e`. */
  lemma FaithfulWith(t: Tables, es: seq<Event>, e: Event, es': seq<Event>)
    requires AllFaithful(t, es) && Faithful(t, e)
    requires forall x :: x in es' ==> x in es || x == e
    ensures AllFaithful(t, es')
  {
  }

  lemma PublishKeepsGenuine(sys: System, i: nat)
    requires AllGenuine(sys) && i < |sys.unpublished|
    ensures AllGenuine(Published(sys, i))
  {
    var sys' := Published(sys, i);
    var e := sys.unpublished[i];
    assert e in sys.unpublished;
    FaithfulWith(sys.db, sys.unpublished, e, sys'.unpublished);
    forall r | r in sys.replicas ensures AllFaithful(sys.db, sys'.replicas[r].queue) {
      FaithfulWith(sys.db, sys.replicas[r].queue, e, sys'.replicas[r].queue);
    }
    forall c | c in sys'.clients && sys'.clients[c].conn.Some? ensures ConnGenuine(sys', sys'.clients[c].conn.value) {
      assert ConnGenuine(sys, sys.clients[c].conn.value);
    }
  }

  lemma DispatchKeepsGenuine(sys: System, r: int)
    requires AllGenuine(sys) && r in sys.replicas && sys.replicas[r].queue != []
    ensures AllGenuine(Dispatched(sys, r))
  {
    var sys' := Dispatched(sys, r);
    var e := sys.replicas[r].queue[0];
    assert e in sys.replicas[r].queue;
    FaithfulWith(sys.db, sys.replicas[r].queue, e, sys'.replicas[r].queue);
    forall c | c in sys'.clients && sys'.clients[c].conn.Some? ensures ConnGenuine(sys', sys'.clients[c].conn.value) {
      assert ConnGenuine(sys, sys.clients[c].conn.value);
      FaithfulWith(sys.db, sys.clients[c].conn.value.ch, e, sys'.clients[c].conn.value.ch);
    }
  }

  lemma RestKeepsGenuine(sys: System, step: Step)
    requires AllGenuine(sys) && Enabled(sys, step)
    requires !step.Commit? && !step.Publish? && !step.Dispatch?
    ensures AllGenuine(Do(sys, step))
  {
    var sys' := Do(sys, step);
    assert sys'.db == sys.db;
    assert forall e :: e in sys'.unpublished ==> e in sys.unpublished;
    forall r | r in sys'.replicas ensures AllFaithful(sys.db, sys'.replicas[r].queue) {
      assert r in sys.replicas;
    }
    forall c | c in sys'.clients && sys'.clients[c].conn.Some? ensures ConnGenuine(sys', sys'.clients[c].conn.value) {
      assert sys.clients[c].conn.Some? ==> ConnGenuine(sys, sys.clients[c].conn.value);
    }
  }

  lemma {:induction false} ExecGenuine(init: System, steps: seq<Step>)
    requires Init(init)
    ensures AllGenuine(ExecAnyOrder(init, steps))
  {
    if steps != [] {
      var sys, step := ExecAnyOrder(init, steps[..|steps| - 1]), steps[|steps| - 1];
      ExecGenuine(init, steps[..|steps| - 1]);
      match step
      case Commit(op) => CommitKeepsGenuine(sys, op);
      case Publish(i) => if i < |sys.unpublished| { PublishKeepsGenuine(sys, i); }
      case Dispatch(r) => if Enabled(sys, step) { DispatchKeepsGenuine(sys, r); }
      case _ => if Enabled(sys, step) { RestKeepsGenuine(sys, step); }
    }
  }

  /** The client drains, for the key, to the effect of the last event of it on the way, or keeps what
      it was sent; and if that last event is the latest version, to the store's value. */
  predicate SettlesOnLast(sys: System, c: int, key: string)
    requires Streaming(sys, c)
  {
    var cl := sys.clients[c];
    var slot := Slot(cl.serviceId, key);
    var vs := Arriving(sys, cl, key);
    && Lookup(Drained(sys, cl), key)
         == (if vs == [] then Lookup(ApplyAll(cl.overrides, cl.conn.value.wire), key)
             else EffectAt(sys.db, slot, vs[|vs| - 1]))
    && (vs != [] && vs[|vs| - 1] == Latest(sys.db, slot) ==> Lookup(Drained(sys, cl), key) == Shown(sys.db, slot))
  }

  lemma GenuineSettlesAt(sys: System, c: int, key: string)
    requires AllGenuine(sys) && Streaming(sys, c)
    ensures SettlesOnLast(sys, c, key)
  {
    var cl := sys.clients[c];
    var slot := Slot(cl.serviceId, key);
    assert ConnGenuine(sys, cl.conn.value);
    SettleAt(sys.db, ApplyAll(cl.overrides, cl.conn.value.wire), Inflight(sys, cl), slot);
    VersionsBounded(sys.db, Inflight(sys, cl), slot);
    LatestShown(sys.db, slot);
    var vs := Arriving(sys, cl, key);
    assert vs != [] ==> vs[|vs| - 1] in vs;
  }

  /** MAIN: publish in whatever order: in every reachable state a client with its snapshot drains, per
      key, to the effect of the event of it that comes last, or keeps what it has when none comes. In
      particular it settles on the store's value when the latest version comes last, in whatever order
      the others come. */
  lemma AnyOrderSettlesAt(init: System, steps: seq<Step>, c: int, key: string)
    requires Init(init) && Streaming(ExecAnyOrder(init, steps), c)
    ensures SettlesOnLast(ExecAnyOrder(init, steps), c, key)
  {
    ExecGenuine(init, steps);
    GenuineSettlesAt(ExecAnyOrder(init, steps), c, key);
  }

  // ---------- Without loss ----------

  predicate LossFreeAnyOrder(sys: System, steps: seq<Step>) {
    steps == [] ||
    var front := steps[..|steps| - 1];
    LossFreeAnyOrder(sys, front) && !Loses(ExecAnyOrder(sys, front), steps[|steps| - 1])
  }

  /** The versions of a key in the changes sent since the last snapshot. */
  function SentSince(msgs: seq<Msg>, key: string): seq<nat> {
    if msgs == [] then [] else
      var rest := SentSince(msgs[..|msgs| - 1], key);
      match msgs[|msgs| - 1]
      case Snapshot(_) => []
      case Change(_, v) => if v.key == key then rest + [v.version] else rest
      case Heartbeat => rest
  }

  /** With those still on the way: every version of the key that follows the client's snapshot, in the
      order in which it gets them. */
  function SinceSnapshot(sys: System, cl: Client, key: string): seq<nat>
    requires cl.conn.Some? && cl.conn.value.replica in sys.replicas
  {
    SentSince(Feed(cl), key) + Arriving(sys, cl, key)
  }

  /** After the last change sent the client holds what that change says; when none follows the snapshot
      it holds what the store shows. */
  predicate TailOk(db: Tables, serviceId: int, feed: seq<Msg>, inflight: seq<Event>, key: string) {
    var slot := Slot(serviceId, key);
    var sent := SentSince(feed, key);
    && (sent != [] ==>
          var last := sent[|sent| - 1];
          last <= Latest(db, slot) && Lookup(View(Held(feed)), key) == EffectAt(db, slot, last))
    && (sent == [] && Versions(inflight, slot) == [] ==> Lookup(View(Held(feed)), key) == Shown(db, slot))
  }

  ghost predicate TailsOk(db: Tables, serviceId: int, feed: seq<Msg>, inflight: seq<Event>) {
    forall key :: TailOk(db, serviceId, feed, inflight, key)
  }

  ghost predicate ClientOk(sys: System, cl: Client) {
    && cl.serviceId > 0
    && cl.overrides == ApplyAll(map[], cl.got)
    && (cl.conn.Some? ==>
          && cl.conn.value.replica in sys.replicas
          && (forall e :: e in cl.conn.value.ch ==> e.serviceId == cl.serviceId)
          && (!cl.conn.value.snapped ==> cl.conn.value.wire == [])
          && (cl.conn.value.snapped ==> TailsOk(sys.db, cl.serviceId, Feed(cl), Inflight(sys, cl))))
  }

  ghost predicate AllOk(sys: System) {
    AllGenuine(sys) && forall c :: c in sys.clients ==> ClientOk(sys, sys.clients[c])
  }

  // ---------- Steps that change what is on the way ----------

  lemma {:induction false} NoVersions(es: seq<Event>, slot: Slot)
    ensures Versions(es, slot) == [] <==> forall e :: e in es ==> !OfSlot(e, slot)
  {
    if es != [] {
      NoVersions(es[..|es| - 1], slot);
      assert forall e :: e in es <==> e in es[..|es| - 1] || e == es[|es| - 1];
    }
  }

  /** The same events of the service are on the way, in whatever order. */
  ghost predicate SameArrivals(es: seq<Event>, es': seq<Event>, serviceId: int) {
    forall e :: Concerns(e, serviceId) ==> (e in es <==> e in es')
  }

  lemma SameArrivalsKeepTails(db: Tables, serviceId: int, feed: seq<Msg>, es: seq<Event>, es': seq<Event>)
    requires TailsOk(db, serviceId, feed, es) && SameArrivals(es, es', serviceId)
    ensures TailsOk(db, serviceId, feed, es')
  {
    forall key ensures TailOk(db, serviceId, feed, es', key) {
      assert TailOk(db, serviceId, feed, es, key);
      NoVersions(es, Slot(serviceId, key));
      NoVersions(es', Slot(serviceId, key));
    }
  }

  lemma PublishKeepsOk(sys: System, i: nat)
    requires AllOk(sys) && i < |sys.unpublished| && !Loses(sys, Publish(i))
    ensures AllOk(Published(sys, i))
  {
    var sys' := Published(sys, i);
    PublishKeepsGenuine(sys, i);
    forall c | c in sys'.clients ensures ClientOk(sys', sys'.clients[c]) {
      var cl := sys.clients[c];
      assert ClientOk(sys, cl) && sys'.clients[c] == cl;
      if cl.conn.Some? && cl.conn.value.snapped {
        var q, u := sys.replicas[cl.conn.value.replica].queue, sys.unpublished;
        PublishKeepsArrivals(cl.conn.value.ch, q, u, i, cl.serviceId);
        SameArrivalsKeepTails(sys.db, cl.serviceId, Feed(cl), Inflight(sys, cl), Inflight(sys', cl));
      }
    }
  }

  lemma PublishKeepsArrivals(ch: seq<Event>, q: seq<Event>, u: seq<Event>, i: nat, serviceId: int)
    requires i < |u|
    ensures SameArrivals(ch + (q + u), ch + ((q + [u[i]]) + Without(u, i)), serviceId)
  {
    assert u == u[..i] + [u[i]] + u[i + 1..];
    assert forall e :: e in u <==> e in u[..i] || e == u[i] || e in u[i + 1..];
  }

  lemma ListenDownKeepsOk(sys: System, r: int)
    requires AllOk(sys) && r in sys.replicas && !Loses(sys, ListenDown(r))
    ensures AllOk(Unheard(sys, r))
  {
    var sys' := Unheard(sys, r);
    RestKeepsGenuine(sys, ListenDown(r));
    forall c | c in sys'.clients ensures ClientOk(sys', sys'.clients[c]) {
      var cl, cl' := sys.clients[c], sys'.clients[c];
      assert ClientOk(sys, cl) && Feed(cl') == Feed(cl);
      if cl.conn.Some? && cl.conn.value.snapped {
        SameArrivalsKeepTails(sys.db, cl.serviceId, Feed(cl), Inflight(sys, cl), Inflight(sys', cl'));
      }
    }
  }

  lemma ConnsKeepsOk(sys: System, serviceId: int)
    requires AllOk(sys)
    ensures AllOk(Do(sys, PublishConns(serviceId)))
  {
    var sys' := Do(sys, PublishConns(serviceId));
    RestKeepsGenuine(sys, PublishConns(serviceId));
    forall c | c in sys'.clients ensures ClientOk(sys', sys'.clients[c]) {
      var cl := sys.clients[c];
      assert ClientOk(sys, cl);
      if cl.conn.Some? && cl.conn.value.snapped {
        SameArrivalsKeepTails(sys.db, cl.serviceId, Feed(cl), Inflight(sys, cl), Inflight(sys', cl));
      }
    }
  }

  lemma OfferKeepsOk(sys: System, cl: Client, r: int, e: Event, q: seq<Event>)
    requires cl.conn.Some? && cl.conn.value.replica == r && cl.serviceId > 0
    requires Wants(cl.serviceId, e) ==> |cl.conn.value.ch| < CAPACITY
    ensures var cl' := OfferedTo(cl, r, e);
      && cl' == cl.(conn := Some(cl.conn.value.(ch := cl'.conn.value.ch)))
      && (forall x :: x in cl'.conn.value.ch ==> x in cl.conn.value.ch || (x == e && e.serviceId == cl.serviceId))
      && SameArrivals(cl.conn.value.ch + (([e] + q) + sys.unpublished), cl'.conn.value.ch + (q + sys.unpublished),
                      cl.serviceId)
  {
  }

  lemma DispatchKeepsOk(sys: System, r: int)
    requires AllOk(sys) && Enabled(sys, Dispatch(r)) && !Loses(sys, Dispatch(r))
    ensures AllOk(Dispatched(sys, r))
  {
    var sys' := Dispatched(sys, r);
    var e, q := sys.replicas[r].queue[0], sys.replicas[r].queue[1..];
    assert sys.replicas[r].queue == [e] + q;
    DispatchKeepsGenuine(sys, r);
    forall c | c in sys'.clients ensures ClientOk(sys', sys'.clients[c]) {
      var cl, cl' := sys.clients[c], sys'.clients[c];
      assert ClientOk(sys, cl);
      if OnReplica(cl, r) {
        OfferKeepsOk(sys, cl, r, e, q);
        assert Feed(cl') == Feed(cl);
        if cl.conn.value.snapped {
          SameArrivalsKeepTails(sys.db, cl.serviceId, Feed(cl), Inflight(sys, cl), Inflight(sys', cl'));
        }
      } else if cl.conn.Some? {
        assert Inflight(sys', cl) == Inflight(sys, cl);
      }
    }
  }

  // ---------- Commits ----------

  lemma {:induction false} RowsElsewhere(versions: seq<VersionRow>, rows: seq<VersionRow>, slot: Slot)
    requires Versions(EventsOf(rows), slot) == []
    ensures History(versions + rows, slot) == History(versions, slot)
  {
    if rows == [] {
      assert versions + rows == versions;
    } else {
      var front, row := rows[..|rows| - 1], rows[|rows| - 1];
      assert EventsOf(rows)[..|rows| - 1] == EventsOf(front) && EventsOf(rows)[|rows| - 1] == EventOf(row);
      RowsElsewhere(versions, front, slot);
      HistoryAppend(versions + front, row, slot);
      assert versions + rows == (versions + front) + [row];
    }
  }

  /** What the store shows for a slot follows from its history. */
  lemma SameHistorySameShown(t: Tables, t': Tables, slot: Slot)
    requires Consistent(t) && Consistent(t') && History(t.versions, slot) == History(t'.versions, slot)
    ensures Shown(t, slot) == Shown(t', slot)
  {
    assert SlotConsistent(t, slot) && SlotConsistent(t', slot);
  }

  lemma CommitKeepsTail(t: Tables, t': Tables, serviceId: int, feed: seq<Msg>, es: seq<Event>, key: string)
    requires Consistent(t) && Consistent(t') && t.versions <= t'.versions
    requires TailOk(t, serviceId, feed, es, key)
    ensures TailOk(t', serviceId, feed, es + EventsOf(NewRows(t, t')), key)
  {
    var slot, rows := Slot(serviceId, key), NewRows(t, t');
    HistoryPrefix(t.versions, t'.versions, slot);
    VersionsConcat(es, EventsOf(rows), slot);
    if Versions(EventsOf(rows), slot) == [] {
      assert t.versions + rows == t'.versions;
      RowsElsewhere(t.versions, rows, slot);
      SameHistorySameShown(t, t', slot);
    }
  }

  lemma CommitKeepsOk(sys: System, op: Op)
    requires AllOk(sys)
    ensures AllOk(Committed(sys, op))
  {
    var sys' := Committed(sys, op);
    CommitKeepsGenuine(sys, op);
    TransactExtends(sys.db, op);
    var added := EventsOf(NewRows(sys.db, sys'.db));
    forall c | c in sys'.clients ensures ClientOk(sys', sys'.clients[c]) {
      var cl := sys.clients[c];
      assert ClientOk(sys, cl);
      if cl.conn.Some? && cl.conn.value.snapped {
        assert Inflight(sys', cl) == Inflight(sys, cl) + added;
        forall key ensures TailOk(sys'.db, cl.serviceId, Feed(cl), Inflight(sys', cl), key) {
          assert TailOk(sys.db, cl.serviceId, Feed(cl), Inflight(sys, cl), key);
          CommitKeepsTail(sys.db, sys'.db, cl.serviceId, Feed(cl), Inflight(sys, cl), key);
        }
      }
    }
  }

  // ---------- Steps of one client ----------

  lemma StreamKeepsOk(sys: System, step: Step, c: int, cl': Client)
    requires AllOk(sys) && Enabled(sys, step) && !step.Commit? && !step.Publish? && !step.Dispatch?
    requires c in sys.clients && Do(sys, step) == sys.(clients := sys.clients[c := cl'])
    requires ClientOk(sys, cl')
    ensures AllOk(Do(sys, step))
  {
    var sys' := Do(sys, step);
    RestKeepsGenuine(sys, step);
    forall d | d in sys'.clients ensures ClientOk(sys', sys'.clients[d]) {
      var cl := sys'.clients[d];
      assert ClientOk(sys, cl);
      if cl.conn.Some? {
        assert Inflight(sys', cl) == Inflight(sys, cl);
      }
    }
  }

  lemma SnapshotOk(sys: System, cl: Client, vars: seq<PbVariable>)
    requires Consistent(sys.db) && ClientOk(sys, cl) && cl.conn.Some? && !cl.conn.value.snapped
    requires IsListing(sys.db, cl.serviceId, vars)
    ensures ClientOk(sys, Snapped(sys, cl, vars))
  {
    var cl' := Snapped(sys, cl, vars);
    assert Feed(cl') == Feed(cl) + [Snapshot(vars)] && Inflight(sys, cl') == Inflight(sys, cl);
    HeldNext(Feed(cl), Snapshot(vars));
    forall key ensures TailOk(sys.db, cl.serviceId, Feed(cl'), Inflight(sys, cl'), key) {
      ListingIsUpToDate(sys.db, cl.serviceId, vars, key);
      UpToDateShows(sys.db, Slot(cl.serviceId, key), Listed(vars));
    }
  }

  lemma SentNext(feed: seq<Msg>, e: Event, key: string)
    ensures SentSince(feed + [ChangeMsg(e)], key) == SentSince(feed, key) + if e.key == key then [e.version] else []
    ensures Held(feed + [ChangeMsg(e)]) == Hold(Held(feed), ChangeMsg(e))
  {
    assert (feed + [ChangeMsg(e)])[..|feed|] == feed;
    HeldNext(feed, ChangeMsg(e));
  }

  lemma SendKeepsTail(db: Tables, serviceId: int, feed: seq<Msg>, e: Event, rest: seq<Event>, key: string)
    requires Faithful(db, e) && Concerns(e, serviceId)
    requires TailOk(db, serviceId, feed, [e] + rest, key)
    ensures TailOk(db, serviceId, feed + [ChangeMsg(e)], rest, key)
  {
    SentNext(feed, e, key);
    VersionsHead(e, rest, Slot(serviceId, key));
    ViewAt(Hold(Held(feed), ChangeMsg(e)), key);
    ViewAt(Held(feed), key);
  }

  lemma SendOk(sys: System, cl: Client)
    requires AllGenuine(sys) && ClientOk(sys, cl) && cl.conn.Some? && ConnGenuine(sys, cl.conn.value)
    requires cl.conn.value.snapped && cl.conn.value.ch != []
    ensures ClientOk(sys, Sent(cl))
  {
    var cl' := Sent(cl);
    var e, rest := cl.conn.value.ch[0], Inflight(sys, cl');
    assert Inflight(sys, cl) == [e] + rest;
    assert e in cl.conn.value.ch;
    if e.kind == Var {
      assert Feed(cl') == Feed(cl) + [ChangeMsg(e)];
      forall key ensures TailOk(sys.db, cl.serviceId, Feed(cl'), rest, key) {
        assert TailOk(sys.db, cl.serviceId, Feed(cl), Inflight(sys, cl), key);
        SendKeepsTail(sys.db, cl.serviceId, Feed(cl), e, rest, key);
      }
    } else {
      assert Feed(cl') == Feed(cl);
      SameArrivalsKeepTails(sys.db, cl.serviceId, Feed(cl), Inflight(sys, cl), rest);
    }
  }

  lemma ReceiveOk(sys: System, cl: Client)
    requires ClientOk(sys, cl) && cl.conn.Some? && cl.conn.value.wire != []
    ensures ClientOk(sys, Received(cl))
  {
    var cl' := Received(cl);
    assert Feed(cl') == Feed(cl) && Inflight(sys, cl') == Inflight(sys, cl);
    assert cl'.got[..|cl.got|] == cl.got;
  }

  lemma StepKeepsOk(sys: System, step: Step)
    requires AllOk(sys) && !Loses(sys, step)
    ensures AllOk(DoAnyOrder(sys, step))
  {
    match step
    case Commit(op) => CommitKeepsOk(sys, op);
    case Publish(i) => if i < |sys.unpublished| { PublishKeepsOk(sys, i); }
    case PublishFails(_) =>
    case PublishConns(serviceId) => ConnsKeepsOk(sys, serviceId);
    case ListenUp(r) => if Enabled(sys, step) { ListenUpKeepsOk(sys, r); }
    case ListenDown(r) => if Enabled(sys, step) { ListenDownKeepsOk(sys, r); }
    case Dispatch(r) => if Enabled(sys, step) { DispatchKeepsOk(sys, r); }
    case _ => if Enabled(sys, step) { ClientStepKeepsOk(sys, step); }
  }

  lemma ListenUpKeepsOk(sys: System, r: int)
    requires AllOk(sys) && r in sys.replicas
    ensures AllOk(Do(sys, ListenUp(r)))
  {
    var sys' := Do(sys, ListenUp(r));
    RestKeepsGenuine(sys, ListenUp(r));
    forall c | c in sys'.clients ensures ClientOk(sys', sys'.clients[c]) {
      var cl := sys.clients[c];
      assert ClientOk(sys, cl);
      if cl.conn.Some? {
        assert Inflight(sys', cl) == Inflight(sys, cl);
      }
    }
  }

  lemma ClientStepKeepsOk(sys: System, step: Step)
    requires AllOk(sys) && Enabled(sys, step)
    requires step.Subscribe? || step.ReadSnapshot? || step.Send? || step.Receive? || step.Disconnect?
    ensures AllOk(Do(sys, step))
  {
    match step
    case Subscribe(c, r) =>
      assert ClientOk(sys, sys.clients[c]);
      StreamKeepsOk(sys, step, c, SubscribedTo(sys, sys.clients[c], r));
    case ReadSnapshot(c, vars) =>
      SnapshotOk(sys, sys.clients[c], vars);
      StreamKeepsOk(sys, step, c, Snapped(sys, sys.clients[c], vars));
    case Send(c) =>
      SendOk(sys, sys.clients[c]);
      StreamKeepsOk(sys, step, c, Sent(sys.clients[c]));
    case Receive(c) =>
      ReceiveOk(sys, sys.clients[c]);
      StreamKeepsOk(sys, step, c, Received(sys.clients[c]));
    case Disconnect(c) =>
      assert ClientOk(sys, sys.clients[c]);
      StreamKeepsOk(sys, step, c, sys.clients[c].(conn := None));
  }

  lemma {:induction false} ExecOk(init: System, steps: seq<Step>)
    requires Init(init) && LossFreeAnyOrder(init, steps)
    ensures AllOk(ExecAnyOrder(init, steps))
  {
    if steps == [] {
      ExecGenuine(init, steps);
    } else {
      ExecOk(init, steps[..|steps| - 1]);
      StepKeepsOk(ExecAnyOrder(init, steps[..|steps| - 1]), steps[|steps| - 1]);
    }
  }

  /** The client drains, for the key, to the effect of the last version that follows its snapshot, sent
      or still on the way, or to the store's value when none does. */
  predicate SettlesSinceSnapshot(sys: System, c: int, key: string)
    requires Streaming(sys, c)
  {
    var cl := sys.clients[c];
    var slot := Slot(cl.serviceId, key);
    var vs := SinceSnapshot(sys, cl, key);
    Lookup(Drained(sys, cl), key) == if vs == [] then Shown(sys.db, slot) else EffectAt(sys.db, slot, vs[|vs| - 1])
  }

  lemma OkSettles(sys: System, c: int, key: string)
    requires AllOk(sys) && Streaming(sys, c)
    ensures SettlesSinceSnapshot(sys, c, key)
  {
    var cl := sys.clients[c];
    assert ClientOk(sys, cl);
    assert TailOk(sys.db, cl.serviceId, Feed(cl), Inflight(sys, cl), key);
    GenuineSettlesAt(sys, c, key);
    ApplyAllConcat(map[], cl.got, cl.conn.value.wire);
    ViewHeld(Feed(cl));
  }

  /** MAIN: without loss, but publishing in whatever order, what a client ends with for a key, at
      quiescence too, is decided by the last version of it that reaches the client after its snapshot. */
  lemma {:induction false} LossFreeAnyOrderSettlesAt(init: System, steps: seq<Step>, c: int, key: string)
    requires Init(init) && LossFreeAnyOrder(init, steps) && Streaming(ExecAnyOrder(init, steps), c)
    ensures SettlesSinceSnapshot(ExecAnyOrder(init, steps), c, key)
  {
    ExecOk(init, steps);
    OkSettles(ExecAnyOrder(init, steps), c, key);
  }
}
