/** Runs after which a client does not hold what the store shows: a new subscription need not heal an
    earlier loss, nor one in the gap before its snapshot; a client can go back for a while although
    nothing is lost; and publishing out of order makes it settle on the wrong value. */
module Anomalies {
  import opened Common
  import opened VersionedStore
  import opened VersionedStoreProofs
  import opened Events
  import opened Distribution
  import opened Convergence
  import opened HeldVersions

  const K := Slot(1, "K")
  const OLD := Event(Var, 1, UpsertEvent, "K", "old", 1)
  const NEW := Event(Var, 1, UpsertEvent, "K", "new", 2)
  const CREATED := VersionRow(K, "old", 1, Create, "a")
  const UPDATED := VersionRow(K, "new", 2, Update, "a")
  const SNAPSHOT := [PbVariable("K", "new", 2)]
  const WRITE_OLD := Commit(Upsert(K, "old", "a"))
  const WRITE_NEW := Commit(Upsert(K, "new", "a"))

  const ONE_WRITE := Tables(map[K := Variable(K, "old", 1, "a")], [CREATED])
  const TWO_WRITES := Tables(map[K := Variable(K, "new", 2, "a")], [CREATED, UPDATED])

  /** One replica and one client. */
  function One(db: Tables, unpublished: seq<Event>, r: Replica, cl: Client): System {
    System(db, unpublished, map[0 := r], map[0 := cl])
  }

  /** The client with a stream to the replica. */
  function On(overrides: map<string, string>, got: seq<Msg>, conn: Conn): Client {
    Client(1, overrides, got, Some(conn))
  }

  const AWAY := Client(1, map[], [], None)
  const SUBSCRIBED := On(map[], [], Conn(0, false, [], [], {}))
  const LISTENING := Replica(true, [], {})
  const QUIET := One(EMPTY, [], LISTENING, AWAY)

  // ---------- Steps ----------

  lemma QuietIsInitial()
    ensures Init(QUIET)
  {
    RunConsistent([]);
  }

  lemma FirstWrite(cl: Client)
    ensures Do(One(EMPTY, [], LISTENING, cl), WRITE_OLD) == One(ONE_WRITE, [OLD], LISTENING, cl)
  {
    var db := Upserted(EMPTY, K, "old", "a");
    assert db.versions == [CREATED];
    assert NewRows(EMPTY, db) == [CREATED];
    assert EventsOf([CREATED]) == [OLD];
  }

  lemma SecondWrite(cl: Client)
    ensures Do(One(ONE_WRITE, [OLD], LISTENING, cl), WRITE_NEW) == One(TWO_WRITES, [OLD, NEW], LISTENING, cl)
  {
    assert [CREATED][..0] == [];
    assert MaxVersion(ONE_WRITE.versions, K) == 1;
    var db := Upserted(ONE_WRITE, K, "new", "a");
    assert db == TWO_WRITES;
    assert NewRows(ONE_WRITE, db) == [UPDATED];
    assert EventsOf([UPDATED]) == [NEW];
    assert [OLD] + [NEW] == [OLD, NEW];
  }

  lemma OnePublished(db: Tables, u: seq<Event>, i: nat, q: seq<Event>, cl: Client)
    requires i < |u|
    ensures Published(One(db, u, Replica(true, q, {}), cl), i)
         == One(db, Without(u, i), Replica(true, q + [u[i]], {}), cl)
  {
  }

  lemma TwoWritesFacts()
    ensures History(TWO_WRITES.versions, K) == [CREATED, UPDATED]
    ensures Latest(TWO_WRITES, K) == 2 && Shown(TWO_WRITES, K) == Some("new")
    ensures EffectAt(TWO_WRITES, K, 1) == Some("old")
    ensures IsListing(TWO_WRITES, 1, SNAPSHOT)
  {
    assert [CREATED, UPDATED][..1] == [CREATED] && [CREATED][..0] == [];
    assert History([CREATED], K) == [CREATED];
    assert History(TWO_WRITES.versions, K) == [CREATED] + [UPDATED];
  }

  lemma Subscribes()
    ensures Do(QUIET, Subscribe(0, 0)) == One(EMPTY, [], LISTENING, SUBSCRIBED)
  {
    var none: seq<Event> := [];
    assert Overtaken(EMPTY, none + none, 1) == {};
  }

  lemma VersionsOfBoth()
    ensures Versions([OLD, NEW], K) == [1, 2] && Versions([OLD], K) == [1]
    ensures [OLD] + [NEW] == [OLD, NEW] && [OLD] + [] == [OLD]
  {
    VersionsOne(OLD, K);
    VersionsOne(NEW, K);
    VersionsConcat([OLD], [NEW], K);
    assert [OLD] + [NEW] == [OLD, NEW];
  }

  lemma FourSteps(sys: System, a: Step, b: Step, c: Step, d: Step)
    ensures Exec(sys, [a, b, c, d]) == Do(Do(Do(Do(sys, a), b), c), d)
  {
    assert [a, b, c, d][..3] == [a, b, c] && [a, b, c][..2] == [a, b] && [a, b][..1] == [a] && [a][..0] == [];
    assert Exec(sys, [a]) == Do(sys, a);
    assert Exec(sys, [a, b]) == Do(Do(sys, a), b);
    assert Exec(sys, [a, b, c]) == Do(Do(Do(sys, a), b), c);
  }

  // ---------- New subscriptions ----------

  /** The two writes commit, the first is published and still queued at the replica, publishing the
      second fails. */
  const OVERTAKEN_RUN: seq<Step> := [WRITE_OLD, WRITE_NEW, Publish(0), PublishFails(0)]

  lemma FirstPublished()
    ensures Do(One(TWO_WRITES, [OLD, NEW], LISTENING, AWAY), Publish(0))
         == One(TWO_WRITES, [NEW], Replica(true, [OLD], {}), AWAY)
  {
    assert Without([OLD, NEW], 0) == [NEW];
    assert [] + [OLD] == [OLD];
    OnePublished(TWO_WRITES, [OLD, NEW], 0, [], AWAY);
  }

  lemma SecondFails()
    ensures Do(One(TWO_WRITES, [NEW], Replica(true, [OLD], {}), AWAY), PublishFails(0))
         == One(TWO_WRITES, [], Replica(true, [OLD], {(K, 2)}), AWAY)
  {
    assert Without([NEW], 0) == [];
    assert LostSlots([NEW]) == {(K, 2)};
    var none: set<(Slot, nat)> := {};
    assert none + LostSlots([NEW]) == {(K, 2)};
  }

  lemma OvertakenRunEnds()
    ensures Exec(QUIET, OVERTAKEN_RUN) == One(TWO_WRITES, [], Replica(true, [OLD], {(K, 2)}), AWAY)
  {
    FirstWrite(AWAY);
    SecondWrite(AWAY);
    FirstPublished();
    SecondFails();
    FourSteps(QUIET, WRITE_OLD, WRITE_NEW, Publish(0), PublishFails(0));
  }

  /** A client that subscribes only now, after the loss, and whose snapshot is correct, nevertheless
      drains to the old value: the older event is still on its way and is applied last. */
  lemma NewSubscriptionNeedNotHeal()
    ensures Init(QUIET)
    ensures var sys := Exec(QUIET, OVERTAKEN_RUN + [Subscribe(0, 0)] + [ReadSnapshot(0, SNAPSHOT)]);
      && Streaming(sys, 0) && IsListing(sys.db, 1, SNAPSHOT)
      && Shown(sys.db, K) == Some("new") && Lookup(Drained(sys, sys.clients[0]), "K") == Some("old")
  {
    QuietIsInitial();
    OvertakenRunEnds();
    TwoWritesFacts();
    VersionsOfBoth();
    NewSubscriptionSettlesAt(QUIET, OVERTAKEN_RUN, 0, 0, SNAPSHOT, "K");
  }

  /** Both writes commit between the subscription and the snapshot read, and the second is lost. */
  const GAP_RUN: seq<Step> := [Subscribe(0, 0), WRITE_OLD, WRITE_NEW, PublishFails(1)]

  const MISSING := On(map[], [], Conn(0, false, [], [], {("K", 2)}))
  const IN_GAP := One(TWO_WRITES, [OLD], Replica(true, [], {(K, 2)}), MISSING)

  lemma GapFacts()
    ensures Arriving(IN_GAP, MISSING, "K") == [1] && ArrivingAt(QUIET, 0, K) == []
  {
    VersionsOfBoth();
    assert Inflight(IN_GAP, MISSING) == [OLD];
    var none: seq<Event> := [];
    assert none + none == none;
  }

  lemma LastFails()
    ensures Do(One(TWO_WRITES, [OLD, NEW], LISTENING, SUBSCRIBED), PublishFails(1)) == IN_GAP
  {
    assert Without([OLD, NEW], 1) == [OLD];
    assert LostSlots([NEW]) == {(K, 2)} && LostTo([NEW], 1) == {("K", 2)};
    var none: set<(Slot, nat)> := {};
    assert none + LostSlots([NEW]) == {(K, 2)};
    var nothing: set<(string, nat)> := {};
    assert nothing + LostTo([NEW], 1) == {("K", 2)};
  }

  lemma GapRunEnds()
    ensures Exec(QUIET, GAP_RUN) == IN_GAP
  {
    Subscribes();
    FirstWrite(SUBSCRIBED);
    SecondWrite(SUBSCRIBED);
    LastFails();
    FourSteps(QUIET, Subscribe(0, 0), WRITE_OLD, WRITE_NEW, PublishFails(1));
  }

  /** Nothing of the key was on its way when the client subscribed. Still it drains to the old value:
      what matters is what is arriving when the snapshot is read. */
  lemma GapNeedNotHeal()
    ensures Init(QUIET)
    ensures var sys := Exec(QUIET, GAP_RUN);
      && ArrivingAt(QUIET, 0, K) == [] && Enabled(sys, ReadSnapshot(0, SNAPSHOT))
      && var sys' := Do(sys, ReadSnapshot(0, SNAPSHOT));
         Shown(sys'.db, K) == Some("new") && Lookup(Drained(sys', sys'.clients[0]), "K") == Some("old")
  {
    QuietIsInitial();
    GapRunEnds();
    TwoWritesFacts();
    GapFacts();
    SnapshotSettlesAt(QUIET, GAP_RUN, 0, SNAPSHOT, "K");
  }

  // ---------- Going back for a while ----------

  const READ_RUN: seq<Step> := [Subscribe(0, 0), WRITE_OLD, WRITE_NEW, ReadSnapshot(0, SNAPSHOT)]
  const FRESH_RUN: seq<Step> := READ_RUN + [Receive(0)]
  const BACK_RUN: seq<Step> := FRESH_RUN + [Publish(0), Dispatch(0), Send(0), Receive(0)]

  const SENT_OLD := Change(false, PbVariable("K", "old", 1))
  const FRESH := On(map["K" := "new"], [Snapshot(SNAPSHOT)], Conn(0, true, [], [], {}))
  const BACK := On(map["K" := "old"], [Snapshot(SNAPSHOT), SENT_OLD], Conn(0, true, [], [], {}))

  /** The client with `ch` in its channel and `wire` on its way, after it applied the snapshot. */
  function FreshWith(ch: seq<Event>, wire: seq<Msg>): Client {
    On(map["K" := "new"], [Snapshot(SNAPSHOT)], Conn(0, true, ch, wire, {}))
  }

  lemma {:induction false} RunConcat(sys: System, a: seq<Step>, b: seq<Step>)
    ensures Exec(sys, a + b) == Exec(Exec(sys, a), b)
    ensures LossFree(sys, a + b) <==> LossFree(sys, a) && LossFree(Exec(sys, a), b)
  {
    if b == [] {
      assert a + b == a;
    } else {
      assert (a + b)[..|a + b| - 1] == a + b[..|b| - 1];
      RunConcat(sys, a, b[..|b| - 1]);
    }
  }

  lemma FourLossFree(sys: System, a: Step, b: Step, c: Step, d: Step)
    requires !Loses(sys, a) && !Loses(Do(sys, a), b)
    requires !Loses(Do(Do(sys, a), b), c) && !Loses(Do(Do(Do(sys, a), b), c), d)
    ensures LossFree(sys, [a, b, c, d])
  {
    assert [a, b, c, d][..3] == [a, b, c] && [a, b, c][..2] == [a, b] && [a, b][..1] == [a] && [a][..0] == [];
    assert Exec(sys, [a]) == Do(sys, a);
    assert Exec(sys, [a, b]) == Do(Do(sys, a), b);
    assert Exec(sys, [a, b, c]) == Do(Do(Do(sys, a), b), c);
    assert LossFree(sys, [a]);
    assert LossFree(sys, [a, b]);
  }

  const READ := On(map[], [], Conn(0, true, [], [Snapshot(SNAPSHOT)], {}))

  lemma ReadsSnapshot()
    ensures Do(One(TWO_WRITES, [OLD, NEW], LISTENING, SUBSCRIBED), ReadSnapshot(0, SNAPSHOT))
         == One(TWO_WRITES, [OLD, NEW], LISTENING, READ)
  {
    TwoWritesFacts();
    VersionsOfBoth();
    var sys := One(TWO_WRITES, [OLD, NEW], LISTENING, SUBSCRIBED);
    assert Inflight(sys, SUBSCRIBED) == [OLD, NEW];
    assert Overtaken(TWO_WRITES, [OLD, NEW], 1) == {} by {
      forall e | e in [OLD, NEW] ensures Latest(TWO_WRITES, Slot(1, e.key)) in Versions([OLD, NEW], Slot(1, e.key)) {
        assert Slot(1, e.key) == K && [1, 2][1] == 2;
      }
    }
    assert Snapped(sys, SUBSCRIBED, SNAPSHOT) == READ;
  }

  lemma ReceivesSnapshot()
    ensures Do(One(TWO_WRITES, [OLD, NEW], LISTENING, READ), Receive(0))
         == One(TWO_WRITES, [OLD, NEW], LISTENING, FRESH)
  {
    assert SNAPSHOT[..0] == [] && MapOf(SNAPSHOT) == map["K" := "new"];
    assert [] + [Snapshot(SNAPSHOT)] == [Snapshot(SNAPSHOT)] && [Snapshot(SNAPSHOT)][1..] == [];
    assert Received(READ) == FRESH;
  }

  lemma OldIsPublished()
    ensures Do(One(TWO_WRITES, [OLD, NEW], LISTENING, FRESH), Publish(0))
         == One(TWO_WRITES, [NEW], Replica(true, [OLD], {}), FRESH)
  {
    assert Without([OLD, NEW], 0) == [NEW];
    assert [] + [OLD] == [OLD];
    OnePublished(TWO_WRITES, [OLD, NEW], 0, [], FRESH);
  }

  lemma OldIsDispatched()
    ensures Do(One(TWO_WRITES, [NEW], Replica(true, [OLD], {}), FRESH), Dispatch(0))
         == One(TWO_WRITES, [NEW], LISTENING, FreshWith([OLD], []))
  {
    assert [] + [OLD] == [OLD] && [OLD][1..] == [];
    assert OfferedTo(FRESH, 0, OLD) == FreshWith([OLD], []);
  }

  lemma OldIsSent()
    ensures Do(One(TWO_WRITES, [NEW], LISTENING, FreshWith([OLD], [])), Send(0))
         == One(TWO_WRITES, [NEW], LISTENING, FreshWith([], [SENT_OLD]))
  {
    assert [] + [SENT_OLD] == [SENT_OLD] && [OLD][1..] == [];
  }

  lemma OldIsApplied()
    ensures Do(One(TWO_WRITES, [NEW], LISTENING, FreshWith([], [SENT_OLD])), Receive(0))
         == One(TWO_WRITES, [NEW], LISTENING, BACK)
  {
    assert [SENT_OLD][1..] == [];
    assert [Snapshot(SNAPSHOT)] + [SENT_OLD] == [Snapshot(SNAPSHOT), SENT_OLD];
    assert map["K" := "new"]["K" := "old"] == map["K" := "old"];
  }

  /** Steps that lose nothing in any state. */
  predicate Harmless(step: Step) {
    step.Commit? || step.Subscribe? || step.ReadSnapshot? || step.Send? || step.Receive?
  }

  lemma {:induction false} HarmlessRun(sys: System, steps: seq<Step>)
    requires forall step :: step in steps ==> Harmless(step)
    ensures LossFree(sys, steps)
  {
    if steps != [] {
      assert steps[|steps| - 1] in steps;
      HarmlessRun(sys, steps[..|steps| - 1]);
    }
  }

  lemma ReadRunEnds()
    ensures Exec(QUIET, READ_RUN) == One(TWO_WRITES, [OLD, NEW], LISTENING, READ)
  {
    Subscribes();
    FirstWrite(SUBSCRIBED);
    SecondWrite(SUBSCRIBED);
    ReadsSnapshot();
    FourSteps(QUIET, Subscribe(0, 0), WRITE_OLD, WRITE_NEW, ReadSnapshot(0, SNAPSHOT));
  }

  lemma FreshRunEnds()
    ensures Exec(QUIET, FRESH_RUN) == One(TWO_WRITES, [OLD, NEW], LISTENING, FRESH)
    ensures LossFree(QUIET, FRESH_RUN)
  {
    ReadRunEnds();
    ReceivesSnapshot();
    ExecNext(QUIET, READ_RUN, Receive(0));
    HarmlessRun(QUIET, FRESH_RUN);
  }

  lemma BackStepsEnd()
    ensures var sys := One(TWO_WRITES, [OLD, NEW], LISTENING, FRESH);
      && Exec(sys, [Publish(0), Dispatch(0), Send(0), Receive(0)]) == One(TWO_WRITES, [NEW], LISTENING, BACK)
      && LossFree(sys, [Publish(0), Dispatch(0), Send(0), Receive(0)])
  {
    OldIsPublished();
    OldIsDispatched();
    OldIsSent();
    OldIsApplied();
    FourSteps(One(TWO_WRITES, [OLD, NEW], LISTENING, FRESH), Publish(0), Dispatch(0), Send(0), Receive(0));
    FourLossFree(One(TWO_WRITES, [OLD, NEW], LISTENING, FRESH), Publish(0), Dispatch(0), Send(0), Receive(0));
  }

  lemma BackRunEnds()
    ensures Exec(QUIET, BACK_RUN) == One(TWO_WRITES, [NEW], LISTENING, BACK)
    ensures LossFree(QUIET, BACK_RUN)
  {
    FreshRunEnds();
    BackStepsEnd();
    RunConcat(QUIET, FRESH_RUN, [Publish(0), Dispatch(0), Send(0), Receive(0)]);
  }

  lemma WhatTheyHold()
    ensures Lookup(FRESH.overrides, "K") == Some("new") && Lookup(BACK.overrides, "K") == Some("old")
    ensures Lookup(View(Guarded(BACK.got)), "K") == Some("new")
  {
    GuardStays(PbVariable("K", "new", 2), PbVariable("K", "old", 1));
  }

  /** After a snapshot of one variable, an older change of it is skipped. */
  lemma GuardStays(v: PbVariable, older: PbVariable)
    requires older.key == v.key && older.version <= v.version
    ensures Lookup(View(Guarded([Snapshot([v]), Change(false, older)])), v.key) == Some(v.value)
  {
    var none: seq<Msg> := [];
    HeldNext(none, Snapshot([v]));
    HeldNext([Snapshot([v])], Change(false, older));
    assert none + [Snapshot([v])] == [Snapshot([v])];
    assert [Snapshot([v])] + [Change(false, older)] == [Snapshot([v]), Change(false, older)];
    assert [v][..0] == [];
    assert Listed([v]) == map[v.key := EntryOf(false, v)];
    ViewAt(Listed([v]), v.key);
  }

  /** Nothing is lost and events are published in order. Still a client that held the store's current
      value goes back to an older one, while the store does not change; the guarded client stays. */
  lemma ClientGoesBack()
    ensures Init(QUIET) && LossFree(QUIET, BACK_RUN) && FRESH_RUN <= BACK_RUN
    ensures var before, after := Exec(QUIET, FRESH_RUN), Exec(QUIET, BACK_RUN);
      && 0 in before.clients && 0 in after.clients
      && before.db == after.db && Shown(after.db, K) == Some("new")
      && Lookup(before.clients[0].overrides, "K") == Some("new")
      && Lookup(after.clients[0].overrides, "K") == Some("old")
      && Lookup(View(Guarded(after.clients[0].got)), "K") == Some("new")
  {
    QuietIsInitial();
    FreshRunEnds();
    BackRunEnds();
    TwoWritesFacts();
    WhatTheyHold();
  }

  // ---------- Publication order ----------

  const CONNECTED := On(map[], [], Conn(0, true, [], [Snapshot([])], {}))

  /** The client connects, and then the two writes commit. */
  const CONNECTED_RUN: seq<Step> := [Subscribe(0, 0), ReadSnapshot(0, []), WRITE_OLD, WRITE_NEW]

  lemma ReadsEmptySnapshot()
    ensures Do(One(EMPTY, [], LISTENING, SUBSCRIBED), ReadSnapshot(0, [])) == One(EMPTY, [], LISTENING, CONNECTED)
  {
    var none: seq<Event> := [];
    assert Overtaken(EMPTY, none + (none + none), 1) == {};
  }

  lemma ConnectedRunEnds()
    ensures Exec(QUIET, CONNECTED_RUN) == One(TWO_WRITES, [OLD, NEW], LISTENING, CONNECTED)
  {
    Subscribes();
    ReadsEmptySnapshot();
    FirstWrite(CONNECTED);
    SecondWrite(CONNECTED);
    FourSteps(QUIET, Subscribe(0, 0), ReadSnapshot(0, []), WRITE_OLD, WRITE_NEW);
  }

  lemma DrainsTo(m: map<string, string>, es: seq<Event>, e: Event)
    requires es != [] && es[|es| - 1] == e && Concerns(e, 1) && e.change == UpsertEvent
    ensures Lookup(Settle(m, es, 1), e.key) == Some(e.value)
  {
  }

  const IN_ORDER := One(TWO_WRITES, [OLD, NEW], LISTENING, CONNECTED)
  const NEWER_FIRST := One(TWO_WRITES, [OLD], Replica(true, [NEW], {}), CONNECTED)

  lemma NewerPublished()
    ensures Published(IN_ORDER, 1) == NEWER_FIRST
  {
    assert Without([OLD, NEW], 1) == [OLD];
    assert [] + [NEW] == [NEW];
    OnePublished(TWO_WRITES, [OLD, NEW], 1, [], CONNECTED);
  }

  lemma InOrderDrains()
    ensures Lookup(Drained(IN_ORDER, CONNECTED), "K") == Some("new")
  {
    assert Inflight(IN_ORDER, CONNECTED) == [OLD, NEW];
    DrainsTo(ApplyAll(map[], [Snapshot([])]), [OLD, NEW], NEW);
  }

  lemma NewerFirstDrains()
    ensures Lookup(Drained(NEWER_FIRST, CONNECTED), "K") == Some("old")
  {
    assert Inflight(NEWER_FIRST, CONNECTED) == [NEW, OLD];
    DrainsTo(ApplyAll(map[], [Snapshot([])]), [NEW, OLD], OLD);
  }

  /** The handlers do not enforce commit order of publication. Publishing the newer of two changes
      first makes a connected client, which would have settled on the new value, settle on the old
      one, although nothing is lost. */
  lemma PublicationOrderMatters()
    ensures Init(QUIET)
    ensures var sys := Exec(QUIET, CONNECTED_RUN);
      && Streaming(sys, 0) && Shown(sys.db, K) == Some("new")
      && |sys.unpublished| == 2 && !FirstOfItsKey(sys.unpublished, 1)
      && Lookup(Drained(sys, sys.clients[0]), "K") == Some("new")
      && Lookup(Drained(Published(sys, 1), Published(sys, 1).clients[0]), "K") == Some("old")
  {
    QuietIsInitial();
    ConnectedRunEnds();
    NewerPublished();
    InOrderDrains();
    NewerFirstDrains();
    assert [OLD, NEW][0].key == [OLD, NEW][1].key;
  }
}
