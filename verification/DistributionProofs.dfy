/** The invariant of the distribution protocol and what follows from it for every run. */
module DistributionProofs {
  import opened Common
  import opened VersionedStore
  import opened VersionedStoreProofs
  import opened Events
  import opened Fanout
  import opened Distribution
  import opened HeldVersions

  // ---------- The invariant ----------

  /** Versions in flight ascend and, unless the latest was lost, end with it. */
  predicate ReplicaSlot(db: Tables, r: Replica, unpublished: seq<Event>, slot: Slot) {
    var vs := Versions(r.queue + unpublished, slot);
    && Ascending(vs)
    && (vs != [] ==> vs[|vs| - 1] == Latest(db, slot) || (slot, Latest(db, slot)) in r.lost)
  }

  ghost predicate ReplicaInv(db: Tables, r: Replica, unpublished: seq<Event>) {
    && AllFaithful(db, r.queue)
    && forall slot :: ReplicaSlot(db, r, unpublished, slot)
  }

  /** The same towards one connected client, who was sent the messages `feed`; a key with nothing in
      flight is up to date once the messages on the wire are applied. */
  predicate KeyInv(db: Tables, serviceId: int, feed: seq<Msg>, conn: Conn, inflight: seq<Event>, key: string) {
    var slot := Slot(serviceId, key);
    var n := Latest(db, slot);
    var vs := Versions(inflight, slot);
    && Ascending(vs)
    && (vs != [] ==> vs[|vs| - 1] == n || (key, n) in conn.lost)
    && (forall x :: x in conn.lost && x.0 == key ==> 1 <= x.1 <= n && x.1 !in vs)
    && (conn.snapped && vs == [] ==> (key, n) in conn.lost || UpToDate(db, slot, Lookup(Held(feed), key)))
  }

  ghost predicate ConnInv(db: Tables, serviceId: int, feed: seq<Msg>, conn: Conn, inflight: seq<Event>) {
    && |conn.ch| <= CAPACITY
    && AllFaithful(db, conn.ch)
    && (forall e :: e in conn.ch ==> e.serviceId == serviceId)
    && (!conn.snapped ==> conn.wire == [])
    && forall key :: KeyInv(db, serviceId, feed, conn, inflight, key)
  }

  /** Everything the client was sent so far. */
  function Feed(cl: Client): seq<Msg> {
    cl.got + if cl.conn.Some? then cl.conn.value.wire else []
  }

  /** After `msgs`, the client's versions are genuine, and a guarded client would not be behind it. */
  ghost predicate FeedOk(db: Tables, serviceId: int, msgs: seq<Msg>) {
    forall key :: Ahead(db, Slot(serviceId, key), Lookup(Held(msgs), key), Lookup(Guarded(msgs), key))
  }

  /** So it is from the first `n` messages on, one by one, and a guarded client would never go back. */
  ghost predicate FeedsOk(db: Tables, serviceId: int, n: nat, feed: seq<Msg>) {
    && FeedOk(db, serviceId, feed)
    && (n < |feed| ==>
          var front := feed[..|feed| - 1];
          FeedsOk(db, serviceId, n, front) && NoOlder(Guarded(front), Guarded(feed)))
  }

  ghost predicate ClientInv(sys: System, cl: Client) {
    && cl.serviceId > 0
    && cl.overrides == ApplyAll(map[], cl.got)
    && FeedsOk(sys.db, cl.serviceId, |cl.got|, Feed(cl))
    && (cl.conn.Some? ==>
          && cl.conn.value.replica in sys.replicas
          && ConnInv(sys.db, cl.serviceId, Feed(cl), cl.conn.value, Inflight(sys, cl)))
  }

  ghost predicate Inv(sys: System) {
    && Consistent(sys.db)
    && AllFaithful(sys.db, sys.unpublished)
    && (forall e :: e in sys.unpublished ==> e.kind == Var)
    && (forall r :: r in sys.replicas ==> ReplicaInv(sys.db, sys.replicas[r], sys.unpublished))
    && (forall c :: c in sys.clients ==> ClientInv(sys, sys.clients[c]))
  }

  // ---------- Commit ----------

  /** `t'` is `t` with one more legal row. */
  ghost predicate Extends(t: Tables, row: VersionRow, t': Tables) {
    && Consistent(t) && Consistent(t')
    && t'.versions == t.versions + [row]
    && (forall slot :: slot != row.slot ==> Lookup(t'.variables, slot) == Lookup(t.variables, slot))
  }

  function WithRow(sys: System, row: VersionRow, db: Tables): System {
    sys.(db := db, unpublished := sys.unpublished + [EventOf(row)])
  }

  lemma LatestGrows(t: Tables, row: VersionRow, t': Tables, slot: Slot)
    requires Extends(t, row, t')
    ensures Latest(t', slot) == Latest(t, slot) + if slot == row.slot then 1 else 0
    ensures slot == row.slot ==> row.version == Latest(t', slot)
    ensures slot != row.slot ==> Shown(t', slot) == Shown(t, slot)
  {
    HistoryAppend(t.versions, row, slot);
    var h' := History(t'.versions, slot);
    assert SlotConsistent(t', slot);
    LegalVersions(h');
    assert Lookup(t'.variables, slot) == Lookup(t.variables, slot) || slot == row.slot;
    if slot == row.slot {
      assert h'[|h'| - 1] == row;
    }
  }

  lemma FaithfulGrows(t: Tables, row: VersionRow, t': Tables, es: seq<Event>)
    requires Extends(t, row, t') && AllFaithful(t, es)
    ensures AllFaithful(t', es)
  {
    forall e | e in es ensures Faithful(t', e) {
      HistoryAppend(t.versions, row, Slot(e.serviceId, e.key));
    }
  }

  lemma NewRowFaithful(t: Tables, row: VersionRow, t': Tables)
    requires Extends(t, row, t')
    ensures Faithful(t', EventOf(row))
  {
    LatestGrows(t, row, t', row.slot);
    HistoryAppend(t.versions, row, row.slot);
  }

  lemma VersionsWithRow(es: seq<Event>, row: VersionRow, slot: Slot)
    ensures Versions(es + [EventOf(row)], slot)
         == Versions(es, slot) + if slot == row.slot then [row.version] else []
  {
    VersionsConcat(es, [EventOf(row)], slot);
    VersionsOne(EventOf(row), slot);
  }

  lemma AscendingExtend(vs: seq<nat>, n: nat)
    requires Ascending(vs) && forall v :: v in vs ==> v <= n
    ensures Ascending(vs + [n + 1])
  {
    forall i | 0 <= i < |vs| ensures vs[i] <= n {
      assert vs[i] in vs;
    }
  }

  lemma RowKeepsReplica(t: Tables, row: VersionRow, t': Tables, r: Replica, u: seq<Event>)
    requires Extends(t, row, t') && AllFaithful(t, u) && ReplicaInv(t, r, u)
    ensures ReplicaInv(t', r, u + [EventOf(row)])
  {
    FaithfulGrows(t, row, t', r.queue);
    forall slot ensures ReplicaSlot(t', r, u + [EventOf(row)], slot) {
      assert ReplicaSlot(t, r, u, slot);
      LatestGrows(t, row, t', slot);
      VersionsWithRow(r.queue + u, row, slot);
      assert r.queue + (u + [EventOf(row)]) == (r.queue + u) + [EventOf(row)];
      VersionsBounded(t, r.queue + u, slot);
      AscendingExtend(Versions(r.queue + u, slot), Latest(t, slot));
    }
  }

  lemma RowKeepsKey(t: Tables, row: VersionRow, t': Tables, serviceId: int, feed: seq<Msg>, conn: Conn,
                    inflight: seq<Event>, key: string)
    requires Extends(t, row, t') && AllFaithful(t, inflight)
    requires KeyInv(t, serviceId, feed, conn, inflight, key)
    ensures KeyInv(t', serviceId, feed, conn, inflight + [EventOf(row)], key)
  {
    var slot := Slot(serviceId, key);
    LatestGrows(t, row, t', slot);
    VersionsWithRow(inflight, row, slot);
    VersionsBounded(t, inflight, slot);
    AscendingExtend(Versions(inflight, slot), Latest(t, slot));
  }

  lemma RowKeepsConn(t: Tables, row: VersionRow, t': Tables, cl: Client, conn: Conn, inflight: seq<Event>)
    requires Extends(t, row, t') && AllFaithful(t, inflight)
    requires ConnInv(t, cl.serviceId, Feed(cl), conn, inflight)
    ensures ConnInv(t', cl.serviceId, Feed(cl), conn, inflight + [EventOf(row)])
  {
    FaithfulGrows(t, row, t', conn.ch);
    forall key ensures KeyInv(t', cl.serviceId, Feed(cl), conn, inflight + [EventOf(row)], key) {
      assert KeyInv(t, cl.serviceId, Feed(cl), conn, inflight, key);
      RowKeepsKey(t, row, t', cl.serviceId, Feed(cl), conn, inflight, key);
    }
  }

  lemma FeedPersists(t: Tables, t': Tables, serviceId: int, feed: seq<Msg>)
    requires t.versions <= t'.versions && FeedOk(t, serviceId, feed)
    ensures FeedOk(t', serviceId, feed)
  {
    forall key ensures Ahead(t', Slot(serviceId, key), Lookup(Held(feed), key), Lookup(Guarded(feed), key)) {
      AheadPersists(t, t', Slot(serviceId, key), Lookup(Held(feed), key), Lookup(Guarded(feed), key));
    }
  }

  lemma {:induction false} FeedsPersist(t: Tables, t': Tables, serviceId: int, n: nat, feed: seq<Msg>)
    requires t.versions <= t'.versions && FeedsOk(t, serviceId, n, feed)
    ensures FeedsOk(t', serviceId, n, feed)
  {
    FeedPersists(t, t', serviceId, feed);
    if n < |feed| {
      FeedsPersist(t, t', serviceId, n, feed[..|feed| - 1]);
    }
  }

  lemma {:induction false} FeedsPrefix(db: Tables, serviceId: int, n: nat, feed: seq<Msg>, k: nat)
    requires n <= k <= |feed| && FeedsOk(db, serviceId, n, feed)
    ensures FeedsOk(db, serviceId, n, feed[..k]) && FeedsOk(db, serviceId, k, feed)
  {
    if k == |feed| {
      assert feed[..k] == feed;
    } else {
      var front := feed[..|feed| - 1];
      FeedsPrefix(db, serviceId, n, front, k);
      assert front[..k] == feed[..k];
    }
  }

  lemma RowKeepsInv(sys: System, row: VersionRow, db: Tables)
    requires Inv(sys) && Extends(sys.db, row, db)
    ensures Inv(WithRow(sys, row, db))
  {
    var sys' := WithRow(sys, row, db);
    FaithfulGrows(sys.db, row, db, sys.unpublished);
    NewRowFaithful(sys.db, row, db);
    forall r | r in sys'.replicas ensures ReplicaInv(db, sys'.replicas[r], sys'.unpublished) {
      RowKeepsReplica(sys.db, row, db, sys.replicas[r], sys.unpublished);
    }
    forall c | c in sys'.clients ensures ClientInv(sys', sys'.clients[c]) {
      var cl := sys.clients[c];
      assert ClientInv(sys, cl);
      FeedsPersist(sys.db, db, cl.serviceId, |cl.got|, Feed(cl));
      if cl.conn.Some? {
        assert ReplicaInv(sys.db, sys.replicas[cl.conn.value.replica], sys.unpublished);
        RowKeepsConn(sys.db, row, db, cl, cl.conn.value, Inflight(sys, cl));
        assert Inflight(sys', cl) == Inflight(sys, cl) + [EventOf(row)];
      }
    }
  }

  lemma UpsertExtends(t: Tables, slot: Slot, value: string, author: string) returns (row: VersionRow)
    requires Consistent(t)
    ensures Extends(t, row, Upserted(t, slot, value, author))
  {
    row := VersionRow(slot, value, NextVersion(t.versions, slot), UpsertChange(t, slot), author);
    UpsertConsistent(t, slot, value, author);
  }

  /** The state after the first `kvs` of a bulk upsert's rows. */
  function AfterUpserts(sys: System, serviceId: int, kvs: seq<(string, string)>, author: string): System {
    var db := UpsertedAll(sys.db, serviceId, kvs, author);
    sys.(db := db, unpublished := sys.unpublished + EventsOf(NewRows(sys.db, db)))
  }

  lemma NewRowsAppend(t: Tables, mid: Tables, t': Tables, row: VersionRow)
    requires t.versions <= mid.versions && t'.versions == mid.versions + [row]
    ensures t.versions <= t'.versions
    ensures EventsOf(NewRows(t, t')) == EventsOf(NewRows(t, mid)) + [EventOf(row)]
  {
    assert NewRows(t, t') == NewRows(t, mid) + [row];
  }

  lemma {:induction false} UpsertsKeepInv(sys: System, serviceId: int, kvs: seq<(string, string)>, author: string)
    requires Inv(sys)
    ensures Inv(AfterUpserts(sys, serviceId, kvs, author))
    ensures sys.db.versions <= UpsertedAll(sys.db, serviceId, kvs, author).versions
  {
    if kvs == [] {
      assert NewRows(sys.db, sys.db) == [];
      assert AfterUpserts(sys, serviceId, kvs, author) == sys;
    } else {
      var rest := kvs[..|kvs| - 1];
      UpsertsKeepInv(sys, serviceId, rest, author);
      var mid := AfterUpserts(sys, serviceId, rest, author);
      var (key, value) := kvs[|kvs| - 1];
      var row := UpsertExtends(mid.db, Slot(serviceId, key), value, author);
      var db := UpsertedAll(sys.db, serviceId, kvs, author);
      RowKeepsInv(mid, row, db);
      NewRowsAppend(sys.db, mid.db, db, row);
      assert AfterUpserts(sys, serviceId, kvs, author) == WithRow(mid, row, db);
    }
  }

  lemma CommitKeepsInv(sys: System, op: Op)
    requires Inv(sys)
    ensures Inv(Committed(sys, op))
  {
    var db := Transact(sys.db, op);
    TransactConsistent(sys.db, op);
    if op.Bulk? {
      UpsertsKeepInv(sys, op.serviceId, op.kvs, op.author);
      assert Committed(sys, op) == AfterUpserts(sys, op.serviceId, op.kvs, op.author);
    } else if Refusal(sys.db, op).Some? {
      assert NewRows(sys.db, db) == [];
      assert Committed(sys, op) == sys;
    } else {
      var row := db.versions[|sys.db.versions|];
      assert NewRows(sys.db, db) == [row];
      assert EventsOf([row]) == [EventOf(row)];
      assert Extends(sys.db, row, db);
      RowKeepsInv(sys, row, db);
      assert Committed(sys, op) == WithRow(sys, row, db);
    }
  }

  // ---------- Moving and losing events ----------

  /** Only the versions in flight per slot matter, not where they are. */
  lemma SameVersionsKeepConn(db: Tables, cl: Client, conn: Conn, conn': Conn, before: seq<Event>, after: seq<Event>)
    requires ConnInv(db, cl.serviceId, Feed(cl), conn, before)
    requires conn' == conn.(ch := conn'.ch)
    requires |conn'.ch| <= CAPACITY && AllFaithful(db, conn'.ch)
    requires forall e :: e in conn'.ch ==> e.serviceId == cl.serviceId
    requires forall key :: Versions(after, Slot(cl.serviceId, key)) == Versions(before, Slot(cl.serviceId, key))
    ensures ConnInv(db, cl.serviceId, Feed(cl), conn', after)
  {
    forall key ensures KeyInv(db, cl.serviceId, Feed(cl), conn', after, key) {
      assert KeyInv(db, cl.serviceId, Feed(cl), conn, before, key);
    }
  }

  lemma VersionsSplit(a: seq<Event>, e: Event, b: seq<Event>, slot: Slot)
    ensures Versions(a + [e] + b, slot)
         == Versions(a, slot) + (if OfSlot(e, slot) then [e.version] else []) + Versions(b, slot)
    ensures Versions(a + b, slot) == Versions(a, slot) + Versions(b, slot)
  {
    VersionsConcat(a + [e], b, slot);
    VersionsConcat(a, [e], slot);
    VersionsConcat(a, b, slot);
    VersionsOne(e, slot);
  }

  lemma AscendingDrop(a: seq<nat>, v: nat, b: seq<nat>)
    requires Ascending(a + [v] + b)
    ensures Ascending(a + b)
    ensures v !in a + b
  {
    var s, t := a + [v] + b, a + b;
    forall i, j | 0 <= i < j < |t| ensures t[i] < t[j] {
      var i', j' := if i < |a| then i else i + 1, if j < |a| then j else j + 1;
      assert s[i'] == t[i] && s[j'] == t[j];
    }
    forall i | 0 <= i < |t| ensures t[i] != v {
      var i' := if i < |a| then i else i + 1;
      assert s[i'] == t[i] && s[|a|] == v;
    }
  }

  lemma AscendingPop(vs: seq<nat>, head: seq<nat>, vs': seq<nat>)
    requires Ascending(vs) && vs == head + vs'
    ensures Ascending(vs')
    ensures forall v :: v in vs' ==> v in vs
    ensures vs' != [] ==> vs[|vs| - 1] == vs'[|vs'| - 1]
  {
    assert forall i :: 0 <= i < |vs'| ==> vs'[i] == vs[i + |head|];
  }

  /** Losing one event in flight, and recording it as lost, keeps the invariant. */
  lemma LossKeepsConn(db: Tables, cl: Client, conn: Conn, a: seq<Event>, e: Event, b: seq<Event>)
    requires ConnInv(db, cl.serviceId, Feed(cl), conn, a + [e] + b) && Faithful(db, e)
    ensures ConnInv(db, cl.serviceId, Feed(cl), conn.(lost := conn.lost + LostTo([e], cl.serviceId)), a + b)
  {
    var conn' := conn.(lost := conn.lost + LostTo([e], cl.serviceId));
    assert LostTo([e], cl.serviceId) == if Concerns(e, cl.serviceId) then {(e.key, e.version)} else {};
    forall key ensures KeyInv(db, cl.serviceId, Feed(cl), conn', a + b, key) {
      var slot := Slot(cl.serviceId, key);
      assert KeyInv(db, cl.serviceId, Feed(cl), conn, a + [e] + b, key);
      VersionsSplit(a, e, b, slot);
      var va, vb := Versions(a, slot), Versions(b, slot);
      if OfSlot(e, slot) {
        AscendingDrop(va, e.version, vb);
        var vs := va + [e.version] + vb;
        assert vs[|vs| - 1] == if vb == [] then e.version else vb[|vb| - 1];
        forall x | x in conn'.lost && x.0 == key
          ensures 1 <= x.1 <= Latest(db, slot) && x.1 !in va + vb
        {
          if x in conn.lost {
            assert x.1 !in vs;
          }
        }
      } else {
        assert va + [] + vb == va + vb;
      }
    }
  }

  lemma LossKeepsReplica(db: Tables, r: Replica, queue': seq<Event>, u: seq<Event>, u': seq<Event>,
                         a: seq<Event>, e: Event, b: seq<Event>)
    requires ReplicaInv(db, r, u)
    requires r.queue + u == a + [e] + b && queue' + u' == a + b
    requires AllFaithful(db, queue')
    ensures ReplicaInv(db, r.(queue := queue', lost := r.lost + LostSlots([e])), u')
  {
    var r' := r.(queue := queue', lost := r.lost + LostSlots([e]));
    assert LostSlots([e]) == if e.kind == Var then {(Slot(e.serviceId, e.key), e.version)} else {};
    forall slot ensures ReplicaSlot(db, r', u', slot) {
      assert ReplicaSlot(db, r, u, slot);
      VersionsSplit(a, e, b, slot);
      var va, vb := Versions(a, slot), Versions(b, slot);
      if OfSlot(e, slot) {
        AscendingDrop(va, e.version, vb);
        var vs := va + [e.version] + vb;
        assert vs[|vs| - 1] == if vb == [] then e.version else vb[|vb| - 1];
      } else {
        assert va + [] + vb == va + vb;
      }
    }
  }

  // ---------- Publish ----------

  lemma {:induction false} NoneBefore(u: seq<Event>, i: nat, n: nat, slot: Slot)
    requires i < |u| && n <= i && FirstOfItsKey(u, i) && OfSlot(u[i], slot)
    ensures Versions(u[..n], slot) == []
  {
    if n > 0 {
      NoneBefore(u, i, n - 1, slot);
      assert u[..n][..n - 1] == u[..n - 1];
    }
  }

  /** Publishing the first event of its key leaves the versions in flight of every key alone. */
  lemma PublishKeepsVersions(ch: seq<Event>, q: seq<Event>, u: seq<Event>, i: nat, slot: Slot)
    requires i < |u| && FirstOfItsKey(u, i)
    ensures Versions(ch + ((q + [u[i]]) + Without(u, i)), slot) == Versions(ch + (q + u), slot)
  {
    assert ch + ((q + [u[i]]) + Without(u, i)) == (ch + q) + ([u[i]] + Without(u, i));
    assert ch + (q + u) == (ch + q) + u;
    VersionsConcat(ch + q, [u[i]] + Without(u, i), slot);
    VersionsConcat(ch + q, u, slot);
    MoveToFront(u, i, slot);
  }

  lemma MoveToFront(u: seq<Event>, i: nat, slot: Slot)
    requires i < |u| && FirstOfItsKey(u, i)
    ensures Versions([u[i]] + Without(u, i), slot) == Versions(u, slot)
  {
    var a, e, b := u[..i], u[i], u[i + 1..];
    assert u == a + [e] + b;
    VersionsSplit(a, e, b, slot);
    assert [e] + (a + b) == [] + [e] + (a + b);
    VersionsSplit([], e, a + b, slot);
    if OfSlot(e, slot) {
      NoneBefore(u, i, i, slot);
    }
  }

  lemma HearsKeepsReplica(db: Tables, r: Replica, u: seq<Event>, i: nat)
    requires ReplicaInv(db, r, u) && AllFaithful(db, u)
    requires i < |u| && FirstOfItsKey(u, i)
    ensures ReplicaInv(db, Hears(r, u[i]), Without(u, i))
  {
    if r.listening {
      forall slot ensures ReplicaSlot(db, Hears(r, u[i]), Without(u, i), slot) {
        assert ReplicaSlot(db, r, u, slot);
        PublishKeepsVersions([], r.queue, u, i, slot);
        assert [] + ((r.queue + [u[i]]) + Without(u, i)) == (r.queue + [u[i]]) + Without(u, i);
        assert [] + (r.queue + u) == r.queue + u;
      }
    } else {
      UnpublishedLossKeepsReplica(db, r, u, i);
    }
  }

  lemma UnpublishedLossKeepsReplica(db: Tables, r: Replica, u: seq<Event>, i: nat)
    requires ReplicaInv(db, r, u) && i < |u|
    ensures ReplicaInv(db, r.(lost := r.lost + LostSlots([u[i]])), Without(u, i))
  {
    assert r.queue + u == (r.queue + u[..i]) + [u[i]] + u[i + 1..];
    assert r.queue + Without(u, i) == (r.queue + u[..i]) + u[i + 1..];
    LossKeepsReplica(db, r, r.queue, u, Without(u, i), r.queue + u[..i], u[i], u[i + 1..]);
  }

  lemma UnpublishedLossKeepsConn(db: Tables, cl: Client, conn: Conn, q: seq<Event>, u: seq<Event>, i: nat)
    requires ConnInv(db, cl.serviceId, Feed(cl), conn, conn.ch + (q + u)) && AllFaithful(db, u) && i < |u|
    ensures ConnInv(db, cl.serviceId, Feed(cl), conn.(lost := conn.lost + LostTo([u[i]], cl.serviceId)),
                    conn.ch + (q + Without(u, i)))
  {
    var a, b := conn.ch + (q + u[..i]), u[i + 1..];
    assert conn.ch + (q + u) == a + [u[i]] + b;
    assert conn.ch + (q + Without(u, i)) == a + b;
    LossKeepsConn(db, cl, conn, a, u[i], b);
  }

  lemma PublishKeepsInv(sys: System, i: nat)
    requires Inv(sys) && i < |sys.unpublished| && FirstOfItsKey(sys.unpublished, i)
    ensures Inv(Published(sys, i))
  {
    var sys' := Published(sys, i);
    var u := sys.unpublished;
    forall r | r in sys'.replicas ensures ReplicaInv(sys'.db, sys'.replicas[r], sys'.unpublished) {
      HearsKeepsReplica(sys.db, sys.replicas[r], u, i);
    }
    forall c | c in sys'.clients ensures ClientInv(sys', sys'.clients[c]) {
      var cl := sys.clients[c];
      assert ClientInv(sys, cl);
      if cl.conn.Some? {
        var conn := cl.conn.value;
        var q := sys.replicas[conn.replica].queue;
        if Deaf(sys, cl) {
          UnpublishedLossKeepsConn(sys.db, cl, conn, q, u, i);
        } else {
          forall key
            ensures Versions(Inflight(sys', cl), Slot(cl.serviceId, key))
                 == Versions(Inflight(sys, cl), Slot(cl.serviceId, key))
          {
            PublishKeepsVersions(conn.ch, q, u, i, Slot(cl.serviceId, key));
          }
          SameVersionsKeepConn(sys.db, cl, conn, conn, Inflight(sys, cl), Inflight(sys', cl));
        }
      }
    }
  }

  lemma PublishFailsKeepsInv(sys: System, i: nat)
    requires Inv(sys) && i < |sys.unpublished|
    ensures Inv(FailedToPublish(sys, i))
  {
    var sys' := FailedToPublish(sys, i);
    forall r | r in sys'.replicas ensures ReplicaInv(sys'.db, sys'.replicas[r], sys'.unpublished) {
      UnpublishedLossKeepsReplica(sys.db, sys.replicas[r], sys.unpublished, i);
    }
    forall c | c in sys'.clients ensures ClientInv(sys', sys'.clients[c]) {
      var cl := sys.clients[c];
      assert ClientInv(sys, cl);
      if cl.conn.Some? {
        var q := sys.replicas[cl.conn.value.replica].queue;
        UnpublishedLossKeepsConn(sys.db, cl, cl.conn.value, q, sys.unpublished, i);
      }
    }
  }

  lemma ConnsKeepsInv(sys: System, serviceId: int)
    requires Inv(sys)
    ensures Inv(Do(sys, PublishConns(serviceId)))
  {
    var e := ConnsEvent(serviceId);
    var sys' := Do(sys, PublishConns(serviceId));
    assert LostSlots([e]) == {};
    forall q: seq<Event>, u: seq<Event>, slot
      ensures Versions((q + [e]) + u, slot) == Versions(q + u, slot)
    {
      VersionsSplit(q, e, u, slot);
    }
    forall r | r in sys'.replicas ensures ReplicaInv(sys'.db, sys'.replicas[r], sys'.unpublished) {
      assert ReplicaInv(sys.db, sys.replicas[r], sys.unpublished);
      forall slot ensures ReplicaSlot(sys'.db, sys'.replicas[r], sys'.unpublished, slot) {
        assert ReplicaSlot(sys.db, sys.replicas[r], sys.unpublished, slot);
      }
    }
    forall c | c in sys'.clients ensures ClientInv(sys', sys'.clients[c]) {
      var cl := sys.clients[c];
      assert ClientInv(sys, cl);
      if cl.conn.Some? {
        var q := sys.replicas[cl.conn.value.replica].queue;
        forall key
          ensures Versions(Inflight(sys', cl), Slot(cl.serviceId, key))
               == Versions(Inflight(sys, cl), Slot(cl.serviceId, key))
        {
          var q' := sys'.replicas[cl.conn.value.replica].queue;
          VersionsConcat(cl.conn.value.ch, q' + sys.unpublished, Slot(cl.serviceId, key));
          VersionsConcat(cl.conn.value.ch, q + sys.unpublished, Slot(cl.serviceId, key));
        }
        SameVersionsKeepConn(sys.db, cl, cl.conn.value, cl.conn.value, Inflight(sys, cl), Inflight(sys', cl));
      }
    }
  }

  // ---------- Replica steps ----------

  /** Losing a whole notification queue. */
  lemma {:induction false} QueueLossKeepsConn(db: Tables, cl: Client, conn: Conn, q: seq<Event>, u: seq<Event>)
    requires ConnInv(db, cl.serviceId, Feed(cl), conn, conn.ch + (q + u)) && AllFaithful(db, q)
    ensures ConnInv(db, cl.serviceId, Feed(cl), conn.(lost := conn.lost + LostTo(q, cl.serviceId)), conn.ch + ([] + u))
    decreases |q|
  {
    if q == [] {
      assert conn.lost + LostTo(q, cl.serviceId) == conn.lost;
    } else {
      var mid := conn.(lost := conn.lost + LostTo([q[0]], cl.serviceId));
      assert conn.ch + (q + u) == conn.ch + [q[0]] + (q[1..] + u);
      LossKeepsConn(db, cl, conn, conn.ch, q[0], q[1..] + u);
      QueueLossKeepsConn(db, cl, mid, q[1..], u);
      assert forall e :: e in q <==> e == q[0] || e in q[1..];
      assert LostTo(q, cl.serviceId) == LostTo([q[0]], cl.serviceId) + LostTo(q[1..], cl.serviceId);
      assert mid.lost + LostTo(q[1..], cl.serviceId) == conn.lost + LostTo(q, cl.serviceId);
    }
  }

  lemma {:induction false} QueueLossKeepsReplica(db: Tables, r: Replica, u: seq<Event>)
    requires ReplicaInv(db, r, u)
    ensures ReplicaInv(db, Replica(false, [], r.lost + LostSlots(r.queue)), u)
    decreases |r.queue|
  {
    var q := r.queue;
    if q == [] {
      assert r.lost + LostSlots(q) == r.lost;
      forall slot ensures ReplicaSlot(db, Replica(false, [], r.lost), u, slot) {
        assert ReplicaSlot(db, r, u, slot);
      }
    } else {
      var mid := r.(queue := q[1..], lost := r.lost + LostSlots([q[0]]));
      assert q + u == [] + [q[0]] + (q[1..] + u) && q[1..] + u == [] + (q[1..] + u);
      LossKeepsReplica(db, r, q[1..], u, u, [], q[0], q[1..] + u);
      QueueLossKeepsReplica(db, mid, u);
      assert forall e :: e in q <==> e == q[0] || e in q[1..];
      assert mid.lost + LostSlots(q[1..]) == r.lost + LostSlots(q);
    }
  }

  lemma ListenDownKeepsInv(sys: System, r: int)
    requires Inv(sys) && r in sys.replicas
    ensures Inv(Unheard(sys, r))
  {
    var sys' := Unheard(sys, r);
    var q := sys.replicas[r].queue;
    assert ReplicaInv(sys.db, sys.replicas[r], sys.unpublished);
    QueueLossKeepsReplica(sys.db, sys.replicas[r], sys.unpublished);
    forall c | c in sys'.clients ensures ClientInv(sys', sys'.clients[c]) {
      var cl := sys.clients[c];
      assert ClientInv(sys, cl);
      if OnReplica(cl, r) {
        QueueLossKeepsConn(sys.db, cl, cl.conn.value, q, sys.unpublished);
      } else if cl.conn.Some? {
        assert Inflight(sys', cl) == Inflight(sys, cl);
      }
    }
  }

  lemma VersionsHead(e: Event, b: seq<Event>, slot: Slot)
    ensures Versions([e] + b, slot) == (if OfSlot(e, slot) then [e.version] else []) + Versions(b, slot)
  {
    VersionsConcat([e], b, slot);
    VersionsOne(e, slot);
  }

  /** Taking the head off the queue: dispatched events are older than what stays in flight. */
  lemma PopKeepsReplica(db: Tables, r: Replica, u: seq<Event>)
    requires ReplicaInv(db, r, u) && r.queue != []
    ensures ReplicaInv(db, r.(queue := r.queue[1..]), u)
  {
    var e, q' := r.queue[0], r.queue[1..];
    assert r.queue + u == [e] + (q' + u);
    forall slot ensures ReplicaSlot(db, r.(queue := q'), u, slot) {
      assert ReplicaSlot(db, r, u, slot);
      VersionsHead(e, q' + u, slot);
      AscendingPop(Versions(r.queue + u, slot), if OfSlot(e, slot) then [e.version] else [], Versions(q' + u, slot));
    }
  }

  lemma OfferKeepsConn(db: Tables, cl: Client, conn: Conn, e: Event, q: seq<Event>, u: seq<Event>)
    requires cl.conn == Some(conn) && cl.serviceId > 0
    requires ConnInv(db, cl.serviceId, Feed(cl), conn, conn.ch + (([e] + q) + u)) && Faithful(db, e)
    ensures var cl' := OfferedTo(cl, conn.replica, e);
      && cl' == cl.(conn := Some(cl'.conn.value)) && cl'.conn.value.replica == conn.replica
      && ConnInv(db, cl'.serviceId, Feed(cl'), cl'.conn.value, cl'.conn.value.ch + (q + u))
  {
    var cl' := OfferedTo(cl, conn.replica, e);
    var conn' := cl'.conn.value;
    assert conn.ch + (([e] + q) + u) == conn.ch + [e] + (q + u);
    if !Wants(cl.serviceId, e) || |conn.ch| >= CAPACITY {
      LossKeepsConn(db, cl, conn, conn.ch, e, q + u);
      assert !Wants(cl.serviceId, e) ==> conn.lost + LostTo([e], cl.serviceId) == conn.lost;
      forall key ensures KeyInv(db, cl'.serviceId, Feed(cl'), conn', conn'.ch + (q + u), key) {
        assert KeyInv(db, cl.serviceId, Feed(cl), conn', conn'.ch + (q + u), key);
      }
    } else {
      assert conn'.ch + (q + u) == conn.ch + [e] + (q + u);
      SameVersionsKeepConn(db, cl, conn, conn', conn.ch + [e] + (q + u), conn'.ch + (q + u));
      forall key ensures KeyInv(db, cl'.serviceId, Feed(cl'), conn', conn'.ch + (q + u), key) {
        assert KeyInv(db, cl.serviceId, Feed(cl), conn', conn'.ch + (q + u), key);
      }
    }
  }

  lemma DispatchKeepsInv(sys: System, r: int)
    requires Inv(sys) && r in sys.replicas && sys.replicas[r].queue != []
    ensures Inv(Dispatched(sys, r))
  {
    var sys' := Dispatched(sys, r);
    var e, q' := sys.replicas[r].queue[0], sys.replicas[r].queue[1..];
    assert ReplicaInv(sys.db, sys.replicas[r], sys.unpublished);
    PopKeepsReplica(sys.db, sys.replicas[r], sys.unpublished);
    forall c | c in sys'.clients ensures ClientInv(sys', sys'.clients[c]) {
      var cl := sys.clients[c];
      assert ClientInv(sys, cl);
      if OnReplica(cl, r) {
        assert sys.replicas[r].queue == [e] + q';
        OfferKeepsConn(sys.db, cl, cl.conn.value, e, q', sys.unpublished);
      } else if cl.conn.Some? {
        assert Inflight(sys', cl) == Inflight(sys, cl);
      }
    }
  }

  // ---------- Stream steps ----------

  /** A step of one client's stream leaves everything else alone. */
  lemma StreamKeepsInv(sys: System, c: int, cl': Client)
    requires Inv(sys) && c in sys.clients
    requires ClientInv(sys, cl')
    ensures Inv(sys.(clients := sys.clients[c := cl']))
  {
    var sys' := sys.(clients := sys.clients[c := cl']);
    forall d | d in sys'.clients ensures ClientInv(sys', sys'.clients[d]) {
      var cl := sys'.clients[d];
      assert ClientInv(sys, cl);
      if cl.conn.Some? {
        assert Inflight(sys', cl) == Inflight(sys, cl);
      }
    }
  }

  lemma AscendingEndsHighest(vs: seq<nat>, n: nat)
    requires Ascending(vs) && (forall v :: v in vs ==> v <= n)
    ensures n in vs ==> vs[|vs| - 1] == n
  {
    if n in vs {
      var i :| 0 <= i < |vs| && vs[i] == n;
      assert vs[|vs| - 1] in vs;
    }
  }

  lemma SubscribeEstablishes(sys: System, cl: Client, r: int)
    requires Inv(sys) && ClientInv(sys, cl) && cl.conn.None? && r in sys.replicas
    ensures ClientInv(sys, SubscribedTo(sys, cl, r))
  {
    var cl' := SubscribedTo(sys, cl, r);
    var conn := cl'.conn.value;
    var inflight := sys.replicas[r].queue + sys.unpublished;
    assert Inflight(sys, cl') == inflight && Feed(cl') == Feed(cl);
    assert ReplicaInv(sys.db, sys.replicas[r], sys.unpublished);
    forall key ensures KeyInv(sys.db, cl'.serviceId, Feed(cl'), conn, inflight, key) {
      var slot := Slot(cl.serviceId, key);
      var n, vs := Latest(sys.db, slot), Versions(inflight, slot);
      assert ReplicaSlot(sys.db, sys.replicas[r], sys.unpublished, slot);
      VersionsBounded(sys.db, inflight, slot);
      AscendingEndsHighest(vs, n);
      if vs != [] && vs[|vs| - 1] != n {
        VersionsMember(inflight, slot, vs[|vs| - 1]);
        assert (key, n) in conn.lost;
      }
      forall x | x in conn.lost && x.0 == key ensures 1 <= x.1 <= n && x.1 !in vs {
        var e :| e in inflight && Concerns(e, cl.serviceId) && (e.key, Latest(sys.db, Slot(cl.serviceId, e.key))) == x
              && Latest(sys.db, Slot(cl.serviceId, e.key)) !in Versions(inflight, Slot(cl.serviceId, e.key));
        assert Faithful(sys.db, e);
      }
    }
  }

  /** One more message on the wire. */
  lemma FeedsExtend(db: Tables, serviceId: int, n: nat, feed: seq<Msg>, msg: Msg)
    requires n <= |feed| && FeedsOk(db, serviceId, n, feed)
    requires FeedOk(db, serviceId, feed + [msg]) && NoOlder(Guarded(feed), Guarded(feed + [msg]))
    ensures FeedsOk(db, serviceId, n, feed + [msg])
  {
    assert (feed + [msg])[..|feed|] == feed;
  }

  /** A snapshot lists no key under a version older than one the client was ever sent. */
  lemma SnapshotFeeds(db: Tables, serviceId: int, n: nat, feed: seq<Msg>, vars: seq<PbVariable>)
    requires Consistent(db) && IsListing(db, serviceId, vars)
    requires n <= |feed| && FeedsOk(db, serviceId, n, feed)
    ensures FeedsOk(db, serviceId, n, feed + [Snapshot(vars)])
  {
    HeldNext(feed, Snapshot(vars));
    forall key ensures Ahead(db, Slot(serviceId, key), Lookup(Listed(vars), key), Lookup(Listed(vars), key)) {
      ListingIsUpToDate(db, serviceId, vars, key);
    }
    forall key | key in Guarded(feed) && key in Listed(vars)
      ensures Guarded(feed)[key].version <= Listed(vars)[key].version
    {
      ListingIsUpToDate(db, serviceId, vars, key);
      assert Ahead(db, Slot(serviceId, key), Lookup(Held(feed), key), Lookup(Guarded(feed), key));
    }
    FeedsExtend(db, serviceId, n, feed, Snapshot(vars));
  }

  lemma SnapshotKeepsClient(sys: System, cl: Client, vars: seq<PbVariable>)
    requires Inv(sys) && ClientInv(sys, cl) && cl.conn.Some?
    requires !cl.conn.value.snapped && IsListing(sys.db, cl.serviceId, vars)
    ensures ClientInv(sys, Snapped(sys, cl, vars))
  {
    var cl', inflight := Snapped(sys, cl, vars), Inflight(sys, cl);
    assert Inflight(sys, cl') == inflight;
    assert Feed(cl') == Feed(cl) + [Snapshot(vars)];
    SnapshotFeeds(sys.db, cl.serviceId, |cl.got|, Feed(cl), vars);
    HeldNext(Feed(cl), Snapshot(vars));
    InflightFaithful(sys, cl);
    forall key ensures KeyInv(sys.db, cl.serviceId, Feed(cl'), cl'.conn.value, inflight, key) {
      assert KeyInv(sys.db, cl.serviceId, Feed(cl), cl.conn.value, inflight, key);
      ListingIsUpToDate(sys.db, cl.serviceId, vars, key);
      OvertakenAt(sys.db, inflight, Slot(cl.serviceId, key));
    }
  }

  lemma InflightFaithful(sys: System, cl: Client)
    requires Inv(sys) && ClientInv(sys, cl) && cl.conn.Some?
    ensures AllFaithful(sys.db, Inflight(sys, cl))
  {
    assert ReplicaInv(sys.db, sys.replicas[cl.conn.value.replica], sys.unpublished);
  }

  /** A key is overtaken exactly when something of it is in flight, but not its latest version. */
  lemma OvertakenAt(db: Tables, inflight: seq<Event>, slot: Slot)
    requires AllFaithful(db, inflight) && Ascending(Versions(inflight, slot))
    ensures var vs, n := Versions(inflight, slot), Latest(db, slot);
      && ((slot.key, n) in Overtaken(db, inflight, slot.serviceId) <==> vs != [] && vs[|vs| - 1] != n)
      && (forall x :: x in Overtaken(db, inflight, slot.serviceId) && x.0 == slot.key ==> x.1 == n >= 1 && n !in vs)
  {
    var vs, n := Versions(inflight, slot), Latest(db, slot);
    VersionsBounded(db, inflight, slot);
    AscendingEndsHighest(vs, n);
    if vs != [] {
      VersionsMember(inflight, slot, vs[|vs| - 1]);
    }
    forall x | x in Overtaken(db, inflight, slot.serviceId) && x.0 == slot.key
      ensures x.1 == n >= 1 && n !in vs && vs != []
    {
      var e :| e in inflight && Concerns(e, slot.serviceId) && e.key == slot.key;
      assert Faithful(db, e);
      VersionsMember(inflight, slot, e.version);
    }
  }

  /** The latest version of a slot is what the store shows. */
  lemma LatestShown(t: Tables, slot: Slot)
    requires Consistent(t)
    ensures Latest(t, slot) > 0 ==> EffectAt(t, slot, Latest(t, slot)) == Shown(t, slot)
    ensures Latest(t, slot) == 0 ==> Shown(t, slot) == None
  {
    assert SlotConsistent(t, slot);
  }

  /** Sending the nearest event moves it from the versions in flight into what the client was sent. */
  lemma SendKeepsKey(db: Tables, serviceId: int, feed: seq<Msg>, feed': seq<Msg>, conn: Conn, conn': Conn,
                     e: Event, rest: seq<Event>, key: string)
    requires Consistent(db) && Faithful(db, e) && e.serviceId == serviceId
    requires KeyInv(db, serviceId, feed, conn, [e] + rest, key)
    requires conn'.snapped == conn.snapped && conn'.lost == conn.lost
    requires Held(feed') == if e.kind == Var then Hold(Held(feed), ChangeMsg(e)) else Held(feed)
    ensures KeyInv(db, serviceId, feed', conn', rest, key)
  {
    var slot := Slot(serviceId, key);
    VersionsHead(e, rest, slot);
    if OfSlot(e, slot) {
      SendPopsVersion(db, e, rest, slot);
      LatestShown(db, slot);
    } else {
      assert Versions([e] + rest, slot) == Versions(rest, slot);
      assert Lookup(Held(feed'), key) == Lookup(Held(feed), key);
    }
  }

  lemma SendPopsVersion(db: Tables, e: Event, rest: seq<Event>, slot: Slot)
    requires OfSlot(e, slot) && Ascending(Versions([e] + rest, slot))
    ensures var vs, vs' := Versions([e] + rest, slot), Versions(rest, slot);
      && vs == [e.version] + vs' && Ascending(vs')
      && (forall v :: v in vs' ==> v in vs)
      && (vs' != [] ==> vs[|vs| - 1] == vs'[|vs'| - 1])
  {
    VersionsHead(e, rest, slot);
    AscendingPop(Versions([e] + rest, slot), [e.version], Versions(rest, slot));
  }

  lemma SendFeeds(db: Tables, serviceId: int, n: nat, feed: seq<Msg>, e: Event)
    requires e.kind == Var && Faithful(db, e) && e.serviceId == serviceId
    requires n <= |feed| && FeedsOk(db, serviceId, n, feed)
    ensures FeedsOk(db, serviceId, n, feed + [ChangeMsg(e)])
    ensures Held(feed + [ChangeMsg(e)]) == Hold(Held(feed), ChangeMsg(e))
  {
    HeldNext(feed, ChangeMsg(e));
    forall key
      ensures Ahead(db, Slot(serviceId, key), Lookup(Hold(Held(feed), ChangeMsg(e)), key),
                    Lookup(Guard(Guarded(feed), ChangeMsg(e)), key))
      ensures NoOlder(Guarded(feed), Guard(Guarded(feed), ChangeMsg(e)))
    {
      assert Ahead(db, Slot(serviceId, key), Lookup(Held(feed), key), Lookup(Guarded(feed), key));
      ChangeKeepsAhead(db, Held(feed), Guarded(feed), e, key);
    }
    FeedsExtend(db, serviceId, n, feed, ChangeMsg(e));
  }

  lemma SendKeepsClient(sys: System, cl: Client)
    requires Inv(sys) && ClientInv(sys, cl)
    requires cl.conn.Some? && cl.conn.value.snapped && cl.conn.value.ch != []
    ensures ClientInv(sys, Sent(cl))
  {
    var cl', conn := Sent(cl), cl.conn.value;
    var e, rest := conn.ch[0], Inflight(sys, cl');
    assert Inflight(sys, cl) == [e] + rest;
    assert e in conn.ch;
    if e.kind == Var {
      assert Feed(cl') == Feed(cl) + [ChangeMsg(e)];
      SendFeeds(sys.db, cl.serviceId, |cl.got|, Feed(cl), e);
    } else {
      assert Feed(cl') == Feed(cl);
    }
    forall key ensures KeyInv(sys.db, cl'.serviceId, Feed(cl'), cl'.conn.value, rest, key) {
      SendKeepsKey(sys.db, cl.serviceId, Feed(cl), Feed(cl'), conn, cl'.conn.value, e, rest, key);
    }
  }

  lemma ReceiveKeepsClient(sys: System, cl: Client)
    requires ClientInv(sys, cl) && cl.conn.Some? && cl.conn.value.wire != []
    ensures ClientInv(sys, Received(cl))
  {
    var cl', conn := Received(cl), cl.conn.value;
    assert Inflight(sys, cl') == Inflight(sys, cl);
    assert Feed(cl') == Feed(cl);
    FeedsPrefix(sys.db, cl.serviceId, |cl.got|, Feed(cl), |cl.got| + 1);
    assert cl'.got[..|cl.got|] == cl.got;
    forall key ensures KeyInv(sys.db, cl'.serviceId, Feed(cl'), cl'.conn.value, Inflight(sys, cl'), key) {
      assert KeyInv(sys.db, cl.serviceId, Feed(cl), conn, Inflight(sys, cl), key);
    }
  }

  lemma DisconnectKeepsClient(sys: System, cl: Client)
    requires ClientInv(sys, cl)
    ensures ClientInv(sys, cl.(conn := None))
  {
    FeedsPrefix(sys.db, cl.serviceId, |cl.got|, Feed(cl), |cl.got|);
    assert Feed(cl)[..|cl.got|] == cl.got;
    assert Feed(cl.(conn := None)) == cl.got;
  }

  // ---------- Runs ----------

  lemma DoKeepsInv(sys: System, step: Step)
    requires Inv(sys)
    ensures Inv(Do(sys, step))
  {
    if Enabled(sys, step) {
      match step
      case Commit(op) => CommitKeepsInv(sys, op);
      case Publish(i) => PublishKeepsInv(sys, i);
      case PublishFails(i) => PublishFailsKeepsInv(sys, i);
      case PublishConns(serviceId) => ConnsKeepsInv(sys, serviceId);
      case ListenUp(r) => ListenUpKeepsInv(sys, r);
      case ListenDown(r) => ListenDownKeepsInv(sys, r);
      case Dispatch(r) => DispatchKeepsInv(sys, r);
      case Subscribe(c, r) =>
        assert ClientInv(sys, sys.clients[c]);
        SubscribeEstablishes(sys, sys.clients[c], r);
        StreamKeepsInv(sys, c, SubscribedTo(sys, sys.clients[c], r));
      case ReadSnapshot(c, vars) =>
        SnapshotKeepsClient(sys, sys.clients[c], vars);
        StreamKeepsInv(sys, c, Snapped(sys, sys.clients[c], vars));
      case Send(c) =>
        SendKeepsClient(sys, sys.clients[c]);
        StreamKeepsInv(sys, c, Sent(sys.clients[c]));
      case Receive(c) =>
        ReceiveKeepsClient(sys, sys.clients[c]);
        StreamKeepsInv(sys, c, Received(sys.clients[c]));
      case Disconnect(c) =>
        DisconnectKeepsClient(sys, sys.clients[c]);
        StreamKeepsInv(sys, c, sys.clients[c].(conn := None));
    }
  }

  lemma ListenUpKeepsInv(sys: System, r: int)
    requires Inv(sys) && r in sys.replicas
    ensures Inv(Do(sys, ListenUp(r)))
  {
    var sys' := Do(sys, ListenUp(r));
    forall s | s in sys'.replicas ensures ReplicaInv(sys'.db, sys'.replicas[s], sys'.unpublished) {
      assert ReplicaInv(sys.db, sys.replicas[s], sys.unpublished);
      forall slot ensures ReplicaSlot(sys'.db, sys'.replicas[s], sys'.unpublished, slot) {
        assert ReplicaSlot(sys.db, sys.replicas[s], sys.unpublished, slot);
      }
    }
    forall c | c in sys'.clients ensures ClientInv(sys', sys'.clients[c]) {
      var cl := sys.clients[c];
      assert ClientInv(sys, cl);
      if cl.conn.Some? {
        assert Inflight(sys', cl) == Inflight(sys, cl);
      }
    }
  }

  lemma InitInv(sys: System)
    requires Init(sys)
    ensures Inv(sys)
  {
    forall r | r in sys.replicas ensures ReplicaInv(sys.db, sys.replicas[r], sys.unpublished) {
      forall slot ensures ReplicaSlot(sys.db, sys.replicas[r], sys.unpublished, slot) {
        assert sys.replicas[r].queue + sys.unpublished == [];
      }
    }
  }

  lemma {:induction false} ExecInv(sys: System, steps: seq<Step>)
    requires Init(sys)
    ensures Inv(Exec(sys, steps))
  {
    if steps == [] {
      InitInv(sys);
    } else {
      ExecInv(sys, steps[..|steps| - 1]);
      DoKeepsInv(Exec(sys, steps[..|steps| - 1]), steps[|steps| - 1]);
    }
  }
}
