/** Connection accounting: one row per open stream, kept alive by its replica's heartbeat and
    ignored once it is older than the TTL. Time is a logical clock in seconds. */
module Connections {
  import opened Common

  /** Seconds a row counts as live. */
  const TTL := 30

  datatype ConnKey = ConnKey(replica: string, conn: string)

  datatype Row = Row(serviceId: int, peer: string, connectedAt: int, updatedAt: int)

  type Rows = map<ConnKey, Row>

  datatype ConnectionClient = ConnectionClient(serviceId: int, key: ConnKey, peer: string, connectedAt: int)

  // ---------- Statements ----------

  predicate Fresh(row: Row, ttl: int, now: int) {
    row.updatedAt > now - ttl
  }

  /** The rows counted for a service. */
  function FreshKeys(rows: Rows, serviceId: int, ttl: int, now: int): set<ConnKey> {
    set k | k in rows && rows[k].serviceId == serviceId && Fresh(rows[k], ttl, now)
  }

  function Registered(rows: Rows, k: ConnKey, serviceId: int, peer: string, now: int): Rows {
    if k in rows then rows[k := rows[k].(updatedAt := now)] else rows[k := Row(serviceId, peer, now, now)]
  }

  function Touched(rows: Rows, replica: string, now: int): Rows {
    map k | k in rows :: if k.replica == replica then rows[k].(updatedAt := now) else rows[k]
  }

  function Purged(rows: Rows, ttl: int, now: int): Rows {
    map k | k in rows && !(rows[k].updatedAt < now - ttl) :: rows[k]
  }

  function Cleared(rows: Rows, replica: string): Rows {
    map k | k in rows && k.replica != replica :: rows[k]
  }

  /** The connection_clients table. */
  class ConnectionTable {
    var rows: Rows

    constructor ()
      ensures rows == map[]
    {
      rows := map[];
    }

    method Register(k: ConnKey, serviceId: int, peer: string, now: int)
      modifies this
      ensures rows.Keys == old(rows).Keys + {k} && rows[k].updatedAt == now
      ensures forall j :: j in old(rows) && j != k ==> rows[j] == old(rows)[j]
      ensures k in old(rows) ==>
        && rows[k].serviceId == old(rows)[k].serviceId && rows[k].peer == old(rows)[k].peer
        && rows[k].connectedAt == old(rows)[k].connectedAt
      ensures k !in old(rows) ==>
        rows[k].serviceId == serviceId && rows[k].peer == peer && rows[k].connectedAt == now
      ensures forall s, ttl: nat :: ttl > 0 ==>
        FreshKeys(rows, s, ttl, now) == FreshKeys(old(rows), s, ttl, now) + if rows[k].serviceId == s then {k} else {}
      ensures rows == Registered(old(rows), k, serviceId, peer, now)
    {
      if k in rows {
        rows := rows[k := rows[k].(updatedAt := now)];
      } else {
        rows := rows[k := Row(serviceId, peer, now, now)];
      }
    }

    method Unregister(k: ConnKey)
      modifies this
      ensures rows == old(rows) - {k}
      ensures forall s, ttl, now :: FreshKeys(rows, s, ttl, now) == FreshKeys(old(rows), s, ttl, now) - {k}
    {
      rows := rows - {k};
    }

    method Touch(replica: string, now: int)
      modifies this
      ensures rows == Touched(old(rows), replica, now)
      ensures rows.Keys == old(rows).Keys
      ensures forall k :: k in rows && k.replica != replica ==> rows[k] == old(rows)[k]
      ensures forall k :: k in rows && k.replica == replica ==>
        && rows[k].updatedAt == now && rows[k].serviceId == old(rows)[k].serviceId
        && rows[k].peer == old(rows)[k].peer && rows[k].connectedAt == old(rows)[k].connectedAt
    {
      rows := Touched(rows, replica, now);
    }

    method Purge(ttl: int, now: int)
      modifies this
      ensures rows == Purged(old(rows), ttl, now)
      ensures forall k :: k in rows <==> k in old(rows) && old(rows)[k].updatedAt >= now - ttl
      ensures forall k :: k in rows ==> rows[k] == old(rows)[k]
      ensures forall serviceId :: FreshKeys(rows, serviceId, ttl, now) == FreshKeys(old(rows), serviceId, ttl, now)
    {
      rows := Purged(rows, ttl, now);
    }

    method Clear(replica: string)
      modifies this
      ensures rows == Cleared(old(rows), replica)
      ensures forall k :: k in rows <==> k in old(rows) && k.replica != replica
    {
      rows := Cleared(rows, replica);
    }

    method ActiveConnections(serviceId: int, ttl: int, now: int) returns (n: nat)
      ensures n == |FreshKeys(rows, serviceId, ttl, now)|
    {
      n := 0;
      var remaining := rows.Keys;
      while remaining != {}
        invariant remaining <= rows.Keys && n == |Counted(rows, remaining, serviceId, ttl, now)|
        decreases remaining
      {
        var k :| k in remaining;
        CountOne(rows, remaining, k, ttl, now);
        if rows[k].serviceId == serviceId && Fresh(rows[k], ttl, now) {
          n := n + 1;
        }
        remaining := remaining - {k};
      }
      assert Counted(rows, {}, serviceId, ttl, now) == FreshKeys(rows, serviceId, ttl, now);
    }

    /** The grouped query: services without a fresh row do not appear, the others carry the count
        the single query gives. */
    method ActiveConnectionsAll(ttl: int, now: int) returns (out: map<int, nat>)
      ensures forall s :: s in out <==> FreshKeys(rows, s, ttl, now) != {}
      ensures forall s :: s in out ==> out[s] == |FreshKeys(rows, s, ttl, now)|
    {
      out := map[];
      var remaining := rows.Keys;
      while remaining != {}
        invariant remaining <= rows.Keys
        invariant forall s :: s in out <==> Counted(rows, remaining, s, ttl, now) != {}
        invariant forall s :: s in out ==> out[s] == |Counted(rows, remaining, s, ttl, now)|
        decreases remaining
      {
        var k :| k in remaining;
        CountOne(rows, remaining, k, ttl, now);
        if Fresh(rows[k], ttl, now) {
          var s := rows[k].serviceId;
          out := out[s := (if s in out then out[s] else 0) + 1];
        }
        remaining := remaining - {k};
      }
      forall s ensures Counted(rows, {}, s, ttl, now) == FreshKeys(rows, s, ttl, now) {}
    }

    /** The detail view lists exactly the rows the counts count, each once, ordered by replica and then
        by time of connection. `rank` is the database's collation of replica ids. */
    method ListConnectionClients(serviceId: int, ttl: int, now: int, rank: string -> int)
      returns (out: seq<ConnectionClient>)
      ensures Ordered(out, rank)
      ensures forall i, j :: 0 <= i < j < |out| ==>
        && rank(out[i].key.replica) <= rank(out[j].key.replica)
        && (rank(out[i].key.replica) == rank(out[j].key.replica) ==> out[i].connectedAt <= out[j].connectedAt)
      ensures Distinct(out) && |out| == |FreshKeys(rows, serviceId, ttl, now)|
      ensures forall c :: c in out <==>
        && c.key in FreshKeys(rows, serviceId, ttl, now) && c.serviceId == serviceId
        && c.peer == rows[c.key].peer && c.connectedAt == rows[c.key].connectedAt
    {
      out := [];
      var remaining := FreshKeys(rows, serviceId, ttl, now);
      while remaining != {}
        invariant remaining <= FreshKeys(rows, serviceId, ttl, now)
        invariant Ordered(out, rank)
        invariant Distinct(out) && |out| + |remaining| == |FreshKeys(rows, serviceId, ttl, now)|
        invariant forall c :: c in out <==>
          && c.key in FreshKeys(rows, serviceId, ttl, now) - remaining && c.serviceId == serviceId
          && c.peer == rows[c.key].peer && c.connectedAt == rows[c.key].connectedAt
        decreases remaining
      {
        var k :| k in remaining;
        out := Insert(out, ConnectionClient(serviceId, k, rows[k].peer, rows[k].connectedAt), rank);
        remaining := remaining - {k};
      }
    }
  }

  predicate NotAfter(a: ConnectionClient, b: ConnectionClient, rank: string -> int) {
    rank(a.key.replica) < rank(b.key.replica)
    || (rank(a.key.replica) == rank(b.key.replica) && a.connectedAt <= b.connectedAt)
  }

  predicate Ordered(out: seq<ConnectionClient>, rank: string -> int) {
    forall i, j :: 0 <= i < j < |out| ==> NotAfter(out[i], out[j], rank)
  }

  /** Inserts a row at its place. */
  method Insert(out: seq<ConnectionClient>, c: ConnectionClient, rank: string -> int) returns (r: seq<ConnectionClient>)
    requires Ordered(out, rank) && Distinct(out) && c !in out
    ensures Ordered(r, rank) && Distinct(r) && |r| == |out| + 1
    ensures forall x :: x in r <==> x in out || x == c
  {
    var i := |out|;
    while i > 0 && !NotAfter(out[i - 1], c, rank)
      invariant 0 <= i <= |out|
      invariant forall j :: i <= j < |out| ==> NotAfter(c, out[j], rank)
    {
      i := i - 1;
    }
    InsertedAt(out, i, c, rank);
    r := out[..i] + [c] + out[i..];
  }

  lemma InsertedAt(out: seq<ConnectionClient>, i: nat, c: ConnectionClient, rank: string -> int)
    requires i <= |out| && Ordered(out, rank) && Distinct(out) && c !in out
    requires i > 0 ==> NotAfter(out[i - 1], c, rank)
    requires forall j :: i <= j < |out| ==> NotAfter(c, out[j], rank)
    ensures var r := out[..i] + [c] + out[i..];
      Ordered(r, rank) && Distinct(r) && forall x :: x in r <==> x in out || x == c
  {
    var r := out[..i] + [c] + out[i..];
    forall j | 0 <= j < i ensures NotAfter(out[j], c, rank) {
      assert j < i - 1 ==> NotAfter(out[j], out[i - 1], rank);
    }
    forall j, k | 0 <= j < k < |r| ensures NotAfter(r[j], r[k], rank) && r[j] != r[k] {
      var j', k' := if j < i then j else j - 1, if k < i then k else k - 1;
      assert j != i ==> r[j] == out[j'] && out[j'] in out;
      assert k != i ==> r[k] == out[k'] && out[k'] in out;
    }
    InsertedMembers(out, i, c);
  }

  lemma InsertedMembers<T>(s: seq<T>, i: nat, x: T)
    requires i <= |s|
    ensures forall y :: y in s[..i] + [x] + s[i..] <==> y in s || y == x
  {
    assert s == s[..i] + s[i..];
  }

  function Counted(rows: Rows, remaining: set<ConnKey>, s: int, ttl: int, now: int): set<ConnKey> {
    set k | k in rows && k !in remaining && rows[k].serviceId == s && Fresh(rows[k], ttl, now)
  }

  lemma CountOne(rows: Rows, remaining: set<ConnKey>, k: ConnKey, ttl: int, now: int)
    requires k in remaining && remaining <= rows.Keys
    ensures forall s ::
      Counted(rows, remaining - {k}, s, ttl, now)
        == Counted(rows, remaining, s, ttl, now)
             + if rows[k].serviceId == s && Fresh(rows[k], ttl, now) then {k} else {}
    ensures forall s :: k !in Counted(rows, remaining, s, ttl, now)
  {
  }

  // ---------- The timed protocol ----------

  /** `live` maps each replica whose tracker runs to its last heartbeat; a draining replica has
      cleared its rows and stopped its heartbeat, but its streams are still open; `open` maps each open
      stream to its service. */
  datatype Cluster = Cluster(
    now: int,
    rows: Rows,
    live: map<string, int>,
    draining: set<string>,
    open: map<ConnKey, int>)

  datatype Step =
    | Tick(seconds: nat)
    | Start(replica: string)
    | Open(k: ConnKey, serviceId: int, peer: string)
    | Close(k: ConnKey)
    | Beat(replica: string)
    | PurgeStale
    | Shutdown(replica: string)
    | Exit(replica: string)

  predicate Running(c: Cluster, replica: string) {
    replica in c.live || replica in c.draining
  }

  /** Hypotheses: connection and replica ids are fresh, database calls succeed, and time does not
      pass by more than the TTL between a live replica's heartbeats. A stream may still open, and
      register, while its replica is draining; a replica may exit at any time, clean or not. */
  predicate Enabled(c: Cluster, step: Step) {
    match step
    case Tick(seconds) => forall r :: r in c.live ==> c.now + seconds - c.live[r] < TTL
    case Start(replica) => !Running(c, replica) && forall k :: k in c.rows ==> k.replica != replica
    case Open(k, _, _) => Running(c, k.replica) && k !in c.rows && k !in c.open
    case Close(k) => k in c.open
    case Beat(replica) => replica in c.live
    case PurgeStale => true
    case Shutdown(replica) => replica in c.live
    case Exit(replica) => Running(c, replica)
  }

  function Elsewhere(open: map<ConnKey, int>, replica: string): map<ConnKey, int> {
    map k | k in open && k.replica != replica :: open[k]
  }

  function Do(c: Cluster, step: Step): Cluster {
    if !Enabled(c, step) then c else
      match step
      case Tick(seconds) => c.(now := c.now + seconds)
      case Start(replica) => c.(live := c.live[replica := c.now])
      case Open(k, serviceId, peer) =>
        c.(rows := Registered(c.rows, k, serviceId, peer, c.now), open := c.open[k := serviceId])
      case Close(k) => c.(rows := c.rows - {k}, open := c.open - {k})
      case Beat(replica) => c.(rows := Touched(c.rows, replica, c.now), live := c.live[replica := c.now])
      case PurgeStale => c.(rows := Purged(c.rows, TTL, c.now))
      case Shutdown(replica) =>
        c.(rows := Cleared(c.rows, replica), live := c.live - {replica}, draining := c.draining + {replica})
      case Exit(replica) =>
        c.(live := c.live - {replica}, draining := c.draining - {replica}, open := Elsewhere(c.open, replica))
  }

  function Exec(steps: seq<Step>): Cluster {
    if steps == [] then Cluster(0, map[], map[], {}, map[]) else Do(Exec(steps[..|steps| - 1]), steps[|steps| - 1])
  }

  /** A live replica's rows are exactly its open streams, none older than its last heartbeat; a
      draining replica's rows are open streams too; no row is from the future. */
  predicate Inv(c: Cluster) {
    && (forall r :: r in c.live ==> c.live[r] <= c.now && c.now - c.live[r] < TTL && r !in c.draining)
    && (forall k :: k in c.rows ==> c.rows[k].updatedAt <= c.now)
    && (forall k :: k in c.open ==> Running(c, k.replica))
    && (forall k :: k in c.open && k.replica in c.live ==> k in c.rows && c.rows[k].serviceId == c.open[k])
    && (forall k :: k in c.rows && k.replica in c.live ==> k in c.open && c.rows[k].updatedAt >= c.live[k.replica])
    && (forall k :: k in c.rows && k.replica in c.draining ==> k in c.open && c.rows[k].serviceId == c.open[k])
  }

  lemma ReplicaStarts(c: Cluster, replica: string)
    requires Inv(c) && Enabled(c, Start(replica))
    ensures Inv(Do(c, Start(replica)))
  {
  }

  lemma StreamOpens(c: Cluster, k: ConnKey, serviceId: int, peer: string)
    requires Inv(c) && Enabled(c, Open(k, serviceId, peer))
    ensures Inv(Do(c, Open(k, serviceId, peer)))
  {
  }

  lemma StreamCloses(c: Cluster, k: ConnKey)
    requires Inv(c) && Enabled(c, Close(k))
    ensures Inv(Do(c, Close(k)))
  {
  }

  lemma ReplicaBeats(c: Cluster, replica: string)
    requires Inv(c) && Enabled(c, Beat(replica))
    ensures Inv(Do(c, Beat(replica)))
  {
  }

  lemma RowsPurged(c: Cluster)
    requires Inv(c) && Enabled(c, PurgeStale)
    ensures Inv(Do(c, PurgeStale))
  {
  }

  lemma ReplicaShutsDown(c: Cluster, replica: string)
    requires Inv(c) && Enabled(c, Shutdown(replica))
    ensures Inv(Do(c, Shutdown(replica)))
  {
  }

  lemma ReplicaExits(c: Cluster, replica: string)
    requires Inv(c) && Enabled(c, Exit(replica))
    ensures Inv(Do(c, Exit(replica)))
  {
  }

  lemma DoKeepsInv(c: Cluster, step: Step)
    requires Inv(c)
    ensures Inv(Do(c, step))
  {
    if Enabled(c, step) {
      match step
      case Tick(_) =>
      case Start(replica) => ReplicaStarts(c, replica);
      case Open(k, serviceId, peer) => StreamOpens(c, k, serviceId, peer);
      case Close(k) => StreamCloses(c, k);
      case Beat(replica) => ReplicaBeats(c, replica);
      case PurgeStale => RowsPurged(c);
      case Shutdown(replica) => ReplicaShutsDown(c, replica);
      case Exit(replica) => ReplicaExits(c, replica);
    }
  }

  lemma {:induction false} ExecInv(steps: seq<Step>)
    ensures Inv(Exec(steps))
  {
    if steps != [] {
      ExecInv(steps[..|steps| - 1]);
      DoKeepsInv(Exec(steps[..|steps| - 1]), steps[|steps| - 1]);
    }
  }

  /** A service's open streams on live replicas. */
  function OpenStreams(c: Cluster, serviceId: int): set<ConnKey> {
    set k | k in c.open && k.replica in c.live && c.open[k] == serviceId
  }

  /** Rows without a heartbeat, not yet past the TTL of 30 s: left behind by replicas that exited without
      clearing them, or registered while their replica was already draining. */
  function Orphans(c: Cluster, serviceId: int): set<ConnKey> {
    set k | k in c.rows && k.replica !in c.live && c.rows[k].serviceId == serviceId && c.now - c.rows[k].updatedAt < 30
  }

  /** MAIN: in every reachable state a service's count is its open streams on live replicas plus the
      rows orphaned less than the TTL ago, and nothing else. */
  lemma CountIsExact(steps: seq<Step>, serviceId: int)
    ensures var c := Exec(steps);
      |FreshKeys(c.rows, serviceId, TTL, c.now)| == |OpenStreams(c, serviceId)| + |Orphans(c, serviceId)|
  {
    ExecInv(steps);
    var c := Exec(steps);
    var open, orphans := OpenStreams(c, serviceId), Orphans(c, serviceId);
    assert FreshKeys(c.rows, serviceId, TTL, c.now) == open + orphans;
    assert open !! orphans;
  }

  /** A replica that shuts down stops counting at once, although its streams stay open for a while;
      no other replica's streams are affected. */
  lemma ShutdownUncounts(steps: seq<Step>, replica: string, serviceId: int)
    requires replica in Exec(steps).live
    ensures var c := Exec(steps);
            var c' := Do(c, Shutdown(replica));
      && c'.open == c.open
      && FreshKeys(c'.rows, serviceId, TTL, c'.now)
           == (set k | k in FreshKeys(c.rows, serviceId, TTL, c.now) && k.replica != replica)
      && OpenStreams(c', serviceId) == (set k | k in OpenStreams(c, serviceId) && k.replica != replica)
  {
    ExecInv(steps);
  }

  /** A purge by any replica changes no count and removes no row of an open stream on a live replica. */
  lemma PurgeIsInvisible(steps: seq<Step>, serviceId: int)
    ensures var c := Exec(steps);
            var c' := Do(c, PurgeStale);
      && FreshKeys(c'.rows, serviceId, TTL, c.now) == FreshKeys(c.rows, serviceId, TTL, c.now)
      && (forall k :: k in c.open && k.replica in c.live ==> k in c'.rows && c'.rows[k] == c.rows[k])
  {
    ExecInv(steps);
  }

  /** Once the rows of replicas that no longer beat are past the TTL the count is exactly the open
      streams on live replicas. */
  lemma OrphansExpire(steps: seq<Step>, serviceId: int)
    requires var c := Exec(steps);
      forall k :: k in c.rows && k.replica !in c.live ==> c.rows[k].updatedAt <= c.now - 30
    ensures var c := Exec(steps);
      FreshKeys(c.rows, serviceId, TTL, c.now) == OpenStreams(c, serviceId)
  {
    ExecInv(steps);
  }

  /** Steps that leave a row without a heartbeat: a replica exits without clearing its rows, or a
      stream opens while its replica is draining. */
  predicate Orphaning(c: Cluster, step: Step) {
    Enabled(c, step) &&
    match step
    case Exit(replica) => replica in c.live && exists k :: k in c.rows && k.replica == replica
    case Open(k, _, _) => k.replica !in c.live
    case _ => false
  }

  /** Each of them makes some service's count exceed its open streams on live replicas. */
  lemma OrphaningMiscounts(steps: seq<Step>, step: Step) returns (serviceId: int)
    requires Orphaning(Exec(steps), step)
    ensures var c := Do(Exec(steps), step);
      OpenStreams(c, serviceId) < FreshKeys(c.rows, serviceId, TTL, c.now)
  {
    ExecInv(steps);
    var c, c' := Exec(steps), Do(Exec(steps), step);
    DoKeepsInv(c, step);
    var k := match step
      case Open(k, _, _) => k
      case Exit(replica) => (var k :| k in c.rows && k.replica == replica; k);
    serviceId := c'.rows[k].serviceId;
    var open, counted := OpenStreams(c', serviceId), FreshKeys(c'.rows, serviceId, TTL, c'.now);
    assert k in counted && k !in open;
    forall o | o in open ensures o in counted {
      assert c'.now - c'.live[o.replica] < TTL;
    }
  }

  /** No step of `more`, taken after `steps`, leaves a row without a heartbeat. */
  predicate NoneOrphaned(steps: seq<Step>, more: seq<Step>) {
    more == [] ||
    (NoneOrphaned(steps, more[..|more| - 1]) && !Orphaning(Exec(steps + more[..|more| - 1]), more[|more| - 1]))
  }

  /** No row without a heartbeat was touched after `since`. */
  predicate SilentSince(c: Cluster, since: int) {
    forall k :: k in c.rows && k.replica !in c.live ==> c.rows[k].updatedAt <= since
  }

  /** Nobody else's heartbeat, and no other step, makes such a row younger. */
  lemma StepKeepsSilence(c: Cluster, step: Step, since: int)
    requires Inv(c) && SilentSince(c, since) && !Orphaning(c, step)
    ensures SilentSince(Do(c, step), since)
  {
  }

  lemma {:induction false} RunKeepsSilence(steps: seq<Step>, more: seq<Step>)
    requires NoneOrphaned(steps, more)
    ensures SilentSince(Exec(steps + more), Exec(steps).now)
  {
    if more == [] {
      ExecInv(steps);
      assert steps + more == steps;
    } else {
      var rest := more[..|more| - 1];
      RunKeepsSilence(steps, rest);
      ExecInv(steps + rest);
      StepKeepsSilence(Exec(steps + rest), more[|more| - 1], Exec(steps).now);
      assert (steps + more)[..|steps + more| - 1] == steps + rest;
    }
  }

  /** MAIN: from any reachable state, once 30 s have passed without another orphaned row the count is
      exactly the open streams on live replicas, whatever else happened and however old the rows were. */
  lemma {:induction false} CountRecovers(steps: seq<Step>, more: seq<Step>, serviceId: int)
    requires NoneOrphaned(steps, more) && Exec(steps + more).now - Exec(steps).now >= 30
    ensures var c := Exec(steps + more);
      FreshKeys(c.rows, serviceId, TTL, c.now) == OpenStreams(c, serviceId)
  {
    RunKeepsSilence(steps, more);
    OrphansExpire(steps + more, serviceId);
  }
}
