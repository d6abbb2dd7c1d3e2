/** The distribution protocol as a step relation: transactions commit at the store, handlers
    publish them, NOTIFY carries them to every listening replica in one order, each replica
    offers them to its subscribers' bounded channels, the stream server sends a snapshot and then
    the channel's events, and clients apply whatever arrives. Losses are steps like any other. */
module Distribution {
  import opened Common
  import opened VersionedStore
  import opened Events
  import opened Fanout

  /** A server process: its LISTEN connection, the notifications it has not dispatched yet, and
      (for specification) the versions that will never reach its dispatcher. */
  datatype Replica = Replica(listening: bool, queue: seq<Event>, lost: set<(Slot, nat)>)

  /** One gRPC stream: its broker channel, what is on the wire, and (for specification) the
      versions lost on the way to it. */
  datatype Conn = Conn(replica: int, snapped: bool, ch: seq<Event>, wire: seq<Msg>, lost: set<(string, nat)>)

  /** A client: its overrides, and (for specification) every message it ever received. */
  datatype Client = Client(serviceId: int, overrides: map<string, string>, got: seq<Msg>, conn: Option<Conn>)

  datatype System = System(
    db: Tables,
    unpublished: seq<Event>,
    replicas: map<int, Replica>,
    clients: map<int, Client>)

  datatype Step =
    | Commit(op: Op)
    | Publish(i: nat)
    | PublishFails(i: nat)
    | PublishConns(serviceId: int)
    | ListenUp(r: int)
    | ListenDown(r: int)
    | Dispatch(r: int)
    | Subscribe(c: int, r: int)
    | ReadSnapshot(c: int, vars: seq<PbVariable>)
    | Send(c: int)
    | Receive(c: int)
    | Disconnect(c: int)

  // ---------- Pieces of a step ----------

  /** The rows a transaction appended to the log. */
  function NewRows(before: Tables, after: Tables): seq<VersionRow> {
    if |before.versions| <= |after.versions| then after.versions[|before.versions|..] else []
  }

  function Without<T>(s: seq<T>, i: nat): seq<T>
    requires i < |s|
  {
    s[..i] + s[i + 1..]
  }

  function LostTo(es: seq<Event>, serviceId: int): set<(string, nat)> {
    set e | e in es && Concerns(e, serviceId) :: (e.key, e.version)
  }

  function LostSlots(es: seq<Event>): set<(Slot, nat)> {
    set e | e in es && e.kind == Var :: (Slot(e.serviceId, e.key), e.version)
  }

  /** The client will never receive `es`. */
  function Misses(cl: Client, es: seq<Event>): Client {
    match cl.conn
    case None => cl
    case Some(conn) => cl.(conn := Some(conn.(lost := conn.lost + LostTo(es, cl.serviceId))))
  }

  /** One pg_notify: replicas without a LISTEN connection never hear of it. */
  function Hears(r: Replica, e: Event): Replica {
    if r.listening then r.(queue := r.queue + [e]) else r.(lost := r.lost + LostSlots([e]))
  }

  /** `cl` while its replica takes `e` off the notification queue. */
  function OfferedTo(cl: Client, r: int, e: Event): Client {
    if cl.conn.None? || cl.conn.value.replica != r || !Wants(cl.serviceId, e) then cl
    else if |cl.conn.value.ch| < CAPACITY then
      cl.(conn := Some(cl.conn.value.(ch := Offered(cl.conn.value.ch, e))))
    else Misses(cl, [e])
  }

  predicate OnReplica(cl: Client, r: int) {
    cl.conn.Some? && cl.conn.value.replica == r
  }

  predicate Deaf(sys: System, cl: Client) {
    cl.conn.Some? && cl.conn.value.replica in sys.replicas && !sys.replicas[cl.conn.value.replica].listening
  }

  /** Keys of a service with an event in flight although their latest version is not: what a new
      subscription inherits, because such an event will be applied after the snapshot. */
  function Overtaken(db: Tables, inflight: seq<Event>, serviceId: int): set<(string, nat)> {
    set e | e in inflight && Concerns(e, serviceId)
            && Latest(db, Slot(serviceId, e.key)) !in Versions(inflight, Slot(serviceId, e.key))
         :: (e.key, Latest(db, Slot(serviceId, e.key)))
  }

  /** Handlers publish after commit in a separate statement. That the events of one key are
      published in commit order is a hypothesis here, not something the handlers enforce. */
  predicate FirstOfItsKey(unpublished: seq<Event>, i: nat)
    requires i < |unpublished|
  {
    forall j :: 0 <= j < i ==>
      !(unpublished[j].serviceId == unpublished[i].serviceId && unpublished[j].key == unpublished[i].key)
  }

  // ---------- Steps ----------

  predicate Enabled(sys: System, step: Step) {
    match step
    case Commit(_) => true
    case Publish(i) => i < |sys.unpublished| && FirstOfItsKey(sys.unpublished, i)
    case PublishFails(i) => i < |sys.unpublished|
    case PublishConns(_) => true
    case ListenUp(r) => r in sys.replicas
    case ListenDown(r) => r in sys.replicas
    case Dispatch(r) => r in sys.replicas && sys.replicas[r].queue != []
    case Subscribe(c, r) => c in sys.clients && sys.clients[c].conn.None? && r in sys.replicas
    case ReadSnapshot(c, vars) =>
      c in sys.clients && sys.clients[c].conn.Some? && !sys.clients[c].conn.value.snapped
      && sys.clients[c].conn.value.replica in sys.replicas
      && IsListing(sys.db, sys.clients[c].serviceId, vars)
    case Send(c) =>
      c in sys.clients && sys.clients[c].conn.Some? && sys.clients[c].conn.value.snapped
      && sys.clients[c].conn.value.ch != []
    case Receive(c) =>
      c in sys.clients && sys.clients[c].conn.Some? && sys.clients[c].conn.value.wire != []
    case Disconnect(c) => c in sys.clients
  }

  function Committed(sys: System, op: Op): System {
    var db := Transact(sys.db, op);
    sys.(db := db, unpublished := sys.unpublished + EventsOf(NewRows(sys.db, db)))
  }

  function Published(sys: System, i: nat): System
    requires i < |sys.unpublished|
  {
    var e := sys.unpublished[i];
    sys.(unpublished := Without(sys.unpublished, i),
         replicas := map r | r in sys.replicas :: Hears(sys.replicas[r], e),
         clients := map c | c in sys.clients ::
           if Deaf(sys, sys.clients[c]) then Misses(sys.clients[c], [e]) else sys.clients[c])
  }

  function FailedToPublish(sys: System, i: nat): System
    requires i < |sys.unpublished|
  {
    var e := sys.unpublished[i];
    sys.(unpublished := Without(sys.unpublished, i),
         replicas := map r | r in sys.replicas :: sys.replicas[r].(lost := sys.replicas[r].lost + LostSlots([e])),
         clients := map c | c in sys.clients :: Misses(sys.clients[c], [e]))
  }

  function Unheard(sys: System, r: int): System
    requires r in sys.replicas
  {
    var rep := sys.replicas[r];
    sys.(replicas := sys.replicas[r := Replica(false, [], rep.lost + LostSlots(rep.queue))],
         clients := map c | c in sys.clients ::
           if OnReplica(sys.clients[c], r) then Misses(sys.clients[c], rep.queue) else sys.clients[c])
  }

  function Dispatched(sys: System, r: int): System
    requires r in sys.replicas && sys.replicas[r].queue != []
  {
    var rep := sys.replicas[r];
    sys.(replicas := sys.replicas[r := rep.(queue := rep.queue[1..])],
         clients := map c | c in sys.clients :: OfferedTo(sys.clients[c], r, rep.queue[0]))
  }

  function SubscribedTo(sys: System, cl: Client, r: int): Client
    requires r in sys.replicas
  {
    var inflight := sys.replicas[r].queue + sys.unpublished;
    cl.(conn := Some(Conn(r, false, [], [], Overtaken(sys.db, inflight, cl.serviceId))))
  }

  /** Events on their way to the client's stream, nearest first. */
  function Inflight(sys: System, cl: Client): seq<Event>
    requires cl.conn.Some? && cl.conn.value.replica in sys.replicas
  {
    cl.conn.value.ch + (sys.replicas[cl.conn.value.replica].queue + sys.unpublished)
  }

  /** The snapshot repairs what was lost since the subscription, except where an older event of the
      key is still on its way. */
  function Snapped(sys: System, cl: Client, vars: seq<PbVariable>): Client
    requires cl.conn.Some? && cl.conn.value.replica in sys.replicas
  {
    cl.(conn := Some(cl.conn.value.(snapped := true, wire := [Snapshot(vars)],
                                    lost := Overtaken(sys.db, Inflight(sys, cl), cl.serviceId))))
  }

  /** The server's loop takes one event off the channel; only variable events are sent. */
  function Sent(cl: Client): Client
    requires cl.conn.Some? && cl.conn.value.ch != []
  {
    var conn := cl.conn.value;
    var e := conn.ch[0];
    cl.(conn := Some(conn.(ch := conn.ch[1..],
                           wire := if e.kind == Var then conn.wire + [ChangeMsg(e)] else conn.wire)))
  }

  function Received(cl: Client): Client
    requires cl.conn.Some? && cl.conn.value.wire != []
  {
    var conn := cl.conn.value;
    cl.(overrides := Apply(cl.overrides, conn.wire[0]), got := cl.got + [conn.wire[0]],
        conn := Some(conn.(wire := conn.wire[1..])))
  }

  /** The state after `step`; a step that is not enabled does nothing. */
  function Do(sys: System, step: Step): System {
    if !Enabled(sys, step) then sys else
      match step
      case Commit(op) => Committed(sys, op)
      case Publish(i) => Published(sys, i)
      case PublishFails(i) => FailedToPublish(sys, i)
      case PublishConns(serviceId) =>
        sys.(replicas := map r | r in sys.replicas :: Hears(sys.replicas[r], ConnsEvent(serviceId)))
      case ListenUp(r) => sys.(replicas := sys.replicas[r := sys.replicas[r].(listening := true)])
      case ListenDown(r) => Unheard(sys, r)
      case Dispatch(r) => Dispatched(sys, r)
      case Subscribe(c, r) => sys.(clients := sys.clients[c := SubscribedTo(sys, sys.clients[c], r)])
      case ReadSnapshot(c, vars) => sys.(clients := sys.clients[c := Snapped(sys, sys.clients[c], vars)])
      case Send(c) => sys.(clients := sys.clients[c := Sent(sys.clients[c])])
      case Receive(c) => sys.(clients := sys.clients[c := Received(sys.clients[c])])
      case Disconnect(c) => sys.(clients := sys.clients[c := sys.clients[c].(conn := None)])
  }

  function Exec(sys: System, steps: seq<Step>): System {
    if steps == [] then sys else Do(Exec(sys, steps[..|steps| - 1]), steps[|steps| - 1])
  }

  /** Nothing in flight and nobody connected; the tables are those of any earlier run. */
  ghost predicate Init(sys: System) {
    && Consistent(sys.db)
    && sys.unpublished == []
    && (forall r :: r in sys.replicas ==> sys.replicas[r].queue == [] && sys.replicas[r].lost == {})
    && (forall c :: c in sys.clients ==>
          && sys.clients[c].conn.None? && sys.clients[c].serviceId > 0
          && sys.clients[c].overrides == map[] && sys.clients[c].got == [])
  }

  // ---------- What is still on its way ----------

  /** The client's overrides once everything on its way has arrived and been applied. */
  function Drained(sys: System, cl: Client): map<string, string>
    requires cl.conn.Some? && cl.conn.value.replica in sys.replicas
  {
    Settle(ApplyAll(cl.overrides, cl.conn.value.wire), Inflight(sys, cl), cl.serviceId)
  }

  predicate Quiet(sys: System, cl: Client)
    requires cl.conn.Some? && cl.conn.value.replica in sys.replicas
  {
    cl.conn.value.wire == [] && forall e :: e in Inflight(sys, cl) ==> !Concerns(e, cl.serviceId)
  }

  /** Steps on which something may be lost. */
  predicate Loses(sys: System, step: Step) {
    match step
    case Publish(_) => exists r :: r in sys.replicas && !sys.replicas[r].listening
    case PublishFails(_) => true
    case ListenDown(r) => r in sys.replicas && exists e :: e in sys.replicas[r].queue && e.kind == Var
    case Dispatch(r) =>
      r in sys.replicas && sys.replicas[r].queue != [] &&
      exists c :: c in sys.clients && OnReplica(sys.clients[c], r)
               && Wants(sys.clients[c].serviceId, sys.replicas[r].queue[0])
               && |sys.clients[c].conn.value.ch| >= CAPACITY
    case _ => false
  }

  /** No step of the run loses anything in the state it is taken in. */
  predicate LossFree(sys: System, steps: seq<Step>) {
    steps == [] ||
    (LossFree(sys, steps[..|steps| - 1]) && !Loses(Exec(sys, steps[..|steps| - 1]), steps[|steps| - 1]))
  }
}
