/** The reference clients. One goroutine or thread handles messages; readers may load the published
    configuration at any point in between and keep it, so every method that changes a client also says
    what the readers that ran meanwhile got, and that it stays as they got it. */
module ConfigClient {
  import opened Common
  import opened Events

  /** A map of the host language: a reference to contents that can change. */
  class Table {
    var m: map<string, string>

    constructor (m: map<string, string>)
      ensures this.m == m
    {
      this.m := m;
    }
  }

  /** What readers are given. Nothing in the type keeps its table from changing. */
  class Config {
    const values: Table

    constructor (values: Table)
      ensures this.values == values
    {
      this.values := values;
    }
  }

  /** Env defaults overlaid with the service's overrides. */
  function Merged(defaults: map<string, string>, overrides: map<string, string>): map<string, string> {
    defaults + overrides
  }

  /** `base` with the entries of `over` for the keys in `done` put into it. */
  function Overlaid(base: map<string, string>, over: map<string, string>, done: set<string>): map<string, string>
    requires done <= over.Keys
  {
    base + map k | k in done :: over[k]
  }

  lemma OverlaidNext(base: map<string, string>, over: map<string, string>, remaining: set<string>, k: string)
    requires k in remaining && remaining <= over.Keys
    ensures Overlaid(base, over, over.Keys - (remaining - {k}))
         == Overlaid(base, over, over.Keys - remaining)[k := over[k]]
  {
    assert over.Keys - (remaining - {k}) == (over.Keys - remaining) + {k};
  }

  lemma OverlaidAll(base: map<string, string>, over: map<string, string>)
    ensures Overlaid(base, over, over.Keys - {}) == Merged(base, over) && Overlaid(base, over, {}) == base
    ensures Merged(map[], over) == over
  {
    assert over.Keys - {} == over.Keys;
    assert (map k | k in over.Keys :: over[k]) == over;
  }

  /** The configuration after a sequence of messages. */
  function ConfigAfter(defaults: map<string, string>, msgs: seq<Msg>): map<string, string> {
    Merged(defaults, ApplyAll(map[], msgs))
  }

  /** A reader's load, with the number of messages handled completely when it was made. */
  datatype Loaded = Loaded(prefix: nat, config: Config)

  function Times<T>(x: T, n: nat): seq<T> {
    seq(n, _ => x)
  }

  /** `history[p]` is the object published after `p` messages. Every load is one of these objects, and
      later loads never are of a shorter prefix. */
  ghost predicate LoadsOk(loads: seq<Loaded>, history: seq<Config>) {
    && (forall l :: l in loads ==> LoadOk(l, history))
    && (forall i, j :: InOrder(loads, i, j))
  }

  ghost predicate InOrder(loads: seq<Loaded>, i: int, j: int) {
    0 <= i < j < |loads| ==> loads[i].prefix <= loads[j].prefix
  }

  ghost predicate LoadOk(l: Loaded, history: seq<Config>) {
    l.prefix < |history| && l.config == history[l.prefix]
  }

  lemma LoadsNext(loads: seq<Loaded>, history: seq<Config>, n: nat)
    requires LoadsOk(loads, history) && history != []
    ensures LoadsOk(loads + Times(Loaded(|history| - 1, history[|history| - 1]), n), history)
  {
    var loads' := loads + Times(Loaded(|history| - 1, history[|history| - 1]), n);
    assert forall i :: 0 <= i < |loads| ==> LoadOk(loads[i], history);
    forall i, j ensures InOrder(loads', i, j) {
      assert InOrder(loads, i, j);
    }
  }

  lemma LoadsKept(loads: seq<Loaded>, history: seq<Config>, config: Config)
    requires LoadsOk(loads, history)
    ensures LoadsOk(loads, history + [config])
  {
    assert forall l :: l in loads ==> LoadOk(l, history);
  }

  /** Every object ever published holds, now, the configuration after its prefix of the messages. */
  ghost predicate Kept(defaults: map<string, string>, handled: seq<Msg>, history: seq<Config>, tables: set<Table>)
    reads tables
  {
    |history| == |handled| + 1 && forall p: nat :: p < |history| ==> KeptAt(defaults, handled, history, tables, p)
  }

  ghost predicate KeptAt(defaults: map<string, string>, handled: seq<Msg>, history: seq<Config>, tables: set<Table>,
                         p: nat)
    requires p < |history| && p <= |handled|
    reads tables
  {
    history[p].values in tables && history[p].values.m == ConfigAfter(defaults, handled[..p])
  }

  lemma KeptNext(defaults: map<string, string>, handled: seq<Msg>, history: seq<Config>, tables: set<Table>,
                 msg: Msg, config: Config)
    requires Kept(defaults, handled, history, tables)
    requires config.values.m == ConfigAfter(defaults, handled + [msg])
    ensures Kept(defaults, handled + [msg], history + [config], tables + {config.values})
  {
    forall p: nat | p < |history| + 1
      ensures KeptAt(defaults, handled + [msg], history + [config], tables + {config.values}, p)
    {
      if p < |history| {
        assert KeptAt(defaults, handled, history, tables, p);
        assert (handled + [msg])[..p] == handled[..p];
      } else {
        assert (handled + [msg])[..p] == handled + [msg];
      }
    }
  }

  /** The object published last holds the configuration after all messages. */
  lemma LastKept(defaults: map<string, string>, handled: seq<Msg>, history: seq<Config>, tables: set<Table>)
    requires Kept(defaults, handled, history, tables)
    ensures history[|handled|].values in tables
    ensures history[|handled|].values.m == ConfigAfter(defaults, handled)
  {
    assert KeptAt(defaults, handled, history, tables, |handled|);
    assert handled[..|handled|] == handled;
  }

  lemma HandledNext(handled: seq<Msg>, msg: Msg)
    ensures ApplyAll(map[], handled + [msg]) == Apply(ApplyAll(map[], handled), msg)
  {
    assert (handled + [msg])[..|handled|] == handled;
  }

  /** What a callback is told. */
  datatype Notice =
    | Silent
    | OnSnapshot(all: map<string, string>)
    | OnChange(key: string, value: Option<string>, deleted: bool)

  /** Go's Get: a missing key reads as the empty string. */
  function Get(m: map<string, string>, key: string): string {
    if key in m then m[key] else ""
  }

  /** The value a key has once its override is gone. */
  lemma DeleteFallsBack(defaults: map<string, string>, overrides: map<string, string>, v: PbVariable)
    ensures Lookup(Merged(defaults, Apply(overrides, Change(true, v))), v.key) == Lookup(defaults, v.key)
    ensures forall k :: k != v.key ==>
      Lookup(Merged(defaults, Apply(overrides, Change(true, v))), k) == Lookup(Merged(defaults, overrides), k)
  {
  }

  /** An override wins over the default; a key without either is absent. */
  lemma OverrideWins(defaults: map<string, string>, overrides: map<string, string>, k: string)
    ensures Lookup(Merged(defaults, overrides), k) == if k in overrides then Some(overrides[k]) else Lookup(defaults, k)
  {
  }

  /** The readers of one client, and what it has published for them so far; at first, nothing. */
  class Audience {
    const defaults: map<string, string>
    ghost var handled: seq<Msg>
    ghost var history: seq<Config>
    ghost var tables: set<Table>
    ghost var loads: seq<Loaded>

    /** What readers have got holds at every point, however far the handling of a message has come. */
    ghost predicate Ok()
      reads this, tables
    {
      if history == [] then handled == [] && loads == [] && tables == {}
      else Kept(defaults, handled, history, tables) && LoadsOk(loads, history)
    }

    ghost constructor (defaults: map<string, string>)
      ensures Ok() && this.defaults == defaults && history == []
    {
      this.defaults := defaults;
      handled, history, tables, loads := [], [], {}, [];
    }

    /** `n` loads at this point. */
    ghost method Load(n: nat)
      requires Ok() && history != []
      modifies this`loads
      ensures Ok() && loads == old(loads) + Times(Loaded(|handled|, history[|handled|]), n)
    {
      LoadsNext(loads, history, n);
      loads := loads + Times(Loaded(|handled|, history[|handled|]), n);
    }

    /** Any number of loads, by whoever runs at this point. */
    ghost method Readers()
      requires Ok()
      modifies this`loads
      ensures Ok() && old(loads) <= loads
    {
      if history != [] {
        var n: nat :| true;
        Load(n);
      }
    }

    /** The first configuration becomes visible. */
    ghost method Begin(config: Config)
      requires Ok() && history == [] && config.values.m == defaults
      modifies this`history, this`tables
      ensures Ok() && history == [config] && tables == {config.values}
    {
      history, tables := [config], {config.values};
      assert Merged(defaults, map[]) == defaults;
      assert KeptAt(defaults, handled, history, tables, 0);
    }

    /** `msg` is handled, and `config` is what the client shows from now on. */
    ghost method Publish(msg: Msg, config: Config)
      requires Ok() && history != [] && config.values.m == ConfigAfter(defaults, handled + [msg])
      modifies this`handled, this`history, this`tables
      ensures Ok() && handled == old(handled) + [msg]
      ensures history == old(history) + [config] && tables == old(tables) + {config.values}
    {
      KeptNext(defaults, handled, history, tables, msg, config);
      LoadsKept(loads, history, config);
      handled, history, tables := handled + [msg], history + [config], tables + {config.values};
    }

    /** A message that changes nothing is handled: the client goes on showing the same object. */
    ghost method Repeat(msg: Msg)
      requires Ok() && history != [] && ApplyAll(map[], handled + [msg]) == ApplyAll(map[], handled)
      modifies this`handled, this`history, this`tables
      ensures Ok() && handled == old(handled) + [msg] && tables == old(tables)
      ensures history == old(history) + [old(history[|handled|])]
    {
      LastKept(defaults, handled, history, tables);
      var config := history[|handled|];
      Publish(msg, config);
    }
  }

  /** MAIN: at any moment of any run, every configuration that any reader ever loaded holds the defaults
      overlaid with the overrides after some complete prefix of the messages, the one handled when it
      was loaded; and successive loads never go back to a shorter prefix. */
  lemma LoadsArePrefixes(a: Audience)
    requires a.Ok()
    ensures forall l :: l in a.loads ==>
      l.prefix <= |a.handled| && l.config.values.m == ConfigAfter(a.defaults, a.handled[..l.prefix])
    ensures forall i, j :: 0 <= i < j < |a.loads| ==> a.loads[i].prefix <= a.loads[j].prefix
  {
    forall l | l in a.loads
      ensures l.prefix <= |a.handled| && l.config.values.m == ConfigAfter(a.defaults, a.handled[..l.prefix])
    {
      assert LoadOk(l, a.history);
      assert KeptAt(a.defaults, a.handled, a.history, a.tables, l.prefix);
    }
    forall i, j | 0 <= i < j < |a.loads| ensures a.loads[i].prefix <= a.loads[j].prefix {
      assert InOrder(a.loads, i, j);
    }
  }

  /** So between any two moments nothing a reader holds has changed. */
  twostate lemma LoadsUnchanged(a: Audience)
    requires old(a.Ok()) && a.Ok()
    requires old(a.handled) <= a.handled && old(a.loads) <= a.loads
    ensures forall l :: l in old(a.loads) ==> l.config.values.m == old(l.config.values.m)
  {
    forall l | l in old(a.loads) ensures l.config.values.m == old(l.config.values.m) {
      assert l in a.loads;
      assert old(LoadOk(l, a.history)) && LoadOk(l, a.history);
      assert old(KeptAt(a.defaults, a.handled, a.history, a.tables, l.prefix));
      assert KeptAt(a.defaults, a.handled, a.history, a.tables, l.prefix);
      assert a.handled[..l.prefix] == old(a.handled)[..l.prefix];
    }
  }

  class GoClient {
    const defaults: map<string, string>
    var overrides: Table
    var cur: Config?
    ghost const audience: Audience

    /** Holds at every point: the object that readers find is the one published last. */
    ghost predicate Shared()
      reads this, audience, audience.tables
    {
      && audience.Ok() && audience.defaults == defaults
      && audience.history != [] && cur == audience.history[|audience.handled|]
    }

    /** Holds between messages. */
    ghost predicate Valid()
      reads this, audience, audience.tables, overrides
    {
      Shared() && overrides !in audience.tables && overrides.m == ApplyAll(map[], audience.handled)
    }

    constructor (defaults: map<string, string>)
      ensures Valid() && fresh(audience) && fresh(audience.tables) && fresh(overrides)
      ensures this.defaults == defaults && audience.handled == [] && audience.loads == []
      ensures cur.values.m == defaults
    {
      this.defaults, cur := defaults, null;
      overrides := new Table(map[]);
      audience := new Audience(defaults);
      new;
      var merged := Merge();
      OverlaidAll(defaults, map[]);
      cur := new Config(merged);
      audience.Begin(cur);
    }

    method Load() returns (config: Config)
      requires Shared()
      modifies audience`loads
      ensures Shared() && config == cur
      ensures audience.loads == old(audience.loads) + [Loaded(|audience.handled|, config)]
    {
      config := cur;
      audience.Load(1);
    }

    /** One entry of a map that is being filled, and readers. */
    method Put(merged: Table, k: string, v: string)
      requires audience.Ok() && merged !in audience.tables
      modifies merged, audience`loads
      ensures merged.m == old(merged.m)[k := v]
      ensures audience.Ok() && old(audience.loads) <= audience.loads
    {
      merged.m := merged.m[k := v];
      audience.Readers();
    }

    /** Copies a map into one that is being filled, entry by entry, while the readers keep loading. */
    method Fill(merged: Table, source: map<string, string>)
      requires audience.Ok() && merged !in audience.tables
      modifies merged, audience`loads
      ensures merged.m == Merged(old(merged.m), source)
      ensures audience.Ok() && old(audience.loads) <= audience.loads
    {
      ghost var base := merged.m;
      OverlaidAll(base, source);
      var remaining := source.Keys;
      while remaining != {}
        invariant remaining <= source.Keys
        invariant merged.m == Overlaid(base, source, source.Keys - remaining)
        invariant audience.Ok() && old(audience.loads) <= audience.loads
        decreases remaining
      {
        var k :| k in remaining;
        OverlaidNext(base, source, remaining, k);
        Put(merged, k, source[k]);
        remaining := remaining - {k};
      }
    }

    /** Fills a new map with the defaults and then the overrides. */
    method Merge() returns (merged: Table)
      requires audience.Ok() && overrides !in audience.tables
      modifies audience`loads
      ensures fresh(merged) && merged.m == Merged(defaults, overrides.m)
      ensures audience.Ok() && old(audience.loads) <= audience.loads
    {
      merged := new Table(map[]);
      OverlaidAll(map[], defaults);
      Fill(merged, defaults);
      Fill(merged, overrides.m);
    }

    /** The overrides become a new map with the snapshot's variables. */
    method Replace(vars: seq<PbVariable>)
      requires Shared()
      modifies this`overrides, audience`loads
      ensures Shared() && fresh(overrides) && overrides.m == MapOf(vars)
      ensures old(audience.loads) <= audience.loads
    {
      overrides := new Table(map[]);
      audience.Readers();
      var i := 0;
      while i < |vars|
        invariant 0 <= i <= |vars| && fresh(overrides) && overrides.m == MapOf(vars[..i])
        invariant Shared() && old(audience.loads) <= audience.loads
      {
        assert vars[..i + 1][..i] == vars[..i];
        overrides.m := overrides.m[vars[i].key := vars[i].value];
        audience.Readers();
        i := i + 1;
      }
      assert vars[..i] == vars;
    }

    /** One message of the stream, with readers running between any two updates. */
    method Handle(msg: Msg) returns (notice: Notice)
      requires Valid()
      modifies this`overrides, this`cur, overrides, audience
      ensures Valid() && fresh(audience.tables - old(audience.tables))
      ensures overrides == old(overrides) || fresh(overrides)
      ensures audience.handled == old(audience.handled) + [msg]
      ensures old(audience.history) <= audience.history && old(audience.loads) <= audience.loads
      ensures msg.Snapshot? ==> notice == OnSnapshot(cur.values.m)
      ensures msg.Change? ==>
        notice == OnChange(msg.variable.key, Some(Get(cur.values.m, msg.variable.key)), msg.deleted)
      ensures msg.Change? ==>
        var key := msg.variable.key;
        notice == OnChange(key, Some(if !msg.deleted then msg.variable.value
                                     else if key in defaults then defaults[key] else ""), msg.deleted)
      ensures msg.Heartbeat? ==> notice == Silent && cur == old(cur)
    {
      HandledNext(audience.handled, msg);
      match msg
      case Snapshot(vars) =>
        Replace(vars);
        Rebuild(msg);
        return OnSnapshot(cur.values.m);
      case Change(deleted, v) =>
        if deleted {
          overrides.m := overrides.m - {v.key};
        } else {
          overrides.m := overrides.m[v.key := v.value];
        }
        audience.Readers();
        Rebuild(msg);
        return OnChange(v.key, Some(Get(cur.values.m, v.key)), deleted);
      case Heartbeat =>
        audience.Repeat(msg);
        audience.Readers();
        return Silent;
    }

    /** Publishes the overrides that handling `msg` has left, in a new object. */
    method Rebuild(ghost msg: Msg)
      requires Shared() && overrides !in audience.tables
      requires overrides.m == ApplyAll(map[], audience.handled + [msg])
      modifies this`cur, audience
      ensures Valid() && fresh(audience.tables - old(audience.tables))
      ensures cur.values.m == Merged(defaults, overrides.m)
      ensures audience.handled == old(audience.handled) + [msg]
      ensures old(audience.history) <= audience.history && old(audience.loads) <= audience.loads
    {
      var merged := Merge();
      cur := new Config(merged);
      audience.Publish(msg, cur);
      audience.Readers();
    }
  }

  /** The Java client clears and refills one map in place and copies it with library calls. */
  class JavaClient {
    const defaults: map<string, string>
    const overrides: Table
    var current: Config?
    ghost const audience: Audience

    ghost predicate Shared()
      reads this, audience, audience.tables
    {
      && audience.Ok() && audience.defaults == defaults
      && audience.history != [] && current == audience.history[|audience.handled|]
      && overrides !in audience.tables
    }

    ghost predicate Valid()
      reads this, audience, audience.tables, overrides
    {
      Shared() && overrides.m == ApplyAll(map[], audience.handled)
    }

    constructor (defaults: map<string, string>)
      ensures Valid() && fresh(audience) && fresh(audience.tables) && fresh(overrides)
      ensures this.defaults == defaults && audience.handled == [] && audience.loads == []
      ensures current.values.m == defaults
    {
      this.defaults, current := defaults, null;
      overrides := new Table(map[]);
      audience := new Audience(defaults);
      new;
      var merged := Merge();
      OverlaidAll(defaults, map[]);
      current := new Config(merged);
      audience.Begin(current);
    }

    method Load() returns (config: Config)
      requires Shared()
      modifies audience`loads
      ensures Shared() && config == current
      ensures audience.loads == old(audience.loads) + [Loaded(|audience.handled|, config)]
    {
      config := current;
      audience.Load(1);
    }

    /** Copies the defaults, and the overrides over them, with readers running in between. */
    method Merge() returns (merged: Table)
      requires audience.Ok() && overrides !in audience.tables
      modifies audience`loads
      ensures fresh(merged) && merged.m == Merged(defaults, overrides.m)
      ensures audience.Ok() && old(audience.loads) <= audience.loads
    {
      merged := new Table(defaults);
      audience.Readers();
      merged.m := merged.m + overrides.m;
      audience.Readers();
    }

    /** The one map of overrides is cleared and refilled, with readers running in between. */
    method Replace(vars: seq<PbVariable>)
      requires Shared()
      modifies overrides, audience`loads
      ensures Shared() && overrides.m == MapOf(vars)
      ensures old(audience.loads) <= audience.loads
    {
      overrides.m := map[];
      audience.Readers();
      var i := 0;
      while i < |vars|
        invariant 0 <= i <= |vars| && overrides.m == MapOf(vars[..i])
        invariant Shared() && old(audience.loads) <= audience.loads
      {
        assert vars[..i + 1][..i] == vars[..i];
        overrides.m := overrides.m[vars[i].key := vars[i].value];
        audience.Readers();
        i := i + 1;
      }
      assert vars[..i] == vars;
    }

    method Handle(msg: Msg) returns (notice: Notice)
      requires Valid()
      modifies this`current, overrides, audience
      ensures Valid() && fresh(audience.tables - old(audience.tables))
      ensures audience.handled == old(audience.handled) + [msg]
      ensures old(audience.history) <= audience.history && old(audience.loads) <= audience.loads
      ensures msg.Snapshot? ==> notice == OnSnapshot(current.values.m)
      ensures msg.Change? ==>
        notice == OnChange(msg.variable.key, Lookup(current.values.m, msg.variable.key), msg.deleted)
      ensures msg.Change? ==>
        var key := msg.variable.key;
        notice == OnChange(key, if !msg.deleted then Some(msg.variable.value)
                                else if key in defaults then Some(defaults[key]) else None, msg.deleted)
      ensures msg.Heartbeat? ==> notice == Silent && current == old(current)
    {
      HandledNext(audience.handled, msg);
      match msg
      case Snapshot(vars) =>
        Replace(vars);
        Rebuild(msg);
        return OnSnapshot(current.values.m);
      case Change(deleted, v) =>
        if deleted {
          overrides.m := overrides.m - {v.key};
        } else {
          overrides.m := overrides.m[v.key := v.value];
        }
        audience.Readers();
        Rebuild(msg);
        return OnChange(v.key, Lookup(current.values.m, v.key), deleted);
      case Heartbeat =>
        audience.Repeat(msg);
        audience.Readers();
        return Silent;
    }

    /** Publishes the overrides that handling `msg` has left, in a new object. */
    method Rebuild(ghost msg: Msg)
      requires Shared() && overrides.m == ApplyAll(map[], audience.handled + [msg])
      modifies this`current, audience
      ensures Valid() && fresh(audience.tables - old(audience.tables))
      ensures current.values.m == Merged(defaults, overrides.m)
      ensures audience.handled == old(audience.handled) + [msg]
      ensures old(audience.history) <= audience.history && old(audience.loads) <= audience.loads
    {
      var merged := Merge();
      current := new Config(merged);
      audience.Publish(msg, current);
      audience.Readers();
    }
  }

  /** The two clients share no object. */
  ghost predicate Apart(go: GoClient, java: JavaClient)
    reads go, java, go.audience, java.audience
  {
    && go.audience != java.audience && go.overrides != java.overrides
    && go.audience.tables !! java.audience.tables
    && go.overrides !in java.audience.tables && java.overrides !in go.audience.tables
  }

  lemma SameShown(go: GoClient, java: JavaClient)
    requires go.Valid() && java.Valid()
    requires go.defaults == java.defaults && go.audience.handled == java.audience.handled
    ensures go.cur.values.m == java.current.values.m == ConfigAfter(go.defaults, go.audience.handled)
  {
    LastKept(go.defaults, go.audience.handled, go.audience.history, go.audience.tables);
    LastKept(java.defaults, java.audience.handled, java.audience.history, java.audience.tables);
  }

  /** The same message, to one client and then to the other. */
  method HandleBoth(go: GoClient, java: JavaClient, msg: Msg)
    requires go.Valid() && java.Valid() && Apart(go, java)
    modifies go`overrides, go`cur, go.overrides, go.audience, java`current, java.overrides, java.audience
    ensures go.Valid() && java.Valid() && Apart(go, java)
    ensures go.overrides == old(go.overrides) || fresh(go.overrides)
    ensures go.audience.handled == old(go.audience.handled) + [msg]
    ensures java.audience.handled == old(java.audience.handled) + [msg]
    ensures old(go.audience.loads) <= go.audience.loads && old(java.audience.loads) <= java.audience.loads
  {
    var _ := go.Handle(msg);
    var _ := java.Handle(msg);
  }

  /** Fed the same messages over the same defaults, the two clients hold the same configuration. */
  method FeedBoth(go: GoClient, java: JavaClient, msgs: seq<Msg>)
    requires go.Valid() && java.Valid() && Apart(go, java)
    requires go.defaults == java.defaults && go.audience.handled == java.audience.handled
    modifies go`overrides, go`cur, go.overrides, go.audience, java`current, java.overrides, java.audience
    ensures go.Valid() && java.Valid()
    ensures go.audience.handled == java.audience.handled == old(go.audience.handled) + msgs
    ensures go.cur.values.m == java.current.values.m == ConfigAfter(go.defaults, old(go.audience.handled) + msgs)
    ensures old(go.audience.loads) <= go.audience.loads && old(java.audience.loads) <= java.audience.loads
  {
    var i := 0;
    while i < |msgs|
      invariant 0 <= i <= |msgs|
      invariant go.Valid() && java.Valid() && Apart(go, java)
      invariant go.overrides == old(go.overrides) || fresh(go.overrides)
      invariant go.audience.handled == java.audience.handled == old(go.audience.handled) + msgs[..i]
      invariant old(go.audience.loads) <= go.audience.loads && old(java.audience.loads) <= java.audience.loads
    {
      HandleBoth(go, java, msgs[i]);
      i := i + 1;
    }
    assert msgs[..i] == msgs;
    SameShown(go, java);
  }
}
