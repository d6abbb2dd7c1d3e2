/** The stream server's loops: building the snapshot message, and forwarding a subscriber's channel
    onto the stream. */
module StreamServer {
  import opened VersionedStore
  import opened Events
  import opened Fanout

  function PbOf(v: Variable): PbVariable {
    PbVariable(v.slot.key, v.value, v.version)
  }

  /** The messages sent for a channel's events: connection-count events are skipped. */
  function Messages(es: seq<Event>): seq<Msg> {
    if es == [] then [] else
      var rest := Messages(es[..|es| - 1]);
      if es[|es| - 1].kind == Var then rest + [ChangeMsg(es[|es| - 1])] else rest
  }

  /** What the snapshot query returns: every row of the service, each once. */
  predicate ListsRows(t: Tables, serviceId: int, vars: seq<Variable>) {
    && (forall i, j :: 0 <= i < j < |vars| ==> vars[i].slot != vars[j].slot)
    && (forall i :: 0 <= i < |vars| ==>
          vars[i].slot.serviceId == serviceId && vars[i].slot in t.variables && t.variables[vars[i].slot] == vars[i])
    && (forall slot :: slot in t.variables && slot.serviceId == serviceId ==>
          exists i :: 0 <= i < |vars| && vars[i].slot == slot)
  }

  /** Rows of one service, each once, sent field by field: what the protocol reads as a snapshot. */
  lemma RowsAreListing(t: Tables, serviceId: int, vars: seq<Variable>, pbvars: seq<PbVariable>)
    requires ListsRows(t, serviceId, vars) && |pbvars| == |vars|
    requires forall i :: 0 <= i < |vars| ==> pbvars[i] == PbVariable(vars[i].slot.key, vars[i].value, vars[i].version)
    ensures IsListing(t, serviceId, pbvars)
  {
    forall slot | slot in t.variables && slot.serviceId == serviceId
      ensures PbVariable(slot.key, t.variables[slot].value, t.variables[slot].version) in pbvars
    {
      var i :| 0 <= i < |vars| && vars[i].slot == slot;
      assert pbvars[i] in pbvars;
    }
    forall i, j | 0 <= i < j < |pbvars| ensures pbvars[i].key != pbvars[j].key {
      assert vars[i].slot != vars[j].slot;
    }
  }

  /** `t` and `serviceId` are the tables and the service the rows were read from. */
  method SendSnapshot(vars: seq<Variable>, ghost t: Tables, ghost serviceId: int) returns (msg: Msg)
    ensures msg.Snapshot? && |msg.vars| == |vars|
    ensures forall i :: 0 <= i < |vars| ==>
      && msg.vars[i].key == vars[i].slot.key && msg.vars[i].value == vars[i].value
      && msg.vars[i].version == vars[i].version
    ensures ListsRows(t, serviceId, vars) ==>
      IsListing(t, serviceId, msg.vars) && MapOf(msg.vars) == ServiceVars(t, serviceId)
  {
    var pbvars: seq<PbVariable> := [];
    var i := 0;
    while i < |vars|
      invariant 0 <= i <= |vars| && |pbvars| == i
      invariant forall j :: 0 <= j < i ==> pbvars[j] == PbOf(vars[j])
    {
      pbvars := pbvars + [PbOf(vars[i])];
      i := i + 1;
    }
    if ListsRows(t, serviceId, vars) {
      RowsAreListing(t, serviceId, vars, pbvars);
      ListingIsVars(t, serviceId, pbvars);
    }
    return Snapshot(pbvars);
  }

  /** Takes what the channel holds, in order, and sends the variable changes. */
  method Forward(sub: Subscriber, wire: seq<Msg>) returns (wire': seq<Msg>)
    requires sub.Valid()
    modifies sub`ch, sub`taken
    ensures sub.Valid() && sub.ch == []
    ensures sub.taken == old(sub.taken) + old(sub.ch)
    ensures wire' == wire + Messages(old(sub.ch))
  {
    wire' := wire;
    ghost var all := sub.ch;
    ghost var i := 0;
    while sub.ch != []
      invariant 0 <= i <= |all| && sub.Valid()
      invariant sub.ch == all[i..] && sub.taken == old(sub.taken) + all[..i]
      invariant wire' == wire + Messages(all[..i])
      decreases |sub.ch|
    {
      var e := sub.Receive();
      assert all[i..] == [all[i]] + all[i + 1..];
      assert all[..i + 1][..i] == all[..i];
      if e.value.kind == Var {
        wire' := wire' + [ChangeMsg(e.value)];
      }
      i := i + 1;
    }
    assert all[..i] == all;
  }

  lemma {:induction false} MessagesConcat(a: seq<Event>, b: seq<Event>)
    ensures Messages(a + b) == Messages(a) + Messages(b)
  {
    if b == [] {
      assert a + b == a;
    } else {
      MessagesConcat(a, b[..|b| - 1]);
      assert (a + b)[..|a + b| - 1] == a + b[..|b| - 1];
    }
  }

  /** Sent and applied, a channel of one service's events is what the protocol model settles. */
  lemma {:induction false} ForwardedSettles(m: map<string, string>, es: seq<Event>, serviceId: int)
    requires forall e :: e in es ==> e.serviceId == serviceId
    ensures ApplyAll(m, Messages(es)) == Settle(m, es, serviceId)
  {
    if es != [] {
      var rest := es[..|es| - 1];
      ForwardedSettles(m, rest, serviceId);
      assert (Messages(rest) + [ChangeMsg(es[|es| - 1])])[..|Messages(rest)|] == Messages(rest);
      assert es[|es| - 1] in es;
    }
  }
}
