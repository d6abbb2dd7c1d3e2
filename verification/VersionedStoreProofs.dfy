/** Whole-run properties of the versioned store. */
module VersionedStoreProofs {
  import opened Common
  import opened VersionedStore

  lemma HistoryAppend(versions: seq<VersionRow>, row: VersionRow, slot: Slot)
    ensures History(versions + [row], slot)
         == History(versions, slot) + (if row.slot == slot then [row] else [])
    ensures MaxVersion(versions + [row], slot)
         == if row.slot == slot && row.version > MaxVersion(versions, slot) then row.version
            else MaxVersion(versions, slot)
    ensures Replay(versions + [row])
         == if row.change == Delete then Replay(versions) - {row.slot}
            else Replay(versions)[row.slot := Variable(row.slot, row.value, row.version, row.author)]
  {
    assert (versions + [row])[..|versions|] == versions;
  }

  lemma {:induction false} HistoryPrefix(a: seq<VersionRow>, b: seq<VersionRow>, slot: Slot)
    requires a <= b
    ensures History(a, slot) <= History(b, slot)
    decreases |b|
  {
    if |a| < |b| {
      HistoryPrefix(a, b[..|b| - 1], slot);
    } else {
      assert a == b;
    }
  }

  /** Numbering 1..n makes the maximum the length, so the next version extends it without gap. */
  lemma {:induction false} MaxIsLength(versions: seq<VersionRow>, slot: Slot)
    requires forall i :: 0 <= i < |History(versions, slot)| ==> History(versions, slot)[i].version == i + 1
    ensures MaxVersion(versions, slot) == |History(versions, slot)|
  {
    if versions != [] {
      var rest := versions[..|versions| - 1];
      assert forall i :: 0 <= i < |History(rest, slot)| ==> History(rest, slot)[i] == History(versions, slot)[i];
      MaxIsLength(rest, slot);
      var h := History(versions, slot);
      assert versions[|versions| - 1].slot == slot ==>
        h[|h| - 1] == versions[|versions| - 1] && h[|h| - 1].version == |h|;
    }
  }

  lemma LegalVersions(h: seq<VersionRow>)
    requires LegalHistory(h)
    ensures forall i :: 0 <= i < |h| ==> h[i].version == i + 1
  {
    forall i | 0 <= i < |h| ensures h[i].version == i + 1 {
      assert Follows(h[..i], h[i]);
    }
  }

  lemma {:induction false} LegalAppend(h: seq<VersionRow>, row: VersionRow)
    requires LegalHistory(h) && Follows(h, row)
    ensures LegalHistory(h + [row])
  {
    var h' := h + [row];
    forall i | 0 <= i < |h'| ensures Follows(h'[..i], h'[i]) {
      if i < |h| {
        assert h'[..i] == h[..i];
        assert Follows(h[..i], h[i]);
      } else {
        assert h'[..i] == h;
      }
    }
  }

  lemma NextIsLength(t: Tables, slot: Slot)
    requires Consistent(t)
    ensures NextVersion(t.versions, slot) == |History(t.versions, slot)| + 1
  {
    assert SlotConsistent(t, slot);
    LegalVersions(History(t.versions, slot));
    MaxIsLength(t.versions, slot);
  }

  /** Appending one legal row and moving the current row along with it keeps the tables consistent. */
  lemma AppendConsistent(t: Tables, row: VersionRow, t': Tables)
    requires Consistent(t)
    requires Follows(History(t.versions, row.slot), row)
    requires t'.versions == t.versions + [row]
    requires t'.variables == if row.change == Delete then t.variables - {row.slot}
                             else t.variables[row.slot := Variable(row.slot, row.value, row.version, row.author)]
    ensures Consistent(t')
  {
    forall slot ensures SlotConsistent(t', slot) {
      HistoryAppend(t.versions, row, slot);
      var h := History(t.versions, slot);
      assert SlotConsistent(t, slot);
      if slot == row.slot {
        LegalAppend(h, row);
      } else {
        assert History(t'.versions, slot) == h;
      }
    }
  }

  lemma UpsertConsistent(t: Tables, slot: Slot, value: string, author: string)
    requires Consistent(t)
    ensures Consistent(Upserted(t, slot, value, author))
  {
    NextIsLength(t, slot);
    assert SlotConsistent(t, slot);
    var row := VersionRow(slot, value, NextVersion(t.versions, slot), UpsertChange(t, slot), author);
    AppendConsistent(t, row, Upserted(t, slot, value, author));
  }

  lemma {:induction false} UpsertAllConsistent(t: Tables, serviceId: int, kvs: seq<(string, string)>, author: string)
    requires Consistent(t)
    ensures Consistent(UpsertedAll(t, serviceId, kvs, author))
  {
    if kvs != [] {
      var rest := kvs[..|kvs| - 1];
      UpsertAllConsistent(t, serviceId, rest, author);
      var (key, value) := kvs[|kvs| - 1];
      UpsertConsistent(UpsertedAll(t, serviceId, rest, author), Slot(serviceId, key), value, author);
    }
  }

  /** A version found in the log is the row at that position of the slot's history. */
  lemma {:induction false} FindInHistory(versions: seq<VersionRow>, slot: Slot, target: int)
    ensures FindVersion(versions, slot, target).Some? ==>
              exists j :: 0 <= j < |History(versions, slot)|
                       && History(versions, slot)[j] == FindVersion(versions, slot, target).value
    ensures FindVersion(versions, slot, target).Some? ==>
              FindVersion(versions, slot, target).value.version == target
    ensures FindVersion(versions, slot, target).None? ==>
              forall row :: row in History(versions, slot) ==> row.version != target
  {
    if versions != [] {
      var rest := versions[..|versions| - 1];
      var row := versions[|versions| - 1];
      FindInHistory(rest, slot, target);
      var h, h' := History(rest, slot), History(versions, slot);
      if row.slot == slot && row.version == target {
        assert h'[|h'| - 1] == row;
      } else if FindVersion(versions, slot, target).Some? {
        var j :| 0 <= j < |h| && h[j] == FindVersion(rest, slot, target).value;
        assert h'[j] == h[j];
      }
    }
  }

  /** Every transaction, refused or not, keeps table and log consistent. */
  lemma TransactConsistent(t: Tables, op: Op)
    requires Consistent(t)
    ensures Consistent(Transact(t, op))
  {
    if Refusal(t, op).None? {
      match op
      case Upsert(slot, value, author) => UpsertConsistent(t, slot, value, author);
      case Bulk(serviceId, kvs, author) => UpsertAllConsistent(t, serviceId, kvs, author);
      case Remove(slot, author) =>
        NextIsLength(t, slot);
        assert SlotConsistent(t, slot);
        var row := VersionRow(slot, t.variables[slot].value, NextVersion(t.versions, slot), Delete, author);
        AppendConsistent(t, row, Deleted(t, slot, author));
      case RollbackTo(slot, target, author) =>
        NextIsLength(t, slot);
        FindInHistory(t.versions, slot, target);
        var value := FindVersion(t.versions, slot, target).value.value;
        var row := VersionRow(slot, value, NextVersion(t.versions, slot), Rollback, author);
        AppendConsistent(t, row, Transact(t, op));
    }
  }

  lemma {:induction false} RunConsistent(ops: seq<Op>)
    ensures Consistent(Run(ops))
  {
    if ops != [] {
      RunConsistent(ops[..|ops| - 1]);
      TransactConsistent(Run(ops[..|ops| - 1]), ops[|ops| - 1]);
    }
  }

  lemma {:induction false} ReplayAgrees(versions: seq<VersionRow>, slot: Slot)
    ensures Agrees(Tables(Replay(versions), versions), slot)
  {
    if versions != [] {
      ReplayAgrees(versions[..|versions| - 1], slot);
    }
  }

  /** In consistent tables the current table is nothing but a replay of the log. */
  lemma ConsistentIsReplay(t: Tables)
    requires Consistent(t)
    ensures t.variables == Replay(t.versions)
  {
    forall slot
      ensures slot in t.variables <==> slot in Replay(t.versions)
      ensures slot in t.variables ==> t.variables[slot] == Replay(t.versions)[slot]
    {
      ReplayAgrees(t.versions, slot);
      assert SlotConsistent(t, slot);
    }
  }

  /** MAIN: after every run the current table is the replay of the log. */
  lemma TableIsReplay(ops: seq<Op>)
    ensures Run(ops).variables == Replay(Run(ops).versions)
  {
    RunConsistent(ops);
    ConsistentIsReplay(Run(ops));
  }

  /** The change-type grammar: creates only at the start or after a delete, updates and deletes
      only of something present. */
  predicate Grammatical(h: seq<VersionRow>) {
    && (h != [] ==> h[0].change == Create)
    && (forall i :: 0 < i < |h| ==>
          && (h[i].change == Create ==> h[i - 1].change == Delete)
          && (h[i].change == Update || h[i].change == Delete ==> h[i - 1].change != Delete)
          && (h[i].change == Delete ==> h[i].value == h[i - 1].value))
  }

  lemma LegalIsGrammatical(h: seq<VersionRow>)
    requires LegalHistory(h)
    ensures Grammatical(h)
  {
    if h != [] {
      assert Follows(h[..0], h[0]);
    }
    forall i | 0 < i < |h|
      ensures h[i].change == Create ==> h[i - 1].change == Delete
      ensures h[i].change == Update || h[i].change == Delete ==> h[i - 1].change != Delete
      ensures h[i].change == Delete ==> h[i].value == h[i - 1].value
    {
      assert Follows(h[..i], h[i]);
      assert h[..i][i - 1] == h[i - 1];
    }
  }

  /** MAIN: every history of every run is numbered 1..n without gap or repeat and obeys the
      change-type grammar; a key is current iff its last row is not a delete, with that row's
      value and version. */
  lemma RunGrammar(ops: seq<Op>, slot: Slot)
    ensures var h := History(Run(ops).versions, slot);
      && (forall i :: 0 <= i < |h| ==> h[i].version == i + 1)
      && Grammatical(h)
      && (slot in Run(ops).variables <==> h != [] && h[|h| - 1].change != Delete)
      && (slot in Run(ops).variables ==>
            && Run(ops).variables[slot].value == h[|h| - 1].value
            && Run(ops).variables[slot].version == |h|)
  {
    RunConsistent(ops);
    var t := Run(ops);
    assert SlotConsistent(t, slot);
    LegalVersions(History(t.versions, slot));
    LegalIsGrammatical(History(t.versions, slot));
  }

  // ---------- Rollback targets ----------

  /** How many rows of the slot a transaction appended. */
  function Grown(t: Tables, t': Tables, slot: Slot): nat {
    var n, n' := |History(t.versions, slot)|, |History(t'.versions, slot)|;
    if n <= n' then n' - n else 0
  }

  /** For each row of the slot's history, the target version that was asked for, if a rollback wrote it. */
  function Targets(ops: seq<Op>, slot: Slot): seq<Option<int>> {
    if ops == [] then [] else
      var rest, op := ops[..|ops| - 1], ops[|ops| - 1];
      Targets(rest, slot)
        + seq(Grown(Run(rest), Run(ops), slot), _ => if op.RollbackTo? then Some(op.target) else None)
  }

  /** Row `i` is a rollback exactly if it has a target, and then carries the value of that earlier row,
      which is no delete. */
  predicate Followed(h: seq<VersionRow>, targets: seq<Option<int>>, i: nat)
    requires i < |h| && i < |targets|
  {
    && (h[i].change == Rollback <==> targets[i].Some?)
    && (targets[i].Some? ==>
          var v := targets[i].value;
          1 <= v <= i && h[v - 1].change != Delete && h[v - 1].value == h[i].value)
  }

  predicate AllFollowed(h: seq<VersionRow>, targets: seq<Option<int>>) {
    |targets| == |h| && forall i :: 0 <= i < |h| ==> Followed(h, targets, i)
  }

  lemma FollowedAppend(h: seq<VersionRow>, targets: seq<Option<int>>, row: VersionRow, target: Option<int>)
    requires AllFollowed(h, targets)
    requires row.change == Rollback <==> target.Some?
    requires target.Some? ==>
      1 <= target.value <= |h| && h[target.value - 1].change != Delete && h[target.value - 1].value == row.value
    ensures AllFollowed(h + [row], targets + [target])
  {
    forall i | 0 <= i < |h| + 1 ensures Followed(h + [row], targets + [target], i) {
      assert i < |h| ==> Followed(h, targets, i);
    }
  }

  function Untargeted(n: nat): seq<Option<int>> {
    seq(n, _ => None)
  }

  lemma UpsertFollowed(t: Tables, target: Slot, value: string, author: string, slot: Slot,
                       targets: seq<Option<int>>, n: nat)
    requires AllFollowed(History(t.versions, slot), targets + Untargeted(n))
    ensures var t' := Upserted(t, target, value, author);
      var m := if slot == target then 1 else 0;
      && AllFollowed(History(t'.versions, slot), targets + Untargeted(n + m))
      && |History(t'.versions, slot)| == |History(t.versions, slot)| + m
  {
    UpsertAt(t, target, value, author, slot);
    if slot == target {
      var h' := History(Upserted(t, target, value, author).versions, slot);
      FollowedAppend(History(t.versions, slot), targets + Untargeted(n), h'[|h'| - 1], None);
      assert targets + Untargeted(n) + [None] == targets + Untargeted(n + 1);
    }
  }

  /** A bulk upsert writes no rollback rows. */
  lemma {:induction false} BulkFollowed(t: Tables, serviceId: int, kvs: seq<(string, string)>, author: string,
                                        slot: Slot, targets: seq<Option<int>>)
    requires AllFollowed(History(t.versions, slot), targets)
    ensures var t' := UpsertedAll(t, serviceId, kvs, author);
      && AllFollowed(History(t'.versions, slot), targets + Untargeted(Grown(t, t', slot)))
      && |History(t.versions, slot)| <= |History(t'.versions, slot)|
  {
    if kvs == [] {
      assert targets + Untargeted(0) == targets;
    } else {
      var rest := kvs[..|kvs| - 1];
      var (key, value) := kvs[|kvs| - 1];
      var mid := UpsertedAll(t, serviceId, rest, author);
      BulkFollowed(t, serviceId, rest, author, slot, targets);
      UpsertFollowed(mid, Slot(serviceId, key), value, author, slot, targets, Grown(t, mid, slot));
    }
  }

  /** The row with version `v` is the `v`-th of its slot's history. */
  lemma FoundAt(t: Tables, slot: Slot, target: int)
    requires Consistent(t) && FindVersion(t.versions, slot, target).Some?
    ensures var h := History(t.versions, slot);
      1 <= target <= |h| && h[target - 1] == FindVersion(t.versions, slot, target).value
  {
    FindInHistory(t.versions, slot, target);
    assert SlotConsistent(t, slot);
    LegalVersions(History(t.versions, slot));
  }

  /** A single transaction that is not refused appends one row to its slot. */
  lemma WriteFollowed(t: Tables, op: Op, slot: Slot, targets: seq<Option<int>>)
    requires Consistent(t) && AllFollowed(History(t.versions, slot), targets)
    requires !op.Bulk? && Refusal(t, op).None?
    ensures AllFollowed(History(Transact(t, op).versions, slot),
                        targets + if op.slot == slot then [if op.RollbackTo? then Some(op.target) else None] else [])
    ensures |History(Transact(t, op).versions, slot)|
         == |History(t.versions, slot)| + if op.slot == slot then 1 else 0
  {
    var t' := Transact(t, op);
    var row := t'.versions[|t.versions|];
    assert t'.versions == t.versions + [row];
    HistoryAppend(t.versions, row, slot);
    var h := History(t.versions, slot);
    if op.slot != slot {
      assert targets + [] == targets;
    } else if op.RollbackTo? {
      FoundAt(t, slot, op.target);
      FollowedAppend(h, targets, row, Some(op.target));
    } else {
      FollowedAppend(h, targets, row, None);
    }
  }

  lemma {:induction false} TargetsFollowed(ops: seq<Op>, slot: Slot)
    ensures AllFollowed(History(Run(ops).versions, slot), Targets(ops, slot))
  {
    if ops != [] {
      var rest, op := ops[..|ops| - 1], ops[|ops| - 1];
      var t, targets := Run(rest), Targets(rest, slot);
      TargetsFollowed(rest, slot);
      RunConsistent(rest);
      var target := if op.RollbackTo? then Some(op.target) else None;
      if op.Bulk? {
        BulkFollowed(t, op.serviceId, op.kvs, op.author, slot, targets);
        assert seq(Grown(t, Run(ops), slot), _ => target) == Untargeted(Grown(t, Run(ops), slot));
      } else if Refusal(t, op).Some? {
        assert targets + seq(0, _ => target) == targets;
      } else {
        WriteFollowed(t, op, slot, targets);
        assert seq(1, _ => target) == [target] && seq(0, _ => target) == [];
      }
    }
  }

  /** The row that following the targets from row `i` leads to. */
  function Origin(targets: seq<Option<int>>, i: nat): nat
    requires i < |targets|
  {
    if targets[i].Some? && 1 <= targets[i].value <= i then Origin(targets, targets[i].value - 1) else i
  }

  lemma {:induction false} OriginFollowed(h: seq<VersionRow>, targets: seq<Option<int>>, i: nat)
    requires AllFollowed(h, targets) && i < |h| && h[i].change != Delete
    ensures var j := Origin(targets, i);
      && j <= i && (h[i].change == Rollback ==> j < i)
      && h[j].value == h[i].value && (h[j].change == Create || h[j].change == Update)
    decreases i
  {
    assert Followed(h, targets, i);
    if targets[i].Some? {
      OriginFollowed(h, targets, targets[i].value - 1);
    }
  }

  /** MAIN: in every run, following the targets of rollbacks of rollbacks from any row that is no delete
      ends at a create or update row of the same key with the same value, strictly earlier when the row
      is a rollback. */
  lemma {:induction false} RollbackOrigin(ops: seq<Op>, slot: Slot, i: nat)
    requires i < |History(Run(ops).versions, slot)| && History(Run(ops).versions, slot)[i].change != Delete
    ensures |Targets(ops, slot)| == |History(Run(ops).versions, slot)|
    ensures var h, j := History(Run(ops).versions, slot), Origin(Targets(ops, slot), i);
      && j <= i && (h[i].change == Rollback ==> j < i)
      && h[j].value == h[i].value && (h[j].change == Create || h[j].change == Update)
  {
    TargetsFollowed(ops, slot);
    OriginFollowed(History(Run(ops).versions, slot), Targets(ops, slot), i);
  }

  lemma {:induction false} BulkRowsSupplied(t: Tables, serviceId: int, kvs: seq<(string, string)>, author: string,
                                            slot: Slot, row: VersionRow)
    requires row in History(UpsertedAll(t, serviceId, kvs, author).versions, slot)
    ensures row in History(t.versions, slot)
         || exists kv :: kv in kvs && Slot(serviceId, kv.0) == slot && kv.1 == row.value
  {
    if kvs != [] {
      var rest := kvs[..|kvs| - 1];
      var mid := UpsertedAll(t, serviceId, rest, author);
      var (key, value) := kvs[|kvs| - 1];
      var target := Slot(serviceId, key);
      var last := VersionRow(target, value, NextVersion(mid.versions, target), UpsertChange(mid, target), author);
      HistoryAppend(mid.versions, last, slot);
      if row in History(mid.versions, slot) {
        BulkRowsSupplied(t, serviceId, rest, author, slot, row);
      } else {
        assert row == last && kvs[|kvs| - 1] in kvs;
      }
    }
  }

  /** MAIN: no run makes a value current, or even logs one, that no upsert of that key supplied. */
  lemma {:induction false} OnlySuppliedValues(ops: seq<Op>, slot: Slot)
    ensures forall row :: row in History(Run(ops).versions, slot) ==> row.value in Supplied(ops, slot)
    ensures slot in Run(ops).variables ==> Run(ops).variables[slot].value in Supplied(ops, slot)
  {
    if ops != [] {
      var rest := ops[..|ops| - 1];
      var op := ops[|ops| - 1];
      var t, t' := Run(rest), Run(ops);
      OnlySuppliedValues(rest, slot);
      forall row | row in History(t'.versions, slot) && row !in History(t.versions, slot)
        ensures row.value in Supplied(ops, slot)
      {
        NewRowSupplied(t, op, rest, slot, row);
      }
    }
    RunConsistent(ops);
    assert SlotConsistent(Run(ops), slot);
  }

  lemma NewRowSupplied(t: Tables, op: Op, rest: seq<Op>, slot: Slot, row: VersionRow)
    requires t == Run(rest)
    requires forall r :: r in History(t.versions, slot) ==> r.value in Supplied(rest, slot)
    requires slot in t.variables ==> t.variables[slot].value in Supplied(rest, slot)
    requires row in History(Transact(t, op).versions, slot) && row !in History(t.versions, slot)
    ensures row.value in Supplied(rest + [op], slot)
  {
    assert (rest + [op])[..|rest|] == rest;
    match op
    case Upsert(s, value, author) =>
      HistoryAppend(t.versions, VersionRow(s, value, NextVersion(t.versions, s), UpsertChange(t, s), author), slot);
    case Bulk(serviceId, kvs, author) =>
      BulkRowsSupplied(t, serviceId, kvs, author, slot, row);
    case Remove(s, author) =>
      if s in t.variables {
        HistoryAppend(t.versions,
          VersionRow(s, t.variables[s].value, NextVersion(t.versions, s), Delete, author), slot);
      }
    case RollbackTo(s, target, author) =>
      if Refusal(t, op).None? {
        FindInHistory(t.versions, s, target);
        var value := FindVersion(t.versions, s, target).value.value;
        HistoryAppend(t.versions, VersionRow(s, value, NextVersion(t.versions, s), Rollback, author), slot);
      }
  }

  // ---------- What each transaction does, in terms of the log's rows ----------

  /** `t'` is `t` with `row` logged, and the current row of its slot replaced, or removed by a delete. */
  ghost predicate Logged(t: Tables, row: VersionRow, t': Tables) {
    && t'.versions == t.versions + [row]
    && (forall slot :: slot != row.slot ==> Lookup(t'.variables, slot) == Lookup(t.variables, slot))
    && Lookup(t'.variables, row.slot)
         == if row.change == Delete then None else Some(Variable(row.slot, row.value, row.version, row.author))
  }

  lemma UpsertLogs(t: Tables, slot: Slot, value: string, author: string)
    requires Consistent(t)
    ensures var change := if slot in t.variables then Update else Create;
      Logged(t, VersionRow(slot, value, |History(t.versions, slot)| + 1, change, author),
             Transact(t, Upsert(slot, value, author)))
  {
    NextIsLength(t, slot);
  }

  lemma RemoveLogs(t: Tables, slot: Slot, author: string)
    requires Consistent(t)
    ensures Refusal(t, Remove(slot, author)) == if slot in t.variables then None else Some(NotFound)
    ensures slot in t.variables ==>
      Logged(t, VersionRow(slot, t.variables[slot].value, |History(t.versions, slot)| + 1, Delete, author),
             Transact(t, Remove(slot, author)))
  {
    NextIsLength(t, slot);
  }

  lemma NoneOutside(t: Tables, slot: Slot, target: int)
    requires Consistent(t) && FindVersion(t.versions, slot, target).None?
    ensures target < 1 || target > |History(t.versions, slot)|
  {
    var h := History(t.versions, slot);
    assert SlotConsistent(t, slot);
    LegalVersions(h);
    if 1 <= target <= |h| {
      assert h[target - 1] in h;
      FindInHistory(t.versions, slot, target);
    }
  }

  /** Which rollbacks are refused, how, and what the others log. */
  lemma RollbackLogs(t: Tables, slot: Slot, target: int, author: string)
    requires Consistent(t)
    ensures var h := History(t.versions, slot);
      Refusal(t, RollbackTo(slot, target, author))
        == if target < 1 || target > |h| then Some(NotFound)
           else if h[target - 1].change == Delete then Some(RollbackToDelete) else None
    ensures var h := History(t.versions, slot);
      1 <= target <= |h| && h[target - 1].change != Delete ==>
        Logged(t, VersionRow(slot, h[target - 1].value, |h| + 1, Rollback, author),
               Transact(t, RollbackTo(slot, target, author)))
  {
    NextIsLength(t, slot);
    if FindVersion(t.versions, slot, target).Some? {
      FoundAt(t, slot, target);
    } else {
      NoneOutside(t, slot, target);
    }
  }

  // ---------- Bulk upserts do not depend on map iteration order ----------

  /** A bulk upsert leaves the slots it does not mention alone. */
  lemma {:induction false} BulkSkips(t: Tables, serviceId: int, order: seq<(string, string)>, author: string,
                                     slot: Slot)
    requires forall i :: 0 <= i < |order| ==> Slot(serviceId, order[i].0) != slot
    ensures var t' := UpsertedAll(t, serviceId, order, author);
      && Lookup(t'.variables, slot) == Lookup(t.variables, slot)
      && History(t'.versions, slot) == History(t.versions, slot)
      && MaxVersion(t'.versions, slot) == MaxVersion(t.versions, slot)
  {
    if order != [] {
      var n := |order| - 1;
      BulkSkips(t, serviceId, order[..n], author, slot);
      UpsertAt(UpsertedAll(t, serviceId, order[..n], author), Slot(serviceId, order[n].0), order[n].1, author, slot);
    }
  }

  lemma UpsertAt(t: Tables, target: Slot, value: string, author: string, slot: Slot)
    ensures var t' := Upserted(t, target, value, author);
      if slot == target then
        && Lookup(t'.variables, slot) == Some(Variable(slot, value, NextVersion(t.versions, slot), author))
        && History(t'.versions, slot) == History(t.versions, slot)
             + [VersionRow(slot, value, NextVersion(t.versions, slot), UpsertChange(t, slot), author)]
      else
        && Lookup(t'.variables, slot) == Lookup(t.variables, slot)
        && History(t'.versions, slot) == History(t.versions, slot)
        && MaxVersion(t'.versions, slot) == MaxVersion(t.versions, slot)
  {
    HistoryAppend(t.versions,
      VersionRow(target, value, NextVersion(t.versions, target), UpsertChange(t, target), author), slot);
  }

  /** `t'` holds one more row for `slot`, and it is current. */
  predicate SetOnce(t: Tables, t': Tables, slot: Slot, value: string, author: string) {
    var version := NextVersion(t.versions, slot);
    && Lookup(t'.variables, slot) == Some(Variable(slot, value, version, author))
    && History(t'.versions, slot)
         == History(t.versions, slot) + [VersionRow(slot, value, version, UpsertChange(t, slot), author)]
  }

  lemma UpsertSetsOnce(t: Tables, mid: Tables, slot: Slot, value: string, author: string)
    requires Lookup(mid.variables, slot) == Lookup(t.variables, slot)
    requires History(mid.versions, slot) == History(t.versions, slot)
    requires MaxVersion(mid.versions, slot) == MaxVersion(t.versions, slot)
    ensures SetOnce(t, Upserted(mid, slot, value, author), slot, value, author)
  {
    assert Lookup(mid.variables, slot).Some? == Lookup(t.variables, slot).Some?;
    UpsertAt(mid, slot, value, author, slot);
  }

  /** What it leaves in a slot it mentions, in terms of its entry alone. */
  lemma {:induction false} BulkSets(t: Tables, serviceId: int, order: seq<(string, string)>, author: string, i: nat)
    requires i < |order| && forall j, k :: 0 <= j < k < |order| ==> order[j].0 != order[k].0
    ensures SetOnce(t, UpsertedAll(t, serviceId, order, author), Slot(serviceId, order[i].0), order[i].1, author)
  {
    var n := |order| - 1;
    var slot := Slot(serviceId, order[i].0);
    var rest := order[..n];
    var mid := UpsertedAll(t, serviceId, rest, author);
    if i == n {
      BulkSkips(t, serviceId, rest, author, slot);
      UpsertSetsOnce(t, mid, slot, order[n].1, author);
    } else {
      BulkSets(t, serviceId, rest, author, i);
      UpsertAt(mid, Slot(serviceId, order[n].0), order[n].1, author, slot);
    }
  }

  /** MAIN: every iteration order of the same map gives the same current table and the same
      history of every key. */
  lemma BulkOrderIrrelevant(t: Tables, serviceId: int, kv: map<string, string>, author: string,
                            order1: seq<(string, string)>, order2: seq<(string, string)>)
    requires Enumerates(order1, kv) && Enumerates(order2, kv)
    ensures UpsertedAll(t, serviceId, order1, author).variables == UpsertedAll(t, serviceId, order2, author).variables
    ensures forall slot :: History(UpsertedAll(t, serviceId, order1, author).versions, slot)
                        == History(UpsertedAll(t, serviceId, order2, author).versions, slot)
  {
    var t1, t2 := UpsertedAll(t, serviceId, order1, author), UpsertedAll(t, serviceId, order2, author);
    forall slot
      ensures Lookup(t1.variables, slot) == Lookup(t2.variables, slot)
      ensures History(t1.versions, slot) == History(t2.versions, slot)
    {
      if slot.serviceId == serviceId && slot.key in kv {
        var e := (slot.key, kv[slot.key]);
        assert e in order1 && e in order2;
        var i :| 0 <= i < |order1| && order1[i] == e;
        var j :| 0 <= j < |order2| && order2[j] == e;
        BulkSets(t, serviceId, order1, author, i);
        BulkSets(t, serviceId, order2, author, j);
      } else {
        assert forall i :: 0 <= i < |order1| ==> order1[i] in order1;
        assert forall i :: 0 <= i < |order2| ==> order2[i] in order2;
        BulkSkips(t, serviceId, order1, author, slot);
        BulkSkips(t, serviceId, order2, author, slot);
      }
    }
    SameLookups(t1.variables, t2.variables);
  }
}
