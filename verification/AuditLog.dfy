/** The audit log and its pruner. Ids grow with every insert, though not without gaps; the model
    lists the table's rows by id. */
module AuditLog {
  function Min(a: nat, b: nat): nat {
    if a < b then a else b
  }

  datatype Entry = Entry(id: int, text: string)

  predicate ById(rows: seq<Entry>) {
    forall i, j :: 0 <= i < j < |rows| ==> rows[i].id < rows[j].id
  }

  /** The newest `keep` rows, or all of them. */
  function Newest(rows: seq<Entry>, keep: nat): seq<Entry> {
    if |rows| <= keep then rows else rows[|rows| - keep..]
  }

  /** `a` is the end of `b`. */
  predicate IsSuffix(a: seq<Entry>, b: seq<Entry>) {
    |a| <= |b| && forall i :: 0 <= i < |a| ==> a[i] == b[|b| - |a| + i]
  }

  lemma NewestIsSuffix(rows: seq<Entry>, keep: nat)
    ensures IsSuffix(Newest(rows, keep), rows) && |Newest(rows, keep)| == Min(|rows|, keep)
  {
  }

  /** MIN(id) over SELECT id ... ORDER BY id DESC LIMIT keep: walks the rows from the newest. */
  method SmallestOfTop(rows: seq<Entry>, keep: int) returns (min: int)
    requires ById(rows) && rows != [] && keep > 0
    ensures min == Newest(rows, keep)[0].id
  {
    min := rows[|rows| - 1].id;
    var taken := 1;
    while taken < keep && taken < |rows|
      invariant 1 <= taken <= |rows| && taken <= keep
      invariant min == rows[|rows| - taken].id
    {
      taken := taken + 1;
      if rows[|rows| - taken].id < min {
        min := rows[|rows| - taken].id;
      }
    }
  }

  /** The rows that DELETE ... WHERE id < min leaves. */
  function From(rows: seq<Entry>, min: int): seq<Entry> {
    if rows == [] then [] else
      var rest := From(rows[..|rows| - 1], min);
      if rows[|rows| - 1].id < min then rest else rest + [rows[|rows| - 1]]
  }

  /** Deleting below the id of some row leaves that row and everything newer. */
  lemma {:induction false} FromIsSuffix(rows: seq<Entry>, i: nat)
    requires ById(rows) && i < |rows|
    ensures From(rows, rows[i].id) == rows[i..]
  {
    var front := rows[..|rows| - 1];
    if i < |front| {
      FromIsSuffix(front, i);
      assert rows[i..] == front[i..] + [rows[|rows| - 1]];
    } else {
      NothingFrom(front, rows[i].id);
    }
  }

  lemma {:induction false} NothingFrom(rows: seq<Entry>, min: int)
    requires forall e :: e in rows ==> e.id < min
    ensures From(rows, min) == []
  {
    if rows != [] {
      assert rows[|rows| - 1] in rows;
      assert forall e :: e in rows[..|rows| - 1] ==> e in rows;
      NothingFrom(rows[..|rows| - 1], min);
    }
  }

  /** "Id below the minimum of the newest `keep` ids" deletes exactly all but the newest `keep` rows. */
  lemma PruneKeepsNewest(rows: seq<Entry>, keep: nat)
    requires ById(rows) && rows != [] && keep > 0
    ensures From(rows, Newest(rows, keep)[0].id) == Newest(rows, keep)
  {
    FromIsSuffix(rows, if |rows| <= keep then 0 else |rows| - keep);
  }

  /** `rows` is a suffix of `all` that includes its newest min(keep, total) entries. */
  predicate Surviving(rows: seq<Entry>, all: seq<Entry>, keep: int) {
    && ById(all)
    && IsSuffix(rows, all)
    && |rows| >= if keep > 0 then Min(|all|, keep) else |all|
  }

  lemma InsertSurvives(rows: seq<Entry>, all: seq<Entry>, keep: int, e: Entry)
    requires Surviving(rows, all, keep) && forall x :: x in all ==> x.id < e.id
    ensures Surviving(rows + [e], all + [e], keep)
  {
    assert forall i :: 0 <= i < |all| ==> all[i] in all;
  }

  /** The DELETE statement with its subquery. */
  function Pruned(rows: seq<Entry>, keep: int): seq<Entry> {
    if keep <= 0 || rows == [] then rows else From(rows, Newest(rows, keep)[0].id)
  }

  lemma NewestSurvives(rows: seq<Entry>, all: seq<Entry>, keep: int)
    requires Surviving(rows, all, keep) && keep > 0
    ensures ById(rows)
    ensures Surviving(Newest(rows, keep), all, keep) && Newest(rows, keep) == Newest(all, keep)
  {
  }

  /** One prune leaves the newest min(keep, total) of everything ever inserted. */
  lemma {:induction false} PruneSurvives(rows: seq<Entry>, all: seq<Entry>, keep: int)
    requires Surviving(rows, all, keep) && keep > 0
    ensures ById(rows)
    ensures Surviving(Newest(rows, keep), all, keep)
    ensures Pruned(rows, keep) == Newest(rows, keep) == Newest(all, keep)
    ensures IsSuffix(Pruned(rows, keep), rows)
    ensures |Pruned(rows, keep)| == Min(|rows|, keep) == Min(|all|, keep)
  {
    NewestSurvives(rows, all, keep);
    NewestIsSuffix(rows, keep);
    NewestIsSuffix(all, keep);
    if rows != [] {
      PruneKeepsNewest(rows, keep);
    }
  }

  // ---------- Runs ----------

  /** An insert after `skipped` ids that no row got, or one turn of the pruner. */
  datatype Op = Append(text: string, skipped: nat) | Trim

  /** The table, everything ever inserted, and the next id. */
  datatype History = History(rows: seq<Entry>, all: seq<Entry>, nextId: int)

  function After(h: History, op: Op, keep: int): History {
    match op
    case Append(text, skipped) =>
      var e := Entry(h.nextId + skipped, text);
      History(h.rows + [e], h.all + [e], e.id + 1)
    case Trim => h.(rows := Pruned(h.rows, keep))
  }

  function Run(ops: seq<Op>, keep: int): History {
    if ops == [] then History([], [], 1) else After(Run(ops[..|ops| - 1], keep), ops[|ops| - 1], keep)
  }

  predicate IdsBelow(all: seq<Entry>, nextId: int) {
    forall e :: e in all ==> e.id < nextId
  }

  lemma AppendKeeps(h: History, text: string, skipped: nat, keep: int)
    requires Surviving(h.rows, h.all, keep) && IdsBelow(h.all, h.nextId)
    ensures var h' := After(h, Append(text, skipped), keep);
      Surviving(h'.rows, h'.all, keep) && IdsBelow(h'.all, h'.nextId)
  {
    InsertSurvives(h.rows, h.all, keep, Entry(h.nextId + skipped, text));
  }

  lemma {:induction false} TrimKeeps(rows: seq<Entry>, all: seq<Entry>, keep: int)
    requires Surviving(rows, all, keep)
    ensures Surviving(Pruned(rows, keep), all, keep)
    ensures keep > 0 ==> Pruned(rows, keep) == Newest(all, keep)
  {
    if keep > 0 {
      PruneSurvives(rows, all, keep);
    }
  }

  /** MAIN: after every run of inserts and prunes the surviving rows are a suffix of all rows ever
      inserted that includes the newest min(keep, total); right after a prune they are exactly those. */
  lemma {:induction false} RunSurvives(ops: seq<Op>, keep: int)
    ensures var h := Run(ops, keep);
      && Surviving(h.rows, h.all, keep) && IdsBelow(h.all, h.nextId)
    ensures var h := Run(ops, keep);
      && IsSuffix(h.rows, h.all)
      && (keep <= 0 ==> |h.rows| == |h.all|)
      && (keep > 0 ==> |h.rows| >= Min(|h.all|, keep))
      && (keep > 0 && ops != [] && ops[|ops| - 1] == Trim ==> |h.rows| == Min(|h.all|, keep))
  {
    if ops != [] {
      var h := Run(ops[..|ops| - 1], keep);
      RunSurvives(ops[..|ops| - 1], keep);
      match ops[|ops| - 1]
      case Append(text, skipped) => AppendKeeps(h, text, skipped, keep);
      case Trim => TrimKeeps(h.rows, h.all, keep);
    }
    if keep > 0 {
      NewestIsSuffix(Run(ops, keep).all, keep);
    }
  }

  class Log {
    /** How many entries the pruner keeps; 0 or less switches it off. */
    const keep: int
    var rows: seq<Entry>
    var nextId: int
    ghost var all: seq<Entry>

    /** Holds at any moment of any run of inserts and prunes; `all` is everything ever inserted. */
    ghost predicate Valid()
      reads this
    {
      Surviving(rows, all, keep) && IdsBelow(all, nextId)
    }

    /** The table as the model of runs has it. */
    ghost function State(): History
      reads this
    {
      History(rows, all, nextId)
    }

    constructor (keep: int)
      ensures State() == Run([], keep)
      ensures Valid() && this.keep == keep && rows == [] && all == []
    {
      this.keep, rows, nextId, all := keep, [], 1, [];
    }

    /** `skipped` ids were consumed by inserts that did not commit. */
    method Insert(text: string, skipped: nat) returns (id: int)
      requires Valid()
      modifies this
      ensures Valid()
      ensures all == old(all) + [Entry(id, text)] && rows == old(rows) + [Entry(id, text)]
      ensures State() == After(old(State()), Append(text, skipped), keep)
    {
      id := nextId + skipped;
      InsertSurvives(rows, all, keep, Entry(id, text));
      rows := rows + [Entry(id, text)];
      all := all + [Entry(id, text)];
      nextId := id + 1;
    }

    method Prune() returns (removed: nat)
      requires Valid()
      modifies this`rows
      ensures Valid()
      ensures keep <= 0 ==> removed == 0 && rows == old(rows)
      ensures keep > 0 ==> rows == Newest(old(rows), keep) == Newest(all, keep)
      ensures |rows| == if keep > 0 then Min(|old(rows)|, keep) else |old(rows)|
      ensures IsSuffix(rows, old(rows))
      ensures removed == |old(rows)| - |rows|
      ensures State() == After(old(State()), Trim, keep)
    {
      if keep <= 0 { return 0; }
      PruneSurvives(rows, all, keep);
      var kept := DeleteBelowTop(rows, keep);
      removed := |rows| - |kept|;
      rows := kept;
    }
  }

  method DeleteBelowTop(rows: seq<Entry>, keep: int) returns (kept: seq<Entry>)
    requires ById(rows) && keep > 0
    ensures kept == Pruned(rows, keep)
  {
    if rows == [] { return rows; }
    var min := SmallestOfTop(rows, keep);
    kept := Filter(rows, min);
  }

  method Filter(rows: seq<Entry>, min: int) returns (kept: seq<Entry>)
    ensures kept == From(rows, min)
  {
    kept := [];
    var i := 0;
    while i < |rows|
      invariant 0 <= i <= |rows| && kept == From(rows[..i], min)
    {
      assert rows[..i + 1][..i] == rows[..i];
      if !(rows[i].id < min) {
        kept := kept + [rows[i]];
      }
      i := i + 1;
    }
    assert rows[..i] == rows;
  }
}
