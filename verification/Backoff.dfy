/** The clients' reconnect loop: how long they wait after each stream. */
module Backoff {

  function Pow2(n: nat): nat {
    if n == 0 then 1 else 2 * Pow2(n - 1)
  }

  /** Seconds after `n` earlier failures in a row. */
  function Delay(n: nat): nat {
    if Pow2(n) <= 30 then Pow2(n) else 30
  }

  lemma DelayDoubles(n: nat)
    ensures Delay(n + 1) == if 2 * Delay(n) <= 30 then 2 * Delay(n) else 30
  {
  }

  lemma {:induction false} Pow2Passes30(n: nat)
    requires n >= 5
    ensures Pow2(n) > 30
  {
    if n == 5 {
      assert Pow2(5) == 2 * Pow2(4) && Pow2(4) == 2 * Pow2(3) && Pow2(3) == 2 * Pow2(2) && Pow2(2) == 4;
    } else {
      Pow2Passes30(n - 1);
    }
  }

  lemma DelayInFull(n: nat)
    ensures Delay(0) == 1 && Delay(1) == 2 && Delay(2) == 4 && Delay(3) == 8 && Delay(4) == 16
    ensures n >= 5 ==> Delay(n) == 30
  {
    assert Pow2(2) == 4 && Pow2(3) == 2 * Pow2(2) && Pow2(4) == 2 * Pow2(3);
    if n >= 5 {
      Pow2Passes30(n);
    }
  }

  /** How many streams in a row, up to the last of `ended`, ended in an error. */
  function FailuresAtEnd(ended: seq<bool>): nat {
    if ended == [] || ended[|ended| - 1] then 0 else 1 + FailuresAtEnd(ended[..|ended| - 1])
  }

  /** The waits, in units of `unit` per second: one after every stream that ended in an error. */
  function Waits(ended: seq<bool>, unit: nat): seq<nat> {
    if ended == [] then [] else
      var rest := ended[..|ended| - 1];
      if ended[|ended| - 1] then Waits(rest, unit) else Waits(rest, unit) + [unit * Delay(FailuresAtEnd(rest))]
  }

  /** `ended[i]` says that the i-th stream ended without an error, which resets the backoff. */
  method RunLoop(ended: seq<bool>, unit: nat) returns (waits: seq<nat>)
    ensures waits == Waits(ended, unit)
  {
    var backoff := unit;
    var max := 30 * unit;
    waits := [];
    var i := 0;
    while i < |ended|
      invariant 0 <= i <= |ended|
      invariant waits == Waits(ended[..i], unit)
      invariant backoff == unit * Delay(FailuresAtEnd(ended[..i]))
    {
      assert ended[..i + 1][..i] == ended[..i];
      DelayDoubles(FailuresAtEnd(ended[..i]));
      if !ended[i] {
        waits := waits + [backoff];
        ScaledDoubling(Delay(FailuresAtEnd(ended[..i])), unit);
        backoff := backoff * 2;
        if backoff > max {
          backoff := max;
        }
      } else {
        backoff := unit;
      }
      i := i + 1;
    }
    assert ended[..i] == ended;
  }

  lemma WaitsAppend(ended: seq<bool>, clean: bool, unit: nat)
    ensures Waits(ended + [clean], unit)
         == Waits(ended, unit) + if clean then [] else [unit * Delay(FailuresAtEnd(ended))]
    ensures FailuresAtEnd(ended + [clean]) == if clean then 0 else 1 + FailuresAtEnd(ended)
  {
    assert (ended + [clean])[..|ended|] == ended;
  }

  lemma NextDelay(n: nat, unit: nat)
    ensures var wait := unit * Delay(n);
      unit * Delay(n + 1) == if wait * 2 <= 30 * unit then wait * 2 else 30 * unit
  {
    DelayDoubles(n);
    ScaledDoubling(Delay(n), unit);
  }

  /** The waits one by one, `ended` being all streams before. A stream that ends cleanly is followed by
      no wait; the first failure, and the first after a clean stream, by one unit. */
  lemma FirstWait(ended: seq<bool>, unit: nat)
    ensures Waits([], unit) == [] && Waits(ended + [true], unit) == Waits(ended, unit)
    ensures ended == [] || ended[|ended| - 1] ==> Waits(ended + [false], unit) == Waits(ended, unit) + [unit]
  {
    WaitsAppend(ended, true, unit);
    assert Waits(ended, unit) + [] == Waits(ended, unit);
    if ended == [] || ended[|ended| - 1] {
      assert FailuresAtEnd(ended) == 0;
      assert unit * Delay(0) == unit;
      WaitsAppend(ended, false, unit);
    }
  }

  /** Two failures in a row are followed by some wait and then by twice that wait, up to 30 units. */
  lemma DoubledWait(ended: seq<bool>, unit: nat) returns (wait: nat)
    ensures Waits(ended + [false], unit) == Waits(ended, unit) + [wait]
    ensures Waits(ended + [false] + [false], unit)
         == Waits(ended, unit) + [wait] + [if wait * 2 <= 30 * unit then wait * 2 else 30 * unit]
  {
    wait := unit * Delay(FailuresAtEnd(ended));
    WaitsAppend(ended, false, unit);
    WaitsAppend(ended + [false], false, unit);
    NextDelay(FailuresAtEnd(ended), unit);
  }

  lemma ScaledDoubling(d: nat, unit: nat)
    ensures (if (unit * d) * 2 > 30 * unit then 30 * unit else (unit * d) * 2)
         == unit * if 2 * d <= 30 then 2 * d else 30
  {
    if 2 * d <= 30 {
      assert unit * (2 * d) <= unit * 30;
    } else {
      assert unit > 0 ==> unit * (2 * d) > unit * 30;
    }
  }

  /** The Go client's stream function returns only with an error, a server that drains cleanly
      included. So however long each stream had worked, the i-th wait of a process is
      min(2^i, 30) seconds: nothing but a restart resets it. */
  lemma {:induction false} GoNeverResets(ended: seq<bool>, unit: nat, i: nat)
    requires (forall j :: 0 <= j < |ended| ==> !ended[j]) && i < |ended|
    ensures |Waits(ended, unit)| == |ended| && FailuresAtEnd(ended) == |ended|
    ensures Waits(ended, unit)[i] == unit * Delay(i)
  {
    var rest := ended[..|ended| - 1];
    if rest == [] {
      assert FailuresAtEnd(rest) == 0;
    } else {
      GoNeverResets(rest, unit, if i < |rest| then i else 0);
    }
  }
}
