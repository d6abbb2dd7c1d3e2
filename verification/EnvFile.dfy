/** The sidecar agent's dotenv rendering and its inverse. */
module EnvFile {
  import opened Common

  // ---------- Printing ----------

  /** One pass over the value: backslash, double quote and newline are escaped. */
  function Escape(v: string): string {
    if v == "" then "" else
      (if v[0] == '\\' then "\\\\" else if v[0] == '"' then "\\\"" else if v[0] == '\n' then "\\n" else [v[0]])
        + Escape(v[1..])
  }

  function QuoteEnv(v: string): string {
    "\"" + Escape(v) + "\""
  }

  function EnvLine(k: string, v: string): string {
    k + "=" + QuoteEnv(v)
  }

  /** The lines for `keys` in order, each ended by a newline. */
  function EnvText(all: map<string, string>, keys: seq<string>): string
    requires forall k :: k in keys ==> k in all
  {
    if keys == [] then "" else EnvLine(keys[0], all[keys[0]]) + "\n" + EnvText(all, keys[1..])
  }

  function CliLine(k: string, v: string): string {
    k + "=" + v
  }

  /** The CLI's listing: values as they are. */
  function CliText(all: map<string, string>, keys: seq<string>): string
    requires forall k :: k in keys ==> k in all
  {
    if keys == [] then "" else CliLine(keys[0], all[keys[0]]) + "\n" + CliText(all, keys[1..])
  }

  // ---------- Sorting ----------

  predicate StringLess(a: string, b: string) {
    if b == "" then false
    else if a == "" then true
    else a[0] < b[0] || (a[0] == b[0] && StringLess(a[1..], b[1..]))
  }

  /** Lexicographic order: the strings agree up to some place, where the first ends or has the smaller
      character. */
  predicate SmallerAt(a: string, b: string, i: nat) {
    i <= |a| && i < |b| && a[..i] == b[..i] && (i == |a| || a[i] < b[i])
  }

  lemma {:induction false} StringLessFirstDifference(a: string, b: string)
    ensures StringLess(a, b) <==> exists i: nat :: SmallerAt(a, b, i)
  {
    if a != "" && b != "" {
      StringLessFirstDifference(a[1..], b[1..]);
      if i: nat :| SmallerAt(a[1..], b[1..], i) && a[0] == b[0] {
        assert a[..i + 1] == [a[0]] + a[1..][..i] && b[..i + 1] == [b[0]] + b[1..][..i];
        assert SmallerAt(a, b, i + 1);
      }
      if i: nat :| SmallerAt(a, b, i) && i > 0 {
        assert a[..i][0] == b[..i][0];
        assert a[1..][..i - 1] == a[..i][1..] && b[1..][..i - 1] == b[..i][1..];
        assert SmallerAt(a[1..], b[1..], i - 1);
      }
    }
    assert SmallerAt(a, b, 0) <==> b != "" && (a == "" || a[0] < b[0]);
  }

  predicate Sorted(s: seq<string>) {
    forall i, j :: 0 <= i < j < |s| ==> StringLess(s[i], s[j])
  }

  lemma {:induction false} StringLessTransitive(a: string, b: string, c: string)
    requires StringLess(a, b) && StringLess(b, c)
    ensures StringLess(a, c)
  {
    if a != "" && a[0] == b[0] && b[0] == c[0] {
      StringLessTransitive(a[1..], b[1..], c[1..]);
    }
  }

  lemma {:induction false} StringLessTotal(a: string, b: string)
    ensures a == b || StringLess(a, b) || StringLess(b, a)
    ensures !(StringLess(a, b) && StringLess(b, a))
    ensures !StringLess(a, a)
  {
    if a != "" {
      StringLessTotal(a[1..], a[1..]);
    }
    if a != "" && b != "" && a[0] == b[0] {
      StringLessTotal(a[1..], b[1..]);
      assert a == [a[0]] + a[1..] && b == [b[0]] + b[1..];
    }
  }

  predicate IsKeyList(keys: seq<string>, ks: set<string>) {
    Sorted(keys) && (forall k :: k in keys ==> k in ks) && (forall k :: k in ks ==> k in keys)
  }

  /** A key list ascends in lexicographic order. */
  lemma KeyListAscends(keys: seq<string>, ks: set<string>, i: nat, j: nat) returns (n: nat)
    requires IsKeyList(keys, ks) && i < j < |keys|
    ensures n <= |keys[i]| && n < |keys[j]| && keys[i][..n] == keys[j][..n]
    ensures n == |keys[i]| || keys[i][n] < keys[j][n]
  {
    StringLessFirstDifference(keys[i], keys[j]);
    n :| SmallerAt(keys[i], keys[j], n);
  }

  lemma HeadIsLeast(a: seq<string>, ks: set<string>)
    requires IsKeyList(a, ks) && a != []
    ensures a[0] in ks
    ensures forall k :: k in ks ==> k == a[0] || StringLess(a[0], k)
  {
    assert a[0] in a;
  }

  lemma SameEmptiness(a: seq<string>, b: seq<string>, ks: set<string>)
    requires IsKeyList(a, ks) && IsKeyList(b, ks)
    ensures a == [] <==> b == []
  {
    if a != [] {
      assert a[0] in a && a[0] in b;
    }
    if b != [] {
      assert b[0] in b && b[0] in a;
    }
  }

  /** There is only one sorted list of a set of keys, so the bytes written do not depend on the
      order in which the map yields them. */
  lemma {:induction false} KeyListUnique(a: seq<string>, b: seq<string>, ks: set<string>)
    requires IsKeyList(a, ks) && IsKeyList(b, ks)
    ensures a == b
    decreases |a|
  {
    SameEmptiness(a, b, ks);
    if a != [] {
      HeadIsLeast(a, ks);
      HeadIsLeast(b, ks);
      StringLessTotal(a[0], b[0]);
      TailKeyList(a, ks);
      TailKeyList(b, ks);
      KeyListUnique(a[1..], b[1..], ks - {a[0]});
    }
  }

  lemma TailKeyList(a: seq<string>, ks: set<string>)
    requires IsKeyList(a, ks) && a != []
    ensures IsKeyList(a[1..], ks - {a[0]})
  {
    forall k ensures k in a[1..] <==> k in ks - {a[0]} {
      StringLessTotal(a[0], a[0]);
      assert k in a <==> k == a[0] || k in a[1..];
    }
  }

  /** Inserts a new key at its place. */
  method InsertSorted(s: seq<string>, k: string) returns (r: seq<string>)
    requires Sorted(s) && k !in s
    ensures Sorted(r)
    ensures forall x :: x in r <==> x in s || x == k
  {
    var i := 0;
    while i < |s| && StringLess(s[i], k)
      invariant 0 <= i <= |s|
      invariant forall j :: 0 <= j < i ==> StringLess(s[j], k)
    {
      i := i + 1;
    }
    forall j | i <= j < |s| ensures StringLess(k, s[j]) {
      StringLessTotal(s[i], k);
      assert s[i] in s;
      if j > i {
        StringLessTransitive(k, s[i], s[j]);
      }
    }
    r := s[..i] + [k] + s[i..];
  }

  // ---------- Reading lines ----------

  function IndexOf(s: string, c: char): (i: nat)
    ensures i <= |s|
    ensures forall j :: 0 <= j < i ==> s[j] != c
    ensures i < |s| ==> s[i] == c
  {
    if s == "" || s[0] == c then 0 else 1 + IndexOf(s[1..], c)
  }

  /** The text split at newlines, as split("\n") does: one more piece than newlines. */
  function Lines(text: string): (lines: seq<string>)
    ensures lines != []
    decreases |text|
  {
    var i := IndexOf(text, '\n');
    if i == |text| then [text] else [text[..i]] + Lines(text[i + 1..])
  }

  lemma IndexOfAt(a: string, c: char, b: string)
    requires c !in a
    ensures IndexOf(a + [c] + b, c) == |a|
  {
    var s := a + [c] + b;
    var i := IndexOf(s, c);
    assert s[|a|] == c;
    assert forall j :: 0 <= j < |a| ==> s[j] == a[j];
  }

  lemma LinesHead(line: string, rest: string)
    requires '\n' !in line
    ensures Lines(line + "\n" + rest) == [line] + Lines(rest)
  {
    var text := line + "\n" + rest;
    IndexOfAt(line, '\n', rest);
    assert text[..|line|] == line && text[|line| + 1..] == rest;
  }

  // ---------- The inverse of the rendering ----------

  function Unescape(s: string): string {
    if s == "" then ""
    else if s[0] == '\\' && |s| >= 2 then
      [if s[1] == 'n' then '\n' else s[1]] + Unescape(s[2..])
    else [s[0]] + Unescape(s[1..])
  }

  lemma {:induction false} UnescapeEscape(v: string)
    ensures Unescape(Escape(v)) == v
  {
    if v != "" {
      UnescapeEscape(v[1..]);
      var head :=
        if v[0] == '\\' then "\\\\" else if v[0] == '"' then "\\\"" else if v[0] == '\n' then "\\n" else [v[0]];
      assert Escape(v) == head + Escape(v[1..]);
      assert Escape(v)[|head|..] == Escape(v[1..]);
      assert v == [v[0]] + v[1..];
    }
  }

  lemma {:induction false} EscapeConcat(a: string, b: string)
    ensures Escape(a + b) == Escape(a) + Escape(b)
  {
    if a == "" {
      assert a + b == b;
    } else {
      EscapeConcat(a[1..], b);
      assert (a + b)[0] == a[0] && (a + b)[1..] == a[1..] + b;
      var head :=
        if a[0] == '\\' then "\\\\" else if a[0] == '"' then "\\\"" else if a[0] == '\n' then "\\n" else [a[0]];
      Associate(head, Escape(a[1..]), Escape(b));
    }
  }

  /** Three characters are escaped, wherever they stand, and no other. */
  lemma EscapePieces(a: string, c: char, b: string)
    ensures Escape(a + [c] + b) == Escape(a) + Escape([c]) + Escape(b)
    ensures Escape("\\") == "\\\\" && Escape("\"") == "\\\"" && Escape("\n") == "\\n"
    ensures c != '\\' && c != '"' && c != '\n' ==> Escape([c]) == [c]
  {
    EscapeConcat(a + [c], b);
    EscapeConcat(a, [c]);
  }

  lemma {:induction false} EscapeHasNoNewline(v: string)
    ensures '\n' !in Escape(v)
  {
    if v != "" {
      EscapeHasNoNewline(v[1..]);
    }
  }

  /** The binding on a rendered line: the key up to the first '=', the value unquoted and unescaped. */
  function DecodeLine(line: string): (string, string) {
    var i := IndexOf(line, '=');
    if i + 2 >= |line| then (line[..i], "") else (line[..i], Unescape(line[i + 2..|line| - 1]))
  }

  function DecodeLines(lines: seq<string>): map<string, string> {
    if lines == [] then map[] else
      var (k, v) := DecodeLine(lines[|lines| - 1]);
      DecodeLines(lines[..|lines| - 1])[k := v]
  }

  /** Splits a rendered file into lines, dropping what follows the last newline, and decodes them. */
  function DecodeEnv(text: string): map<string, string> {
    var lines := Lines(text);
    DecodeLines(lines[..|lines| - 1])
  }

  predicate PlainKey(k: string) {
    '=' !in k && '\n' !in k
  }

  lemma DecodeEnvLine(k: string, v: string)
    requires PlainKey(k)
    ensures DecodeLine(EnvLine(k, v)) == (k, v)
    ensures '\n' !in EnvLine(k, v)
  {
    var line := EnvLine(k, v);
    assert line == k + ['='] + QuoteEnv(v);
    IndexOfAt(k, '=', QuoteEnv(v));
    assert line[..|k|] == k;
    assert line[|k| + 2..|line| - 1] == Escape(v);
    UnescapeEscape(v);
    EscapeHasNoNewline(v);
  }

  function EnvLines(all: map<string, string>, keys: seq<string>): seq<string>
    requires forall k :: k in keys ==> k in all
  {
    seq(|keys|, i requires 0 <= i < |keys| => EnvLine(keys[i], all[keys[i]]))
  }

  lemma EnvLinesHead(all: map<string, string>, keys: seq<string>)
    requires keys != [] && forall k :: k in keys ==> k in all
    ensures EnvLines(all, keys) == [EnvLine(keys[0], all[keys[0]])] + EnvLines(all, keys[1..])
  {
  }

  lemma {:induction false} EnvTextLines(all: map<string, string>, keys: seq<string>)
    requires forall k :: k in keys ==> k in all && PlainKey(k)
    ensures Lines(EnvText(all, keys)) == EnvLines(all, keys) + [""]
  {
    if keys != [] {
      var line, rest := EnvLine(keys[0], all[keys[0]]), EnvText(all, keys[1..]);
      assert '\n' !in line by { DecodeEnvLine(keys[0], all[keys[0]]); }
      EnvTextLines(all, keys[1..]);
      EnvLinesHead(all, keys);
      LinesHead(line, rest);
      Associate([line], EnvLines(all, keys[1..]), [""]);
    }
  }

  /** The part of a map on a list of keys. */
  function OnKeys(all: map<string, string>, keys: seq<string>): map<string, string>
    requires forall k :: k in keys ==> k in all
  {
    map k | k in keys :: all[k]
  }

  lemma OnKeysNext(all: map<string, string>, front: seq<string>, k: string)
    requires k in all && forall x :: x in front ==> x in all
    ensures OnKeys(all, front + [k]) == OnKeys(all, front)[k := all[k]]
  {
  }

  lemma {:induction false} DecodeEnvLines(all: map<string, string>, keys: seq<string>)
    requires forall k :: k in keys ==> k in all && PlainKey(k)
    ensures DecodeLines(EnvLines(all, keys)) == OnKeys(all, keys)
  {
    if keys != [] {
      var front, k := keys[..|keys| - 1], keys[|keys| - 1];
      DecodeEnvLines(all, front);
      DecodeEnvLine(k, all[k]);
      assert EnvLines(all, keys)[..|keys| - 1] == EnvLines(all, front);
      OnKeysNext(all, front, k);
      assert front + [k] == keys;
    }
  }

  /** MAIN: the rendering is uniquely decodable for every map whose keys contain neither '=' nor a
      newline, whatever its values. */
  lemma DecodeRendered(all: map<string, string>, keys: seq<string>)
    requires IsKeyList(keys, all.Keys) && forall k :: k in all ==> PlainKey(k)
    ensures DecodeEnv(EnvText(all, keys)) == all
  {
    EnvTextLines(all, keys);
    DecodeEnvLines(all, keys);
    assert (EnvLines(all, keys) + [""])[..|keys|] == EnvLines(all, keys);
  }

  /** Collects the keys in whatever order the map yields them and sorts them. */
  method SortedKeys(all: map<string, string>) returns (keys: seq<string>)
    ensures IsKeyList(keys, all.Keys)
  {
    keys := [];
    var remaining := all.Keys;
    while remaining != {}
      invariant remaining <= all.Keys
      invariant IsKeyList(keys, all.Keys - remaining)
      decreases remaining
    {
      var k :| k in remaining;
      keys := InsertSorted(keys, k);
      remaining := remaining - {k};
    }
  }

  lemma EnvTextNext(all: map<string, string>, keys: seq<string>, i: nat, text: string)
    requires i < |keys| && forall k :: k in keys ==> k in all
    requires text + EnvText(all, keys[i..]) == EnvText(all, keys)
    ensures (text + (EnvLine(keys[i], all[keys[i]]) + "\n")) + EnvText(all, keys[i + 1..]) == EnvText(all, keys)
  {
    assert keys[i..][0] == keys[i] && keys[i..][1..] == keys[i + 1..];
    Associate(text, EnvLine(keys[i], all[keys[i]]) + "\n", EnvText(all, keys[i + 1..]));
  }

  /** The env branch of writeFile: the sorted keys, line by line. What it writes is determined by the
      map, and decodes to it. */
  method WriteEnv(all: map<string, string>) returns (text: string)
    ensures exists keys :: IsKeyList(keys, all.Keys) && text == EnvText(all, keys)
    ensures (forall k :: k in all ==> PlainKey(k)) ==> DecodeEnv(text) == all
  {
    var keys := SortedKeys(all);
    text := "";
    var i := 0;
    while i < |keys|
      invariant 0 <= i <= |keys|
      invariant text + EnvText(all, keys[i..]) == EnvText(all, keys)
    {
      EnvTextNext(all, keys, i, text);
      text := text + (EnvLine(keys[i], all[keys[i]]) + "\n");
      i := i + 1;
    }
    assert text == text + EnvText(all, keys[i..]);
    if forall k :: k in all ==> PlainKey(k) {
      DecodeRendered(all, keys);
    }
  }
}
