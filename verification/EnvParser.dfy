/** The web page's bulk-edit parser of KEY=VALUE lines, and exactly which files it reads back. */
module EnvParser {
  import opened Common
  import opened Handlers
  import opened EnvFile

  /** What String.prototype.trim removes. */
  predicate Blank(c: char) {
    || c == ' ' || '\U{9}' <= c <= '\U{D}' || c == '\U{A0}' || c == '\U{1680}'
    || '\U{2000}' <= c <= '\U{200A}' || c == '\U{2028}' || c == '\U{2029}'
    || c == '\U{202F}' || c == '\U{205F}' || c == '\U{3000}' || c == '\U{FEFF}'
  }

  function TrimStart(s: string): string {
    if s != "" && Blank(s[0]) then TrimStart(s[1..]) else s
  }

  function TrimEnd(s: string): string {
    if s != "" && Blank(s[|s| - 1]) then TrimEnd(s[..|s| - 1]) else s
  }

  function Trim(s: string): string {
    TrimStart(TrimEnd(s))
  }

  predicate Quoted(v: string) {
    |v| >= 2 && v[0] == '"' && v[|v| - 1] == '"'
  }

  function Unquote(v: string): string {
    if Quoted(v) then v[1..|v| - 1] else v
  }

  /** The binding a line makes; blank lines, comments and lines without a key make none. */
  function ParseLine(raw: string): Option<(string, string)> {
    var line := Trim(raw);
    if line == "" || line[0] == '#' then None else
      var eq := IndexOf(line, '=');
      if eq == |line| || eq == 0 then None
      else Some((Trim(line[..eq]), Unquote(Trim(line[eq + 1..]))))
  }

  /** Assigning a string to a plain object's __proto__ leaves the object as it is. */
  const PROTO := "__proto__"

  function Assign(out: map<string, string>, binding: Option<(string, string)>): map<string, string> {
    match binding
    case Some((k, v)) => if k == PROTO then out else out[k := v]
    case None => out
  }

  function ParseLines(lines: seq<string>): map<string, string> {
    if lines == [] then map[] else Assign(ParseLines(lines[..|lines| - 1]), ParseLine(lines[|lines| - 1]))
  }

  lemma ParseNext(lines: seq<string>, i: nat)
    requires i < |lines|
    ensures ParseLines(lines[..i + 1]) == Assign(ParseLines(lines[..i]), ParseLine(lines[i]))
  {
    assert lines[..i + 1][..i] == lines[..i];
  }

  /** The body of the loop over lines, up to the assignment. */
  method ReadLine(raw: string) returns (binding: Option<(string, string)>)
    ensures binding == ParseLine(raw)
  {
    var line := Trim(raw);
    if line == "" || line[0] == '#' { return None; }
    var eq := IndexOf(line, '=');
    if eq == |line| || eq == 0 { return None; }
    var val := Trim(line[eq + 1..]);
    if Quoted(val) {
      val := val[1..|val| - 1];
    }
    return Some((Trim(line[..eq]), val));
  }

  method ParseEnv(text: string) returns (out: map<string, string>)
    ensures out == ParseLines(Lines(text))
  {
    out := map[];
    var lines := Lines(text);
    var i := 0;
    while i < |lines|
      invariant 0 <= i <= |lines|
      invariant out == ParseLines(lines[..i])
    {
      var binding := ReadLine(lines[i]);
      if binding.Some? && binding.value.0 != PROTO {
        out := out[binding.value.0 := binding.value.1];
      }
      ParseNext(lines, i);
      i := i + 1;
    }
    assert lines[..i] == lines;
  }

  // ---------- Trimming ----------

  lemma {:induction false} TrimEndFacts(s: string)
    ensures TrimEnd(s) <= s
    ensures TrimEnd(TrimEnd(s)) == TrimEnd(s)
  {
    if s != "" && Blank(s[|s| - 1]) {
      TrimEndFacts(s[..|s| - 1]);
    }
  }

  lemma {:induction false} TrimStartShrinks(s: string)
    ensures |TrimStart(s)| <= |s|
    ensures |TrimStart(s)| == |s| ==> TrimStart(s) == s
  {
    if s != "" && Blank(s[0]) {
      TrimStartShrinks(s[1..]);
    }
  }

  lemma TrimShrinks(s: string)
    ensures |Trim(s)| <= |s|
    ensures Trim(TrimEnd(s)) == Trim(s)
  {
    TrimEndFacts(s);
    TrimStartShrinks(TrimEnd(s));
  }

  lemma TrimNothing(s: string)
    requires s != "" ==> !Blank(s[0]) && !Blank(s[|s| - 1])
    ensures Trim(s) == s
  {
  }

  lemma {:induction false} TrimEndAfter(a: string, v: string)
    requires a != "" && !Blank(a[|a| - 1])
    ensures TrimEnd(a + v) == a + TrimEnd(v)
  {
    if v == "" {
      assert a + v == a;
    } else {
      assert (a + v)[..|a + v| - 1] == a + v[..|v| - 1];
      if Blank(v[|v| - 1]) {
        TrimEndAfter(a, v[..|v| - 1]);
      }
    }
  }

  lemma KeyCharsPlain(k: string)
    requires KeyOk(k)
    ensures PlainKey(k) && k[0] != '#'
    ensures forall i :: 0 <= i < |k| ==> !Blank(k[i])
  {
    assert forall i :: 0 <= i < |k| ==> KeyChar(k[i]);
  }

  lemma BlankChars(c: char)
    ensures var whitespace :=
        "\U{9}\U{A}\U{B}\U{C}\U{D} \U{A0}\U{1680}\U{2000}\U{2001}\U{2002}\U{2003}\U{2004}\U{2005}" +
        "\U{2006}\U{2007}\U{2008}\U{2009}\U{200A}\U{2028}\U{2029}\U{202F}\U{205F}\U{3000}\U{FEFF}";
      Blank(c) <==> c in whitespace
  {
  }

  lemma {:induction false} TrimEndSplits(s: string) returns (b: string)
    ensures s == TrimEnd(s) + b && forall i :: 0 <= i < |b| ==> Blank(b[i])
    ensures TrimEnd(s) != "" ==> !Blank(TrimEnd(s)[|TrimEnd(s)| - 1])
  {
    b := "";
    if s != "" && Blank(s[|s| - 1]) {
      b := TrimEndSplits(s[..|s| - 1]);
      b := b + [s[|s| - 1]];
    }
  }

  lemma {:induction false} TrimStartSplits(s: string) returns (a: string)
    ensures s == a + TrimStart(s) && forall i :: 0 <= i < |a| ==> Blank(a[i])
    ensures TrimStart(s) != "" ==> !Blank(TrimStart(s)[0])
    ensures TrimStart(s) != "" ==> TrimStart(s)[|TrimStart(s)| - 1] == s[|s| - 1]
  {
    a := "";
    if s != "" && Blank(s[0]) {
      a := TrimStartSplits(s[1..]);
      a := [s[0]] + a;
    }
  }

  /** Trimming takes the whitespace of ECMAScript, line terminators included, off both ends and nothing
      else. */
  lemma TrimSplits(s: string) returns (a: string, b: string)
    ensures s == a + Trim(s) + b
    ensures var whitespace :=
        "\U{9}\U{A}\U{B}\U{C}\U{D} \U{A0}\U{1680}\U{2000}\U{2001}\U{2002}\U{2003}\U{2004}\U{2005}" +
        "\U{2006}\U{2007}\U{2008}\U{2009}\U{200A}\U{2028}\U{2029}\U{202F}\U{205F}\U{3000}\U{FEFF}";
      && (forall i :: 0 <= i < |a| ==> a[i] in whitespace)
      && (forall i :: 0 <= i < |b| ==> b[i] in whitespace)
      && (Trim(s) != "" ==> Trim(s)[0] !in whitespace && Trim(s)[|Trim(s)| - 1] !in whitespace)
  {
    b := TrimEndSplits(s);
    a := TrimStartSplits(TrimEnd(s));
    forall c: char { BlankChars(c); }
  }

  /** A line KEY=rest, whatever blanks end it, binds KEY to the trimmed and unquoted rest. */
  lemma ParseBinding(k: string, rest: string)
    requires KeyOk(k)
    ensures ParseLine(k + "=" + rest) == Some((k, Unquote(Trim(rest))))
  {
    KeyCharsPlain(k);
    var head := k + "=";
    var line := head + TrimEnd(rest);
    TrimEndAfter(head, rest);
    assert line[0] == k[0];
    assert Trim(head + rest) == line;
    IndexOfAt(k, '=', TrimEnd(rest));
    assert line == k + ['='] + TrimEnd(rest);
    assert line[..|k|] == k && line[|k| + 1..] == TrimEnd(rest);
    TrimNothing(k);
    TrimShrinks(rest);
  }

  // ---------- What a line binds ----------

  /** Which lines bind nothing: blank ones, comments, and those without a key before an '='. */
  lemma LineWithoutBinding(raw: string)
    ensures ParseLine(raw).None? <==>
      Trim(raw) == "" || Trim(raw)[0] == '#' || Trim(raw)[0] == '=' || '=' !in Trim(raw)
  {
  }

  /** Any other line is split at its first '='; key and value are trimmed, and the value loses one
      layer of double quotes. */
  lemma LineWithBinding(raw: string, key: string, rest: string)
    requires Trim(raw) == key + "=" + rest && key != "" && key[0] != '#' && '=' !in key
    ensures ParseLine(raw) == Some((Trim(key), Unquote(Trim(rest))))
  {
    var line := Trim(raw);
    IndexOfAt(key, '=', rest);
    assert line == key + ['='] + rest && line[0] == key[0];
    assert line[..|key|] == key && line[|key| + 1..] == rest;
  }

  /** One layer of double quotes around a value is removed, and nothing else. */
  lemma UnquoteLayer(v: string, w: string)
    ensures Unquote("\"" + w + "\"") == w
    ensures (forall inner: string :: v != "\"" + inner + "\"") ==> Unquote(v) == v
  {
    var quoted := "\"" + w + "\"";
    assert quoted[1..|quoted| - 1] == w;
    if Quoted(v) {
      assert v == "\"" + v[1..|v| - 1] + "\"";
    }
  }

  /** Of the lines that bind a key the last one wins. */
  lemma {:induction false} LastLineWins(lines: seq<string>, i: nat, k: string, v: string)
    requires i < |lines| && ParseLine(lines[i]) == Some((k, v)) && k != "__proto__"
    requires forall j :: i < j < |lines| && ParseLine(lines[j]).Some? ==> ParseLine(lines[j]).value.0 != k
    ensures Lookup(ParseLines(lines), k) == Some(v)
  {
    if i < |lines| - 1 {
      LastLineWins(lines[..|lines| - 1], i, k, v);
    }
  }

  /** A key that no line binds is not in the result; neither is __proto__, whatever the lines. */
  lemma {:induction false} UnboundIsAbsent(lines: seq<string>, k: string)
    requires k == "__proto__" || forall line :: line in lines && ParseLine(line).Some? ==> ParseLine(line).value.0 != k
    ensures k !in ParseLines(lines)
  {
    if lines != [] {
      var last := lines[|lines| - 1];
      assert last in lines && forall line :: line in lines[..|lines| - 1] ==> line in lines;
      UnboundIsAbsent(lines[..|lines| - 1], k);
    }
  }

  // ---------- Line ends ----------

  /** The text with the line ends of Windows. */
  function WithCr(text: string): string {
    if text == "" then "" else (if text[0] == '\n' then "\r\n" else [text[0]]) + WithCr(text[1..])
  }

  lemma {:induction false} WithCrConcat(a: string, b: string)
    ensures WithCr(a + b) == WithCr(a) + WithCr(b)
  {
    if a == "" {
      assert a + b == b;
    } else {
      WithCrConcat(a[1..], b);
      assert (a + b)[0] == a[0] && (a + b)[1..] == a[1..] + b;
      Associate(if a[0] == '\n' then "\r\n" else [a[0]], WithCr(a[1..]), WithCr(b));
    }
  }

  lemma {:induction false} WithCrPlain(a: string)
    requires '\n' !in a
    ensures WithCr(a) == a
  {
    if a != "" {
      WithCrPlain(a[1..]);
      assert a == [a[0]] + a[1..];
    }
  }

  lemma WithCrHead(line: string, rest: string)
    requires '\n' !in line
    ensures WithCr(line + "\n" + rest) == (line + "\r") + "\n" + WithCr(rest)
  {
    WithCrConcat(line + "\n", rest);
    WithCrConcat(line, "\n");
    WithCrPlain(line);
    assert WithCr("\n") == "\r\n" by { assert "\n"[1..] == ""; }
    assert line + "\r\n" == (line + "\r") + "\n";
  }

  lemma CrIsTrimmed(line: string)
    ensures ParseLine(line + "\r") == ParseLine(line)
  {
    assert (line + "\r")[..|line|] == line;
  }

  /** The lines are the same but for a carriage return at the end of some. */
  predicate SameButCr(a: seq<string>, b: seq<string>) {
    |a| == |b| && forall i :: 0 <= i < |a| ==> a[i] == b[i] || a[i] == b[i] + "\r"
  }

  lemma SameButCrFirst(x: string, a: seq<string>, y: string, b: seq<string>)
    requires SameButCr(a, b) && x == y + "\r"
    ensures SameButCr([x] + a, [y] + b)
  {
  }

  lemma WithCrLinesNext(line: string, rest: string)
    requires '\n' !in line && SameButCr(Lines(WithCr(rest)), Lines(rest))
    ensures SameButCr(Lines(WithCr(line + "\n" + rest)), Lines(line + "\n" + rest))
  {
    WithCrHead(line, rest);
    LinesHead(line, rest);
    LinesHead(line + "\r", WithCr(rest));
    SameButCrFirst(line + "\r", Lines(WithCr(rest)), line, Lines(rest));
  }

  lemma {:induction false} WithCrLines(text: string)
    ensures SameButCr(Lines(WithCr(text)), Lines(text))
    decreases |text|
  {
    var i := IndexOf(text, '\n');
    assert '\n' !in text[..i];
    if i == |text| {
      WithCrPlain(text);
    } else {
      assert text == text[..i] + "\n" + text[i + 1..];
      WithCrLines(text[i + 1..]);
      WithCrLinesNext(text[..i], text[i + 1..]);
    }
  }

  lemma {:induction false} CrLinesParseAlike(a: seq<string>, b: seq<string>)
    requires SameButCr(a, b)
    ensures ParseLines(a) == ParseLines(b)
  {
    if a != [] {
      CrLinesParseAlike(a[..|a| - 1], b[..|b| - 1]);
      CrIsTrimmed(b[|b| - 1]);
    }
  }

  /** A text with Windows line ends parses as the same text with plain ones. */
  lemma {:induction false} LineEndsDoNotMatter(text: string)
    ensures ParseLines(Lines(WithCr(text))) == ParseLines(Lines(text))
  {
    WithCrLines(text);
    CrLinesParseAlike(Lines(WithCr(text)), Lines(text));
  }

  // ---------- Files ----------

  /** The bindings of `values` for `keys` that an assignment can make. */
  function Bound(keys: seq<string>, values: map<string, string>): map<string, string>
    requires forall k :: k in keys ==> k in values
  {
    map k | k in keys && k != PROTO :: values[k]
  }

  lemma BoundNext(front: seq<string>, k: string, values: map<string, string>)
    requires k in values && forall x :: x in front ==> x in values
    ensures Bound(front + [k], values) == Assign(Bound(front, values), Some((k, values[k])))
  {
  }

  /** The lines bind the keys, in order, to their values. */
  predicate Binds(lines: seq<string>, keys: seq<string>, values: map<string, string>) {
    && |lines| == |keys|
    && (forall k :: k in keys ==> k in values)
    && (forall i {:trigger BindsTo(lines[i], keys[i], values)} ::
          0 <= i < |keys| ==> BindsTo(lines[i], keys[i], values))
  }

  predicate BindsTo(line: string, k: string, values: map<string, string>) {
    k in values && ParseLine(line) == Some((k, values[k]))
  }

  lemma BindsFront(lines: seq<string>, keys: seq<string>, values: map<string, string>)
    requires Binds(lines, keys, values) && keys != []
    ensures Binds(lines[..|keys| - 1], keys[..|keys| - 1], values)
    ensures Assign(Bound(keys[..|keys| - 1], values), ParseLine(lines[|keys| - 1])) == Bound(keys, values)
  {
    var n := |keys| - 1;
    forall i | 0 <= i < n ensures BindsTo(lines[..n][i], keys[..n][i], values) {
      assert BindsTo(lines[i], keys[i], values);
    }
    assert BindsTo(lines[n], keys[n], values);
    BoundNext(keys[..n], keys[n], values);
    assert keys[..n] + [keys[n]] == keys;
  }

  lemma {:induction false} ParseBindings(keys: seq<string>, lines: seq<string>, values: map<string, string>)
    requires Binds(lines, keys, values)
    ensures ParseLines(lines) == Bound(keys, values)
  {
    if keys != [] {
      var n := |keys| - 1;
      BindsFront(lines, keys, values);
      ParseBindings(keys[..n], lines[..n], values);
      ParseNext(lines, n);
      assert lines[..n + 1] == lines;
    }
  }

  lemma ParseIgnoresLast(lines: seq<string>)
    ensures ParseLines(lines + [""]) == ParseLines(lines)
  {
    assert (lines + [""])[..|lines|] == lines;
  }

  /** Free of the characters the agent escapes. */
  predicate Clean(v: string) {
    forall i :: 0 <= i < |v| ==> v[i] != '\\' && v[i] != '"' && v[i] != '\n'
  }

  lemma {:induction false} EscapeKeepsClean(v: string)
    ensures |Escape(v)| >= |v|
    ensures Escape(v) == v <==> Clean(v)
    ensures |Escape(v)| == |v| <==> Clean(v)
  {
    if v != "" {
      EscapeKeepsClean(v[1..]);
      assert v == [v[0]] + v[1..];
      assert Clean(v) <==> v[0] != '\\' && v[0] != '"' && v[0] != '\n' && Clean(v[1..]);
    }
  }

  lemma ParseEnvLine(k: string, v: string)
    requires KeyOk(k)
    ensures ParseLine(EnvLine(k, v)) == Some((k, Escape(v)))
  {
    var quoted := QuoteEnv(v);
    ParseBinding(k, quoted);
    TrimNothing(quoted);
    assert quoted[1..|quoted| - 1] == Escape(v);
  }

  lemma KeysPlain(all: map<string, string>)
    requires forall k :: k in all ==> KeyOk(k)
    ensures forall k :: k in all ==> PlainKey(k)
  {
    forall k | k in all ensures PlainKey(k) {
      KeyCharsPlain(k);
    }
  }

  function Escaped(all: map<string, string>): map<string, string> {
    map k | k in all :: Escape(all[k])
  }

  lemma ParseEnvLines(all: map<string, string>, keys: seq<string>)
    requires forall k :: k in keys ==> k in all && KeyOk(k)
    ensures ParseLines(EnvLines(all, keys)) == Bound(keys, Escaped(all))
  {
    var lines := EnvLines(all, keys);
    forall i | 0 <= i < |keys| ensures BindsTo(lines[i], keys[i], Escaped(all)) {
      assert keys[i] in keys;
      ParseEnvLine(keys[i], all[keys[i]]);
    }
    ParseBindings(keys, lines, Escaped(all));
  }

  /** What the parser makes of the agent's rendering. */
  lemma ParseRendered(all: map<string, string>, keys: seq<string>)
    requires IsKeyList(keys, all.Keys) && forall k :: k in all ==> KeyOk(k)
    ensures ParseLines(Lines(EnvText(all, keys))) == Bound(keys, Escaped(all))
  {
    KeysPlain(all);
    EnvTextLines(all, keys);
    ParseEnvLines(all, keys);
    ParseIgnoresLast(EnvLines(all, keys));
  }

  predicate AllClean(all: map<string, string>) {
    forall k :: k in all ==> Clean(all[k])
  }

  /** MAIN: the parser reads the agent's file back exactly if and only if no value needs escaping and
      no variable is called __proto__. */
  lemma {:induction false} ParseUndoesRendering(all: map<string, string>, keys: seq<string>)
    requires IsKeyList(keys, all.Keys) && forall k :: k in all ==> KeyOk(k)
    ensures ParseLines(Lines(EnvText(all, keys))) == all
       <==> PROTO !in all && AllClean(all)
  {
    ParseRendered(all, keys);
    var parsed := ParseLines(Lines(EnvText(all, keys)));
    forall k | k in all ensures Escape(all[k]) == all[k] <==> Clean(all[k]) {
      EscapeKeepsClean(all[k]);
    }
    if PROTO in all {
      assert PROTO !in parsed;
    } else if k :| k in all && !Clean(all[k]) {
      assert parsed[k] != all[k];
    }
  }

  // ---------- The CLI listing ----------

  function CliLines(all: map<string, string>, keys: seq<string>): seq<string>
    requires forall k :: k in keys ==> k in all
  {
    seq(|keys|, i requires 0 <= i < |keys| => CliLine(keys[i], all[keys[i]]))
  }

  lemma CliLinePlain(k: string, v: string)
    requires PlainKey(k) && '\n' !in v
    ensures '\n' !in CliLine(k, v)
  {
  }

  lemma CliLinesHead(all: map<string, string>, keys: seq<string>)
    requires keys != [] && forall k :: k in keys ==> k in all
    ensures CliLines(all, keys) == [CliLine(keys[0], all[keys[0]])] + CliLines(all, keys[1..])
  {
  }

  lemma {:induction false} CliTextLines(all: map<string, string>, keys: seq<string>)
    requires forall k :: k in keys ==> k in all && PlainKey(k) && '\n' !in all[k]
    ensures Lines(CliText(all, keys)) == CliLines(all, keys) + [""]
  {
    if keys != [] {
      var line, rest := CliLine(keys[0], all[keys[0]]), CliText(all, keys[1..]);
      assert '\n' !in line by { CliLinePlain(keys[0], all[keys[0]]); }
      CliTextLines(all, keys[1..]);
      CliLinesHead(all, keys);
      LinesHead(line, rest);
      Associate([line], CliLines(all, keys[1..]), [""]);
    }
  }

  function Normal(v: string): string {
    Unquote(Trim(v))
  }

  lemma NormalFixed(v: string)
    ensures Normal(v) == v <==> Trim(v) == v && !Quoted(v)
  {
    TrimShrinks(v);
  }

  function Normalized(all: map<string, string>): map<string, string> {
    map k | k in all :: Normal(all[k])
  }

  lemma ParseCliLines(all: map<string, string>, keys: seq<string>)
    requires forall k :: k in keys ==> k in all && KeyOk(k)
    ensures ParseLines(CliLines(all, keys)) == Bound(keys, Normalized(all))
  {
    var lines := CliLines(all, keys);
    forall i | 0 <= i < |keys| ensures BindsTo(lines[i], keys[i], Normalized(all)) {
      assert keys[i] in keys;
      ParseBinding(keys[i], all[keys[i]]);
    }
    ParseBindings(keys, lines, Normalized(all));
  }

  lemma ParseListing(all: map<string, string>, keys: seq<string>)
    requires (forall k :: k in keys <==> k in all) && (forall k :: k in all ==> KeyOk(k) && '\n' !in all[k])
    ensures ParseLines(Lines(CliText(all, keys))) == Bound(keys, Normalized(all))
  {
    KeysPlain(all);
    CliTextLines(all, keys);
    ParseCliLines(all, keys);
    ParseIgnoresLast(CliLines(all, keys));
  }

  lemma {:induction false} LinesHaveNoNewline(text: string)
    ensures forall line :: line in Lines(text) ==> '\n' !in line
    decreases |text|
  {
    var i := IndexOf(text, '\n');
    assert '\n' !in text[..i];
    if i < |text| {
      LinesHaveNoNewline(text[i + 1..]);
    }
  }

  lemma {:induction false} TrimStartWithin(s: string, c: char)
    ensures c in TrimStart(s) ==> c in s
  {
    if s != "" && Blank(s[0]) {
      TrimStartWithin(s[1..], c);
    }
  }

  lemma TrimWithin(s: string, c: char)
    ensures c in Trim(s) ==> c in s
  {
    TrimStartWithin(TrimEnd(s), c);
    TrimEndFacts(s);
  }

  /** No line can give a value with a newline. */
  lemma {:induction false} ParsedHasNoNewline(lines: seq<string>)
    requires forall line :: line in lines ==> '\n' !in line
    ensures forall k :: k in ParseLines(lines) ==> '\n' !in ParseLines(lines)[k]
  {
    if lines != [] {
      var last := lines[|lines| - 1];
      assert last in lines && forall l :: l in lines[..|lines| - 1] ==> l in lines;
      ParsedHasNoNewline(lines[..|lines| - 1]);
      TrimWithin(last, '\n');
      var line := Trim(last);
      var eq := IndexOf(line, '=');
      if eq < |line| {
        TrimWithin(line[eq + 1..], '\n');
      }
    }
  }

  lemma {:induction false} NoProtoParsed(lines: seq<string>)
    ensures PROTO !in ParseLines(lines)
  {
    if lines != [] {
      NoProtoParsed(lines[..|lines| - 1]);
    }
  }

  /** Values that stand on a line of their own and read as themselves. */
  predicate AllListable(all: map<string, string>) {
    forall k :: k in all ==> '\n' !in all[k] && Trim(all[k]) == all[k] && !Quoted(all[k])
  }

  /** MAIN: whatever order the keys are listed in, the parser reads the CLI's listing back exactly if
      and only if every value is free of newlines, trimmed and not itself quoted, and no variable is
      called __proto__. */
  lemma {:induction false} ParseUndoesListing(all: map<string, string>, keys: seq<string>)
    requires (forall k :: k in keys <==> k in all) && (forall k :: k in all ==> KeyOk(k))
    ensures ParseLines(Lines(CliText(all, keys))) == all
       <==> PROTO !in all && AllListable(all)
  {
    var parsed := ParseLines(Lines(CliText(all, keys)));
    LinesHaveNoNewline(CliText(all, keys));
    ParsedHasNoNewline(Lines(CliText(all, keys)));
    NoProtoParsed(Lines(CliText(all, keys)));
    if forall k :: k in all ==> '\n' !in all[k] {
      ParseListing(all, keys);
      forall k | k in all ensures Normal(all[k]) == all[k] <==> Trim(all[k]) == all[k] && !Quoted(all[k]) {
        NormalFixed(all[k]);
      }
      if k :| k in all && k != PROTO && Normal(all[k]) != all[k] {
        assert parsed[k] != all[k];
      }
    }
  }
}
