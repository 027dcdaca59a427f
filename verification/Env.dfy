/** Environment files (pkg/incus/env.go): KEY=VALUE lines that are parsed, rendered, merged and edited in place. */
module Env {
  import opened Text

  type Vars = map<string, string>

  /** One pair of surrounding quotes is stripped from a value. */
  function Unquote(v: string): string {
    if |v| >= 2 && (v[0] == '"' || v[0] == '\'') && v[|v| - 1] == v[0] then v[1..|v| - 1] else v
  }

  /** The value a file gives back for a value written after `KEY=`. */
  function ReadBack(v: string): string {
    Unquote(Trim(v))
  }

  /** A key that a KEY=VALUE line can carry. */
  predicate PlainKey(k: string) {
    k != "" && Tight(k) && k[0] != '#' && '=' !in k && '\n' !in k
  }

  /** A value that is trimmed, on one line and not wrapped in quotes. */
  predicate PlainValue(v: string) {
    && '\n' !in v
    && Tight(v)
    && !(|v| >= 2 && (v[0] == '"' || v[0] == '\'') && v[|v| - 1] == v[0])
  }

  predicate PlainVars(env: Vars) {
    forall k :: k in env ==> PlainKey(k) && PlainValue(env[k])
  }

  lemma PlainValueReadsBack(v: string)
    ensures PlainValue(v) <==> '\n' !in v && ReadBack(v) == v
    ensures '\n' !in v ==> '\n' !in ReadBack(v)
  {
    TrimProperties(v);
  }

  // ---------------------------------------------------------------- parsing

  /** What one line declares, if anything. */
  function ParseLine(line: string): Option<(string, string)> {
    var t := Trim(line);
    if t == "" || t[0] == '#' then None else
      var (k, v, ok) := Cut(t, '=');
      if !ok || Trim(k) == "" then None else Some((Trim(k), ReadBack(v)))
  }

  /** The variables after one more line. */
  function Declare(env: Vars, line: string): Vars {
    match ParseLine(line)
    case None => env
    case Some(pair) => env[pair.0 := pair.1]
  }

  /** The variables a list of lines declares; of two lines for one key, the later counts. */
  function EnvOf(lines: seq<string>): Vars {
    if lines == [] then map[] else Declare(EnvOf(lines[..|lines| - 1]), lines[|lines| - 1])
  }

  lemma EnvOfSnoc(lines: seq<string>, line: string)
    ensures EnvOf(lines + [line]) == Declare(EnvOf(lines), line)
  {
    assert (lines + [line])[..|lines|] == lines;
  }

  function ParsedEnv(text: string): Vars {
    EnvOf(Split(text, '\n'))
  }

  method ParseEnv(text: string) returns (env: Vars)
    ensures env == ParsedEnv(text)
  {
    env := map[];
    var lines := Split(text, '\n');
    for n := 0 to |lines|
      invariant env == EnvOf(lines[..n])
    {
      assert lines[..n + 1][..n] == lines[..n];
      var line := Trim(lines[n]);
      if line == "" || line[0] == '#' {
        continue;
      }
      var (k, v, ok) := Cut(line, '=');
      if !ok {
        continue;
      }
      k, v := Trim(k), Trim(v);
      if |v| >= 2 && (v[0] == '"' || v[0] == '\'') && v[|v| - 1] == v[0] {
        v := v[1..|v| - 1];
      }
      if k != "" {
        env := env[k := v];
      }
    }
    assert lines[..|lines|] == lines;
  }

  lemma {:induction false} EnvOfConcat(a: seq<string>, b: seq<string>)
    ensures EnvOf(a + b) == EnvOf(a) + EnvOf(b)
  {
    if b == [] {
      assert a + b == a;
    } else {
      var last := |b| - 1;
      assert (a + b)[..|a + b| - 1] == a + b[..last];
      EnvOfConcat(a, b[..last]);
    }
  }

  /** Everything a file declares is a plain key with a value on one line. */
  lemma ParseLineClean(line: string)
    requires '\n' !in line
    ensures ParseLine(line).Some? ==> PlainKey(ParseLine(line).value.0) && '\n' !in ParseLine(line).value.1
  {
    var t := Trim(line);
    TrimProperties(line);
    var (before, after, ok) := Cut(t, '=');
    if t != "" && t[0] != '#' && ok {
      assert '\n' !in t && '\n' !in after && '\n' !in before;
      TrimProperties(before);
      PlainValueReadsBack(after);
      var k := Trim(before);
      if k != "" {
        TrimLeftProperties(before);
        TrimRightProperties(TrimLeft(before));
        assert k[0] == t[0];
      }
    }
  }

  lemma {:induction false} EnvOfClean(lines: seq<string>)
    requires forall l :: l in lines ==> '\n' !in l
    ensures forall k :: k in EnvOf(lines) ==> PlainKey(k) && '\n' !in EnvOf(lines)[k]
  {
    if lines != [] {
      ParseLineClean(lines[|lines| - 1]);
      EnvOfClean(lines[..|lines| - 1]);
    }
  }

  /** A line written as KEY=VALUE declares that key, with the value as it reads back. */
  lemma ParseKeyValue(k: string, v: string)
    requires PlainKey(k)
    ensures ParseLine(k + "=" + v) == Some((k, ReadBack(v)))
  {
    var line := k + "=" + v;
    assert line[0] == k[0] && TrimLeft(line) == line;
    assert (k + "=")[|k|] == '=';
    TrimRightAfter(k + "=", v);
    assert Trim(line) == k + "=" + TrimRight(v);
    CutAt(k, '=', TrimRight(v));
    TrimProperties(k);
    TrimOfTrimRight(v);
  }

  lemma ParseSpaced(a: string, k: string, b: string, v: string)
    requires Blank(a) && PlainKey(k) && Blank(b)
    ensures ParseLine(a + k + b + "=" + v) == Some((k, ReadBack(v)))
  {
    assert a + k + b + "=" + v == a + ((k + b) + ['='] + v);
    TrimLeftPast(a, (k + b) + ['='] + v);
    TrimmedTo(k + b, v);
    CutAt(k + b, '=', TrimRight(v));
    assert "" + k + b == k + b;
    TrimAround("", k, b);
    TrimOfTrimRight(v);
  }

  lemma TrimmedTo(before: string, v: string)
    requires before != "" && !IsSpace(before[0])
    ensures Trim(before + ['='] + v) == before + ['='] + TrimRight(v)
  {
    var head := before + ['='];
    assert head[|before|] == '=' && (head + v)[0] == before[0];
    TrimRightAfter(head, v);
  }

  /** The lines that declare a variable: a key, an equals sign and a value, with white space around any of them; the
      value as it is, or in a pair of quotes. */
  lemma LineForms(a: string, k: string, b: string, c: string, w: string, d: string)
    requires Blank(a + b + c + d) && PlainKey(k) && Tight(w)
    ensures PlainValue(w) ==> ParseLine(a + k + b + "=" + c + w + d) == Some((k, w))
    ensures forall q, v :: (q == '"' || q == '\'') && w == [q] + v + [q] ==>
      ParseLine(a + k + b + "=" + c + w + d) == Some((k, v))
  {
    BlankParts(a, b, c, d);
    assert a + k + b + "=" + c + w + d == a + k + b + "=" + (c + w + d);
    ParseSpaced(a, k, b, c + w + d);
    TrimAround(c, w, d);
    forall q, v | (q == '"' || q == '\'') && w == [q] + v + [q] ensures Unquote(w) == v {
      assert w[0] == q && w[|w| - 1] == q && w[1..|w| - 1] == v;
    }
  }

  lemma BlankParts(a: string, b: string, c: string, d: string)
    requires Blank(a + b + c + d)
    ensures Blank(a) && Blank(b) && Blank(c) && Blank(d)
  {
    var all := a + b + c + d;
    assert forall x :: x in a || x in b || x in c || x in d ==> x in all;
  }

  /** The lines that declare none: comments, lines without an equals sign and lines with nothing before it. */
  lemma NoVariable(a: string, rest: string)
    requires Blank(a)
    ensures ParseLine(a) == None && ParseLine(a + "#" + rest) == None && ParseLine(a + "=" + rest) == None
    ensures '=' !in rest ==> ParseLine(rest) == None
  {
    TrimAround(a, "", "");
    assert a + "" + "" == a;
    FirstStays(a, '#', rest);
    FirstStays(a, '=', rest);
    TrimProperties(rest);
    assert Trim("") == "";
  }

  lemma FirstStays(a: string, c: char, rest: string)
    requires Blank(a) && !IsSpace(c)
    ensures Trim(a + [c] + rest) == [c] + TrimRight(rest)
  {
    assert a + [c] + rest == a + ([c] + rest);
    TrimLeftPast(a, [c] + rest);
    assert TrimLeft([c] + rest) == [c] + rest;
    TrimRightAfter([c], rest);
  }

  predicate Declares(line: string, k: string) {
    ParseLine(line).Some? && ParseLine(line).value.0 == k
  }

  lemma {:induction false} VariableThere(lines: seq<string>, k: string)
    ensures k in EnvOf(lines) <==> exists line :: line in lines && Declares(line, k)
  {
    if lines != [] {
      var init, last := lines[..|lines| - 1], lines[|lines| - 1];
      assert lines == init + [last] && last in lines;
      VariableThere(init, k);
      assert k in Declare(EnvOf(init), last) <==> k in EnvOf(init) || Declares(last, k);
    }
  }

  /** A variable has the value of the last line that declares it. */
  lemma LastLineCounts(a: seq<string>, line: string, b: seq<string>, k: string)
    requires Declares(line, k) && forall l :: l in b ==> !Declares(l, k)
    ensures k in EnvOf(a + [line] + b) && EnvOf(a + [line] + b)[k] == ParseLine(line).value.1
  {
    EnvOfConcat(a + [line], b);
    EnvOfSnoc(a, line);
    VariableThere(b, k);
  }

  // -------------------------------------------------------------- rendering

  function KeyLines(keys: seq<string>, env: Vars): (lines: seq<string>)
    requires forall k :: k in keys ==> k in env
    ensures |lines| == |keys|
  {
    if keys == [] then [] else [keys[0] + "=" + env[keys[0]]] + KeyLines(keys[1..], env)
  }

  lemma {:induction false} KeyLinesSnoc(keys: seq<string>, k: string, env: Vars)
    requires k in env && forall x :: x in keys ==> x in env
    ensures KeyLines(keys + [k], env) == KeyLines(keys, env) + [k + "=" + env[k]]
  {
    if keys != [] {
      assert (keys + [k])[1..] == keys[1..] + [k];
      KeyLinesSnoc(keys[1..], k, env);
    }
  }

  /** Each line ended by a newline. */
  function Terminated(lines: seq<string>): string {
    if lines == [] then "" else lines[0] + "\n" + Terminated(lines[1..])
  }

  lemma {:induction false} TerminatedConcat(a: seq<string>, b: seq<string>)
    ensures Terminated(a + b) == Terminated(a) + Terminated(b)
  {
    if a == [] {
      assert a + b == b;
    } else {
      assert (a + b)[1..] == a[1..] + b;
      TerminatedConcat(a[1..], b);
    }
  }

  lemma {:induction false} SplitTerminated(lines: seq<string>)
    requires forall l :: l in lines ==> '\n' !in l
    ensures Split(Terminated(lines), '\n') == lines + [""]
  {
    if lines != [] {
      SplitTerminated(lines[1..]);
      SplitConcat(lines[0], '\n', Terminated(lines[1..]));
      SplitWithout(lines[0], '\n');
      assert lines == [lines[0]] + lines[1..];
    }
  }

  function Header(service: string): string {
    "# Managed by native-ops for " + service
  }

  /** The file RenderEnv writes: the header, then the keys in order. */
  ghost function Rendered(service: string, env: Vars): string {
    Terminated([Header(service)] + KeyLines(SortedKeys(env.Keys), env))
  }

  method RenderEnv(service: string, env: Vars) returns (text: string)
    ensures text == Rendered(service, env)
  {
    var keys := SortKeys(env.Keys);
    text := "# Managed by native-ops for " + service + "\n";
    ghost var header := [Header(service)];
    for n := 0 to |keys|
      invariant text == Terminated(header + KeyLines(keys[..n], env))
    {
      RenderStep(header, keys, n, env);
      text := text + (keys[n] + "=" + env[keys[n]] + "\n");
    }
    assert keys[..|keys|] == keys;
  }

  lemma RenderStep(header: seq<string>, keys: seq<string>, n: nat, env: Vars)
    requires n < |keys| && forall k :: k in keys ==> k in env
    ensures Terminated(header + KeyLines(keys[..n + 1], env))
         == Terminated(header + KeyLines(keys[..n], env)) + (keys[n] + "=" + env[keys[n]] + "\n")
  {
    var line := keys[n] + "=" + env[keys[n]];
    assert keys[..n + 1] == keys[..n] + [keys[n]];
    KeyLinesSnoc(keys[..n], keys[n], env);
    assert header + KeyLines(keys[..n + 1], env) == (header + KeyLines(keys[..n], env)) + [line];
    TerminatedConcat(header + KeyLines(keys[..n], env), [line]);
    assert Terminated([line]) == line + "\n" + Terminated([]);
  }

  /** Key lines declare exactly their keys, each with its value as it reads back. */
  lemma {:induction false} EnvOfKeyLines(keys: seq<string>, env: Vars)
    requires forall k :: k in keys ==> k in env && PlainKey(k)
    ensures EnvOf(KeyLines(keys, env)) == map k | k in keys :: ReadBack(env[k])
    decreases |keys|
  {
    if keys != [] {
      var last := |keys| - 1;
      var k := keys[last];
      assert keys == keys[..last] + [k];
      KeyLinesSnoc(keys[..last], k, env);
      EnvOfKeyLines(keys[..last], env);
      ParseKeyValue(k, env[k]);
      assert KeyLines(keys, env)[..last] == KeyLines(keys[..last], env);
    }
  }

  lemma {:induction false} KeyLinesWithoutNewline(keys: seq<string>, env: Vars)
    requires forall k :: k in keys ==> k in env && '\n' !in k && '\n' !in env[k]
    ensures forall l :: l in KeyLines(keys, env) ==> '\n' !in l
  {
    if keys != [] {
      KeyLinesWithoutNewline(keys[1..], env);
    }
  }

  lemma HeaderDeclaresNothing(service: string)
    ensures ParseLine(Header(service)) == None
  {
    var h := Header(service);
    assert h[0] == '#' && TrimLeft(h) == h;
    assert "# Managed by native-ops for"[26] == 'r';
    assert h == "# Managed by native-ops for" + (" " + service);
    TrimRightAfter("# Managed by native-ops for", " " + service);
  }

  /** A rendered file parses back to its variables exactly when every key and value is plain. */
  lemma RenderThenParse(service: string, env: Vars)
    requires '\n' !in service
    ensures ParsedEnv(Rendered(service, env)) == env <==> PlainVars(env)
  {
    EnvOfClean(Split(Rendered(service, env), '\n'));
    if forall k :: k in env ==> PlainKey(k) && '\n' !in env[k] {
      RenderThenRead(service, env);
      ReadBackSame(env);
    }
  }

  lemma ReadBackSame(env: Vars)
    requires forall k :: k in env ==> '\n' !in env[k]
    ensures (map k | k in env :: ReadBack(env[k])) == env <==> forall k :: k in env ==> PlainValue(env[k])
  {
    var read := map k | k in env :: ReadBack(env[k]);
    forall k | k in env ensures PlainValue(env[k]) <==> read[k] == env[k] {
      PlainValueReadsBack(env[k]);
    }
    assert read.Keys == env.Keys;
  }

  /** What a rendered file parses to: every value as it reads back. */
  lemma RenderThenRead(service: string, env: Vars)
    requires '\n' !in service
    requires forall k :: k in env ==> PlainKey(k) && '\n' !in env[k]
    ensures ParsedEnv(Rendered(service, env)) == map k | k in env :: ReadBack(env[k])
  {
    var keys := SortedKeys(env.Keys);
    KeyLinesWithoutNewline(keys, env);
    SplitTerminated([Header(service)] + KeyLines(keys, env));
    EnvOfKeyLines(keys, env);
    OnlyKeyLinesDeclare(service, KeyLines(keys, env));
  }

  lemma OnlyKeyLinesDeclare(service: string, body: seq<string>)
    ensures EnvOf([Header(service)] + body + [""]) == EnvOf(body)
  {
    var head := [Header(service)];
    HeaderDeclaresNothing(service);
    assert EnvOf(head) == map[] by { assert head[..0] == []; }
    assert EnvOf([""]) == map[] by { assert [""][..0] == []; }
    EnvOfConcat(head, body);
    EnvOfConcat(head + body, [""]);
  }

  // ---------------------------------------------------------------- merging

  /** Overlays the declared values on the live ones. */
  method MergeEnv(live: Vars, declared: Vars) returns (merged: Vars, changed: bool)
    ensures merged == live + declared
    ensures changed <==> merged != live
  {
    merged, changed := live, false;
    var todo := declared.Keys;
    while todo != {}
      invariant todo <= declared.Keys
      invariant merged == live + (map k | k in declared.Keys - todo :: declared[k])
      invariant changed <==> exists k :: k in declared.Keys - todo && (k !in live || live[k] != declared[k])
    {
      var k :| k in todo;
      if k !in live || live[k] != declared[k] {
        changed := true;
      }
      merged, todo := merged[k := declared[k]], todo - {k};
    }
    assert (map k | k in declared.Keys :: declared[k]) == declared;
    assert forall k :: k in declared ==> merged[k] == declared[k];
  }
}
