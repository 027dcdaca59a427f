/** SetEnvKeys (pkg/incus/env.go): setting keys in an environment file while every other line stays as it was.
    An edited file is settled: every wanted key has one line, and it holds its value. What a second edit changes
    is only the blank lines at the end of the file, which splitting it into lines again does not see. */
module EnvEdit {
  import opened Text
  import opened Env

  /** strings.TrimRight(text, "\n") */
  function TrimNewlines(text: string): string {
    if text != "" && text[|text| - 1] == '\n' then TrimNewlines(text[..|text| - 1]) else text
  }

  function LinesOf(text: string): seq<string> {
    if text == "" then [] else Split(TrimNewlines(text), '\n')
  }

  /** The key a line sets; a comment or a line without `=` sets none. */
  function KeyOfLine(line: string): Option<string> {
    var t := Trim(line);
    var (k, _, ok) := Cut(t, '=');
    if !ok || t[0] == '#' then None else Some(Trim(k))
  }

  predicate Names(line: string, wanted: Vars) {
    KeyOfLine(line).Some? && KeyOfLine(line).value in wanted
  }

  datatype Edit = Edit(done: set<string>, out: seq<string>)

  /** What one more line does to the edit. */
  function EditLine(e: Edit, line: string, wanted: Vars): Edit {
    if !Names(line, wanted) then e.(out := e.out + [line]) else
      var k := KeyOfLine(line).value;
      if k in e.done then e else Edit(e.done + {k}, e.out + [k + "=" + wanted[k]])
  }

  /** The edited lines, and which keys of wanted have a line among them. */
  function EditLines(lines: seq<string>, wanted: Vars): (e: Edit)
    ensures e.done <= wanted.Keys
  {
    if lines == [] then Edit({}, []) else
      EditLine(EditLines(lines[..|lines| - 1], wanted), lines[|lines| - 1], wanted)
  }

  lemma EditLinesSnoc(lines: seq<string>, n: nat, wanted: Vars)
    requires n < |lines|
    ensures EditLines(lines[..n + 1], wanted) == EditLine(EditLines(lines[..n], wanted), lines[n], wanted)
  {
    assert lines[..n + 1][..n] == lines[..n];
  }

  lemma {:induction false} EditDone(lines: seq<string>, wanted: Vars)
    ensures var e := EditLines(lines, wanted);
      e.done == set l | l in lines && Names(l, wanted) :: KeyOfLine(l).value
  {
    if lines != [] {
      EditDone(lines[..|lines| - 1], wanted);
      assert lines == lines[..|lines| - 1] + [lines[|lines| - 1]];
    }
  }

  ghost function EditedLines(text: string, wanted: Vars): seq<string> {
    var e := EditLines(LinesOf(text), wanted);
    e.out + KeyLines(SortedKeys(wanted.Keys - e.done), wanted)
  }

  /** What SetEnvKeys returns. */
  ghost function Edited(text: string, wanted: Vars): string {
    if wanted == map[] then text else Join(EditedLines(text, wanted), '\n') + "\n"
  }

  method SetEnvKeys(text: string, wanted: Vars) returns (r: string)
    ensures r == Edited(text, wanted)
  {
    if |wanted| == 0 {
      return text;
    }
    var done: set<string>, out: seq<string> := {}, [];
    var lines := Split(TrimNewlines(text), '\n');
    if text == "" {
      lines := [];
    }
    for n := 0 to |lines|
      invariant Edit(done, out) == EditLines(lines[..n], wanted)
    {
      EditLinesSnoc(lines, n, wanted);
      var line := Trim(lines[n]);
      var (k, _, ok) := Cut(line, '=');
      k := Trim(k);
      if ok && k in wanted && line[0] != '#' {
        if k in done {
          continue;
        }
        out, done := out + [k + "=" + wanted[k]], done + {k};
        continue;
      }
      out := out + [lines[n]];
    }
    assert lines[..|lines|] == lines;
    assert Edit(done, out) == EditLines(LinesOf(text), wanted);
    var added := AppendKeys(wanted, wanted.Keys - done);
    r := Join(out + added, '\n') + "\n";
  }

  /** The keys that had no line, in order. */
  method AppendKeys(wanted: Vars, missing: set<string>) returns (out: seq<string>)
    requires missing <= wanted.Keys
    ensures out == KeyLines(SortedKeys(missing), wanted)
  {
    var keys := SortKeys(missing);
    out := [];
    for n := 0 to |keys|
      invariant out == KeyLines(keys[..n], wanted)
    {
      assert keys[..n + 1] == keys[..n] + [keys[n]];
      KeyLinesSnoc(keys[..n], keys[n], wanted);
      out := out + [keys[n] + "=" + wanted[keys[n]]];
    }
    assert keys[..|keys|] == keys;
  }

  // ------------------------------------------------- what the edited file declares

  lemma {:induction false} EditKeepsLinesWhole(lines: seq<string>, wanted: Vars)
    requires forall l :: l in lines ==> '\n' !in l
    requires forall k :: k in wanted ==> '\n' !in k && '\n' !in wanted[k]
    ensures forall l :: l in EditLines(lines, wanted).out ==> '\n' !in l
  {
    if lines != [] {
      EditKeepsLinesWhole(lines[..|lines| - 1], wanted);
    }
  }

  /** A line names a wanted key exactly when parsing would set that key. */
  lemma NamesIsDeclares(line: string, wanted: Vars)
    requires "" !in wanted
    ensures Names(line, wanted) <==> ParseLine(line).Some? && ParseLine(line).value.0 in wanted
    ensures Names(line, wanted) ==> ParseLine(line).value.0 == KeyOfLine(line).value
  {
  }

  /** The wanted values of some keys, as they read back. */
  function Overlay(keys: set<string>, wanted: Vars): Vars
    requires keys <= wanted.Keys
  {
    map k | k in keys :: ReadBack(wanted[k])
  }

  lemma {:induction false} EditedEnv(lines: seq<string>, wanted: Vars)
    requires forall k :: k in wanted ==> PlainKey(k)
    ensures forall k :: k in wanted && k in EnvOf(lines) ==> k in EditLines(lines, wanted).done
    ensures EnvOf(EditLines(lines, wanted).out) == EnvOf(lines) + Overlay(EditLines(lines, wanted).done, wanted)
  {
    if lines != [] {
      EditedEnv(lines[..|lines| - 1], wanted);
      EditedEnvStep(EditLines(lines[..|lines| - 1], wanted), EnvOf(lines[..|lines| - 1]), lines[|lines| - 1], wanted);
    }
  }

  lemma EditedEnvStep(e: Edit, env: Vars, line: string, wanted: Vars)
    requires forall k :: k in wanted ==> PlainKey(k)
    requires e.done <= wanted.Keys && EnvOf(e.out) == env + Overlay(e.done, wanted)
    requires forall k :: k in wanted && k in env ==> k in e.done
    ensures forall k :: k in wanted && k in Declare(env, line) ==> k in EditLine(e, line, wanted).done
    ensures EditLine(e, line, wanted).done <= wanted.Keys
    ensures EnvOf(EditLine(e, line, wanted).out) == Declare(env, line) + Overlay(EditLine(e, line, wanted).done, wanted)
  {
    NamesIsDeclares(line, wanted);
    if Names(line, wanted) {
      var k := KeyOfLine(line).value;
      ParseKeyValue(k, wanted[k]);
      EnvOfSnoc(e.out, k + "=" + wanted[k]);
      OverlayNamed(env, e.done, k, ParseLine(line).value.1, wanted);
    } else {
      EnvOfSnoc(e.out, line);
      if ParseLine(line).Some? {
        OverlayOther(env, e.done, ParseLine(line).value.0, ParseLine(line).value.1, wanted);
      }
    }
  }

  lemma OverlayNamed(env: Vars, done: set<string>, k: string, v: string, wanted: Vars)
    requires done <= wanted.Keys && k in wanted
    ensures k in done ==> env[k := v] + Overlay(done, wanted) == env + Overlay(done, wanted)
    ensures (env + Overlay(done, wanted))[k := ReadBack(wanted[k])] == env[k := v] + Overlay(done + {k}, wanted)
  {
  }

  lemma OverlayOther(env: Vars, done: set<string>, k: string, v: string, wanted: Vars)
    requires done <= wanted.Keys && k !in wanted
    ensures (env + Overlay(done, wanted))[k := v] == env[k := v] + Overlay(done, wanted)
  {
  }

  lemma {:induction false} TrailingNewlinesDeclareNothing(text: string)
    ensures EnvOf(LinesOf(text)) == ParsedEnv(text)
  {
    if text == "" {
      assert [""][..0] == [];
    } else if text[|text| - 1] == '\n' {
      var shorter := text[..|text| - 1];
      TrailingNewlinesDeclareNothing(shorter);
      assert text == shorter + ['\n'] + "";
      SplitConcat(shorter, '\n', "");
      assert (Split(shorter, '\n') + [""])[..|Split(shorter, '\n')|] == Split(shorter, '\n');
      if shorter == "" {
        assert [""][..0] == [];
      }
    }
  }

  lemma EditedLinesWhole(text: string, wanted: Vars)
    requires wanted != map[] && forall k :: k in wanted ==> '\n' !in k && '\n' !in wanted[k]
    ensures EditedLines(text, wanted) != []
    ensures forall l :: l in EditedLines(text, wanted) ==> '\n' !in l
    ensures Split(Edited(text, wanted), '\n') == EditedLines(text, wanted) + [""]
  {
    var e := EditLines(LinesOf(text), wanted);
    EditKeepsLinesWhole(LinesOf(text), wanted);
    EditDone(LinesOf(text), wanted);
    KeyLinesWithoutNewline(SortedKeys(wanted.Keys - e.done), wanted);
    EditKeepsALine(LinesOf(text), wanted);
    var out := EditedLines(text, wanted);
    if e.done == {} {
      var k :| k in wanted;
      assert k in wanted.Keys - e.done;
    }
    SplitJoin(out, '\n');
    assert Edited(text, wanted) == Join(out, '\n') + ['\n'] + "";
    SplitConcat(Join(out, '\n'), '\n', "");
  }

  lemma {:induction false} EditKeepsALine(lines: seq<string>, wanted: Vars)
    ensures EditLines(lines, wanted).done != {} ==> EditLines(lines, wanted).out != []
  {
    if lines != [] {
      EditKeepsALine(lines[..|lines| - 1], wanted);
    }
  }

  /** The edited file declares what the text declared, overlaid by the wanted values as they read back. */
  lemma EditedReads(text: string, wanted: Vars)
    requires wanted != map[]
    requires forall k :: k in wanted ==> PlainKey(k) && '\n' !in wanted[k]
    ensures ParsedEnv(Edited(text, wanted)) == ParsedEnv(text) + Overlay(wanted.Keys, wanted)
  {
    var e := EditLines(LinesOf(text), wanted);
    var added := KeyLines(SortedKeys(wanted.Keys - e.done), wanted);
    EditedDeclares(text, wanted);
    EnvOfConcat(e.out, added);
    KeptDeclares(text, wanted);
    AddedDeclares(wanted.Keys - e.done, wanted);
    OverlaySplit(ParsedEnv(text), e.done, wanted);
  }

  lemma EditedDeclares(text: string, wanted: Vars)
    requires wanted != map[] && forall k :: k in wanted ==> PlainKey(k) && '\n' !in wanted[k]
    ensures ParsedEnv(Edited(text, wanted)) == EnvOf(EditedLines(text, wanted))
  {
    EditedLinesWhole(text, wanted);
    EnvOfSnoc(EditedLines(text, wanted), "");
  }

  lemma KeptDeclares(text: string, wanted: Vars)
    requires forall k :: k in wanted ==> PlainKey(k)
    ensures var e := EditLines(LinesOf(text), wanted);
      EnvOf(e.out) == ParsedEnv(text) + Overlay(e.done, wanted)
  {
    EditedEnv(LinesOf(text), wanted);
    TrailingNewlinesDeclareNothing(text);
  }

  lemma AddedDeclares(rest: set<string>, wanted: Vars)
    requires rest <= wanted.Keys && forall k :: k in wanted ==> PlainKey(k)
    ensures EnvOf(KeyLines(SortedKeys(rest), wanted)) == Overlay(rest, wanted)
  {
    EnvOfKeyLines(SortedKeys(rest), wanted);
  }

  lemma OverlaySplit(env: Vars, done: set<string>, wanted: Vars)
    requires done <= wanted.Keys
    ensures (env + Overlay(done, wanted)) + Overlay(wanted.Keys - done, wanted) == env + Overlay(wanted.Keys, wanted)
  {
  }

  /** SetEnvKeys overlays the wanted values on what the text declared, exactly when each of them is plain. */
  lemma SetThenParse(text: string, wanted: Vars)
    ensures ParsedEnv(Edited(text, wanted)) == ParsedEnv(text) + wanted <==> PlainVars(wanted)
  {
    if wanted == map[] {
      assert ParsedEnv(text) + wanted == ParsedEnv(text);
    } else if forall k :: k in wanted ==> PlainKey(k) && '\n' !in wanted[k] {
      EditedReads(text, wanted);
      OverlayIsWanted(ParsedEnv(text), wanted);
    } else {
      EnvOfClean(Split(Edited(text, wanted), '\n'));
      var k :| k in wanted && !(PlainKey(k) && '\n' !in wanted[k]);
      assert (ParsedEnv(text) + wanted)[k] == wanted[k];
    }
  }

  lemma OverlayIsWanted(env: Vars, wanted: Vars)
    requires forall k :: k in wanted ==> PlainKey(k) && '\n' !in wanted[k]
    ensures env + Overlay(wanted.Keys, wanted) == env + wanted <==> PlainVars(wanted)
  {
    forall k | k in wanted
      ensures PlainValue(wanted[k]) <==> (env + Overlay(wanted.Keys, wanted))[k] == (env + wanted)[k]
    {
      PlainValueReadsBack(wanted[k]);
    }
  }

  // --------------------------------------------------------- lines that are kept

  /** The lines that set none of the wanted keys. */
  function Others(lines: seq<string>, wanted: Vars): seq<string> {
    if lines == [] then [] else
      var line, before := lines[|lines| - 1], Others(lines[..|lines| - 1], wanted);
      if Names(line, wanted) then before else before + [line]
  }

  /** The first line for a wanted key is replaced where it stands: what comes before it comes before its new line. */
  lemma ReplacedInPlace(text: string, a: seq<string>, line: string, b: seq<string>, wanted: Vars)
    requires LinesOf(text) == a + [line] + b && Names(line, wanted)
    requires forall l :: l in a ==> KeyOfLine(l) != KeyOfLine(line)
    ensures var k := KeyOfLine(line).value;
      EditLines(a, wanted).out + [k + "=" + wanted[k]] <= EditedLines(text, wanted)
  {
    EditDone(a, wanted);
    assert (a + [line])[..|a|] == a;
    OutGrows(a + [line], b, wanted);
  }

  lemma {:induction false} OutGrows(a: seq<string>, b: seq<string>, wanted: Vars)
    ensures EditLines(a, wanted).out <= EditLines(a + b, wanted).out
  {
    if b != [] {
      assert (a + b)[..|a + b| - 1] == a + b[..|b| - 1];
      OutGrows(a, b[..|b| - 1], wanted);
    } else {
      assert a + b == a;
    }
  }

  /** Comments and lines for other keys stay, in order and unchanged. */
  lemma {:induction false} OthersKept(lines: seq<string>, wanted: Vars)
    requires forall k :: k in wanted ==> PlainKey(k)
    ensures Others(EditLines(lines, wanted).out, wanted) == Others(lines, wanted)
  {
    if lines != [] {
      var line, before := lines[|lines| - 1], lines[..|lines| - 1];
      var e, e' := EditLines(before, wanted), EditLines(lines, wanted);
      OthersKept(before, wanted);
      if e'.out != e.out {
        assert e'.out[..|e.out|] == e.out;
      }
      if Names(line, wanted) {
        var k := KeyOfLine(line).value;
        ParseKeyValue(k, wanted[k]);
        NamesIsDeclares(k + "=" + wanted[k], wanted);
      }
    }
  }

  // ------------------------------------------------------------------ idempotence

  /** Every line for a wanted key already has its value, and no wanted key has two lines. */
  ghost predicate Settled(lines: seq<string>, wanted: Vars) {
    lines == [] ||
    var line, before := lines[|lines| - 1], lines[..|lines| - 1];
    && Settled(before, wanted)
    && (Names(line, wanted) ==>
         var k := KeyOfLine(line).value;
         line == k + "=" + wanted[k] && !HasLine(before, k))
  }

  lemma SettledSnoc(lines: seq<string>, line: string, wanted: Vars)
    requires Settled(lines, wanted)
    requires Names(line, wanted) ==>
      line == KeyOfLine(line).value + "=" + wanted[KeyOfLine(line).value] && !HasLine(lines, KeyOfLine(line).value)
    ensures Settled(lines + [line], wanted)
  {
    assert (lines + [line])[..|lines|] == lines;
  }

  ghost predicate HasLine(lines: seq<string>, k: string) {
    exists l :: l in lines && KeyOfLine(l) == Some(k)
  }

  /** Every wanted key has a line. */
  ghost predicate Complete(lines: seq<string>, wanted: Vars) {
    forall k :: k in wanted ==> HasLine(lines, k)
  }

  lemma KeyLineNames(k: string, wanted: Vars)
    requires k in wanted && PlainKey(k) && "" !in wanted
    ensures Names(k + "=" + wanted[k], wanted) && KeyOfLine(k + "=" + wanted[k]) == Some(k)
  {
    ParseKeyValue(k, wanted[k]);
    NamesIsDeclares(k + "=" + wanted[k], wanted);
  }

  lemma {:induction false} EditSettles(lines: seq<string>, wanted: Vars)
    requires forall k :: k in wanted ==> PlainKey(k)
    ensures Settled(EditLines(lines, wanted).out, wanted)
    ensures forall k :: k in wanted ==>
      (k in EditLines(lines, wanted).done <==> HasLine(EditLines(lines, wanted).out, k))
  {
    if lines != [] {
      var line, e := lines[|lines| - 1], EditLines(lines[..|lines| - 1], wanted);
      EditSettles(lines[..|lines| - 1], wanted);
      if !Names(line, wanted) {
        SettledSnoc(e.out, line, wanted);
        HasLineSnoc(e.out, line);
      } else if KeyOfLine(line).value !in e.done {
        FirstLineSettles(e, line, wanted);
      }
    }
  }

  lemma FirstLineSettles(e: Edit, line: string, wanted: Vars)
    requires forall k :: k in wanted ==> PlainKey(k)
    requires Names(line, wanted) && KeyOfLine(line).value !in e.done && Settled(e.out, wanted)
    requires forall k :: k in wanted ==> (k in e.done <==> HasLine(e.out, k))
    ensures var r := EditLine(e, line, wanted);
      Settled(r.out, wanted) && forall k :: k in wanted ==> (k in r.done <==> HasLine(r.out, k))
  {
    var k := KeyOfLine(line).value;
    KeyLineNames(k, wanted);
    SettledSnoc(e.out, k + "=" + wanted[k], wanted);
    HasLineSnoc(e.out, k + "=" + wanted[k]);
  }

  lemma HasLineSnoc(lines: seq<string>, line: string)
    ensures forall k :: HasLine(lines + [line], k) <==> HasLine(lines, k) || KeyOfLine(line) == Some(k)
  {
    forall k ensures HasLine(lines + [line], k) <==> HasLine(lines, k) || KeyOfLine(line) == Some(k) {
      if KeyOfLine(line) == Some(k) {
        assert line in lines + [line];
      } else if HasLine(lines, k) {
        var l :| l in lines && KeyOfLine(l) == Some(k);
        assert l in lines + [line];
      }
    }
  }

  lemma {:induction false} KeyLinesSettled(front: seq<string>, keys: seq<string>, wanted: Vars)
    requires forall k :: k in wanted ==> PlainKey(k)
    requires forall k :: k in keys ==> k in wanted && !HasLine(front, k)
    requires forall i, j :: 0 <= i < j < |keys| ==> keys[i] != keys[j]
    requires Settled(front, wanted)
    ensures Settled(front + KeyLines(keys, wanted), wanted)
    ensures forall k :: HasLine(front + KeyLines(keys, wanted), k) <==> HasLine(front, k) || k in keys
  {
    if keys == [] {
      assert front + [] == front;
    } else {
      var init := keys[..|keys| - 1];
      KeyLinesSettled(front, init, wanted);
      KeyLinesLast(front + KeyLines(init, wanted), front, keys, wanted);
      KeyLineSettled(front + KeyLines(init, wanted), keys[|keys| - 1], wanted);
      HasLineOfKeys(front, front + KeyLines(init, wanted), front + KeyLines(keys, wanted), keys);
    }
  }

  lemma HasLineOfKeys(front: seq<string>, longer: seq<string>, all: seq<string>, keys: seq<string>)
    requires keys != []
    requires forall k :: HasLine(longer, k) <==> HasLine(front, k) || k in keys[..|keys| - 1]
    requires forall k :: HasLine(all, k) <==> HasLine(longer, k) || k == keys[|keys| - 1]
    ensures forall k :: HasLine(all, k) <==> HasLine(front, k) || k in keys
  {
    assert keys == keys[..|keys| - 1] + [keys[|keys| - 1]];
  }

  lemma KeyLinesLast(longer: seq<string>, front: seq<string>, keys: seq<string>, wanted: Vars)
    requires keys != [] && forall k :: k in keys ==> k in wanted
    requires longer == front + KeyLines(keys[..|keys| - 1], wanted)
    ensures front + KeyLines(keys, wanted) == longer + [keys[|keys| - 1] + "=" + wanted[keys[|keys| - 1]]]
  {
    assert keys == keys[..|keys| - 1] + [keys[|keys| - 1]];
    KeyLinesSnoc(keys[..|keys| - 1], keys[|keys| - 1], wanted);
  }

  lemma KeyLineSettled(front: seq<string>, key: string, wanted: Vars)
    requires forall k :: k in wanted ==> PlainKey(k)
    requires key in wanted && !HasLine(front, key) && Settled(front, wanted)
    ensures Settled(front + [key + "=" + wanted[key]], wanted)
    ensures forall k :: HasLine(front + [key + "=" + wanted[key]], k) <==> HasLine(front, k) || k == key
  {
    KeyLineNames(key, wanted);
    SettledSnoc(front, key + "=" + wanted[key], wanted);
    HasLineSnoc(front, key + "=" + wanted[key]);
  }

  /** The keys done are the wanted ones some line sets. */
  lemma DoneIff(lines: seq<string>, wanted: Vars, k: string)
    ensures k in EditLines(lines, wanted).done <==> k in wanted && HasLine(lines, k)
  {
    EditDone(lines, wanted);
    if k in wanted && HasLine(lines, k) {
      var l :| l in lines && KeyOfLine(l) == Some(k);
      assert Names(l, wanted) && KeyOfLine(l).value == k;
    }
  }

  /** A line that is not for a wanted key, or is the first for its key and has its value, is kept. */
  lemma LineKept(e: Edit, line: string, wanted: Vars)
    requires Names(line, wanted) ==>
      KeyOfLine(line).value !in e.done && line == KeyOfLine(line).value + "=" + wanted[KeyOfLine(line).value]
    ensures EditLine(e, line, wanted).out == e.out + [line]
  {
  }

  /** The last of settled lines fits those before it. */
  ghost predicate FitsAfter(before: seq<string>, line: string, wanted: Vars) {
    Names(line, wanted) ==>
      line == KeyOfLine(line).value + "=" + wanted[KeyOfLine(line).value] && !HasLine(before, KeyOfLine(line).value)
  }

  lemma SettledLast(lines: seq<string>, wanted: Vars)
    requires Settled(lines, wanted) && lines != []
    ensures Settled(lines[..|lines| - 1], wanted) && FitsAfter(lines[..|lines| - 1], lines[|lines| - 1], wanted)
  {
  }

  lemma StaysWith(before: seq<string>, line: string, wanted: Vars)
    requires EditLines(before, wanted).out == before && FitsAfter(before, line, wanted)
    ensures EditLines(before + [line], wanted).out == before + [line]
  {
    if Names(line, wanted) {
      DoneIff(before, wanted, KeyOfLine(line).value);
    }
    LineKept(EditLines(before, wanted), line, wanted);
    assert (before + [line])[..|before|] == before;
  }

  /** Lines that are settled are left exactly as they are. */
  lemma {:induction false} SettledStays(lines: seq<string>, wanted: Vars)
    requires Settled(lines, wanted)
    ensures EditLines(lines, wanted).out == lines
  {
    if lines != [] {
      SettledLast(lines, wanted);
      SettledStays(lines[..|lines| - 1], wanted);
      StaysWith(lines[..|lines| - 1], lines[|lines| - 1], wanted);
      assert lines == lines[..|lines| - 1] + [lines[|lines| - 1]];
    }
  }

  /** The last line that is not a repeat of an earlier line for a wanted key. */
  ghost function LastKept(lines: seq<string>, wanted: Vars): string {
    if lines == [] then "" else
      var line, before := lines[|lines| - 1], lines[..|lines| - 1];
      if Names(line, wanted) && HasLine(before, KeyOfLine(line).value) then LastKept(before, wanted) else line
  }

  /** The edited file ends in a line that is not blank: a key is appended, or the last kept line is not blank. */
  ghost predicate EndsInALine(text: string, wanted: Vars) {
    || !Complete(LinesOf(text), wanted)
    || LastKept(LinesOf(text), wanted) != ""
  }

  /** Both end in a line, or both end blank. */
  predicate EndAlike(out: seq<string>, last: string) {
    last == "" <==> out == [] || out[|out| - 1] == ""
  }

  lemma BlankSetsNothing()
    ensures KeyOfLine("") == None
  {
  }

  lemma LineEnds(e: Edit, line: string, wanted: Vars)
    requires Names(line, wanted) ==> KeyOfLine(line).value !in e.done
    ensures EndAlike(EditLine(e, line, wanted).out, line)
  {
    BlankSetsNothing();
    if Names(line, wanted) {
      var kept := KeyOfLine(line).value + "=" + wanted[KeyOfLine(line).value];
      assert |kept| > 0;
    }
  }

  lemma {:induction false} LastKeptIsLast(lines: seq<string>, wanted: Vars)
    ensures EndAlike(EditLines(lines, wanted).out, LastKept(lines, wanted))
  {
    if lines != [] {
      var line, before := lines[|lines| - 1], lines[..|lines| - 1];
      LastKeptIsLast(before, wanted);
      if Names(line, wanted) {
        DoneIff(before, wanted, KeyOfLine(line).value);
      }
      if !(Names(line, wanted) && HasLine(before, KeyOfLine(line).value)) {
        LineEnds(EditLines(before, wanted), line, wanted);
      }
    }
  }

  lemma EndsInALineIsLast(text: string, wanted: Vars)
    requires wanted != map[] && forall k :: k in wanted ==> PlainKey(k) && PlainValue(wanted[k])
    ensures EditedLines(text, wanted) != []
    ensures EndsInALine(text, wanted) <==> EditedLines(text, wanted)[|EditedLines(text, wanted)| - 1] != ""
  {
    EditedLinesWhole(text, wanted);
    MissingKeys(LinesOf(text), wanted);
    if wanted.Keys == EditLines(LinesOf(text), wanted).done {
      NothingAppended(text, wanted);
    } else {
      SomethingAppended(text, wanted);
    }
  }

  lemma NothingAppended(text: string, wanted: Vars)
    requires wanted.Keys == EditLines(LinesOf(text), wanted).done && EditedLines(text, wanted) != []
    ensures LastKept(LinesOf(text), wanted) != "" <==> EditedLines(text, wanted)[|EditedLines(text, wanted)| - 1] != ""
  {
    assert SortedKeys(wanted.Keys - EditLines(LinesOf(text), wanted).done) == [];
    assert EditedLines(text, wanted) == EditLines(LinesOf(text), wanted).out;
    LastKeptIsLast(LinesOf(text), wanted);
  }

  lemma SomethingAppended(text: string, wanted: Vars)
    requires wanted.Keys != EditLines(LinesOf(text), wanted).done && EditedLines(text, wanted) != []
    ensures EditedLines(text, wanted)[|EditedLines(text, wanted)| - 1] != ""
  {
    LastKeyLine(SortedKeys(wanted.Keys - EditLines(LinesOf(text), wanted).done), wanted);
  }

  lemma LastKeyLine(keys: seq<string>, wanted: Vars)
    requires keys != [] && forall k :: k in keys ==> k in wanted
    ensures KeyLines(keys, wanted)[|keys| - 1] != ""
  {
    var k := keys[|keys| - 1];
    assert keys == keys[..|keys| - 1] + [k];
    KeyLinesSnoc(keys[..|keys| - 1], k, wanted);
  }

  /** The keys still to append are those no line sets. */
  lemma MissingKeys(lines: seq<string>, wanted: Vars)
    ensures wanted.Keys == EditLines(lines, wanted).done <==> Complete(lines, wanted)
  {
    forall k | k in wanted ensures k in EditLines(lines, wanted).done <==> HasLine(lines, k) {
      DoneIff(lines, wanted, k);
    }
  }

  lemma {:induction false} JoinSnoc(lines: seq<string>, last: string, sep: char)
    requires lines != []
    ensures Join(lines + [last], sep) == Join(lines, sep) + [sep] + last
  {
    if |lines| == 1 {
      assert (lines + [last])[1..] == [last];
    } else {
      assert (lines + [last])[1..] == lines[1..] + [last];
      JoinSnoc(lines[1..], last, sep);
    }
  }

  /** Trimming the newlines off joined lines drops the blank lines at the end. */
  lemma {:induction false} TrimJoined(lines: seq<string>) returns (m: nat)
    requires forall l :: l in lines ==> '\n' !in l
    requires exists l :: l in lines && l != ""
    ensures 0 < m <= |lines| && lines[m - 1] != "" && forall i :: m <= i < |lines| ==> lines[i] == ""
    ensures TrimNewlines(Join(lines, '\n') + "\n") == Join(lines[..m], '\n')
    ensures m < |lines| ==> |Join(lines[..m], '\n')| < |Join(lines, '\n')|
  {
    var n := |lines| - 1;
    var last, text := lines[n], Join(lines, '\n');
    assert lines == lines[..n] + [last] && (text + "\n")[..|text|] == text;
    if n > 0 {
      JoinSnoc(lines[..n], last, '\n');
    }
    if last != "" {
      m := |lines|;
      assert lines[..m] == lines;
      assert last in lines && text[|text| - 1] == last[|last| - 1];
    } else {
      assert n > 0 && text == Join(lines[..n], '\n') + "\n";
      m := TrimJoined(lines[..n]);
      assert lines[..n][..m] == lines[..m];
    }
  }

  /** A settled file that names every wanted key is only rewritten line by line. */
  lemma EditOfSettled(text: string, lines: seq<string>, wanted: Vars)
    requires wanted != map[] && LinesOf(text) == lines && Settled(lines, wanted)
    requires Complete(lines, wanted)
    ensures Edited(text, wanted) == Join(lines, '\n') + "\n"
  {
    SettledStays(lines, wanted);
    MissingKeys(lines, wanted);
    assert SortedKeys(wanted.Keys - EditLines(lines, wanted).done) == [];
    assert EditedLines(text, wanted) == lines;
  }

  /** Every wanted key has exactly one line in the edited file, and it holds its value. */
  lemma EditedLinesSettled(text: string, wanted: Vars)
    requires forall k :: k in wanted ==> PlainKey(k) && PlainValue(wanted[k])
    ensures Settled(EditedLines(text, wanted), wanted)
    ensures Complete(EditedLines(text, wanted), wanted)
  {
    var e := EditLines(LinesOf(text), wanted);
    EditSettles(LinesOf(text), wanted);
    SortedKeysDistinct(wanted.Keys - e.done);
    KeyLinesSettled(e.out, SortedKeys(wanted.Keys - e.done), wanted);
  }

  lemma SortedKeysDistinct(s: set<string>)
    ensures forall i, j :: 0 <= i < j < |s| ==> SortedKeys(s)[i] != SortedKeys(s)[j]
  {
    SortedKeysSorted(s);
    forall i, j | 0 <= i < j < |s| ensures SortedKeys(s)[i] != SortedKeys(s)[j] {
      BeforeTotal(SortedKeys(s)[i], SortedKeys(s)[j]);
    }
  }

  /** Setting the same plain keys again leaves the file byte for byte as it was exactly when the first edit
      ends in a line that is not blank. Otherwise the second edit drops blank lines from the end. */
  lemma SetKeysIdempotent(text: string, wanted: Vars)
    requires forall k :: k in wanted ==> PlainKey(k) && PlainValue(wanted[k])
    ensures Edited(Edited(text, wanted), wanted) == Edited(text, wanted)
      <==> wanted == map[] || EndsInALine(text, wanted)
  {
    if wanted != map[] {
      EndsInALineIsLast(text, wanted);
      EditedTwice(text, wanted);
    }
  }

  lemma EditedTwice(text: string, wanted: Vars)
    requires wanted != map[] && forall k :: k in wanted ==> PlainKey(k) && PlainValue(wanted[k])
    requires EditedLines(text, wanted) != []
    ensures Edited(Edited(text, wanted), wanted) == Edited(text, wanted)
      <==> EditedLines(text, wanted)[|EditedLines(text, wanted)| - 1] != ""
  {
    var lines := EditedLines(text, wanted);
    assert forall l :: l in lines ==> '\n' !in l by { EditedLinesWhole(text, wanted); }
    assert Settled(lines, wanted) && Complete(lines, wanted) by { EditedLinesSettled(text, wanted); }
    if lines[|lines| - 1] != "" {
      AgainKeeps(Edited(text, wanted), lines, wanted);
    } else {
      AgainShrinks(Edited(text, wanted), lines, wanted);
    }
  }

  lemma AgainKeeps(text: string, lines: seq<string>, wanted: Vars)
    requires wanted != map[] && lines != [] && text == Join(lines, '\n') + "\n"
    requires lines[|lines| - 1] != "" && forall l :: l in lines ==> '\n' !in l
    requires Settled(lines, wanted) && Complete(lines, wanted)
    ensures Edited(text, wanted) == text
  {
    assert lines[|lines| - 1] in lines;
    var m := LinesAgain(text, lines);
    assert lines[..m] == lines;
    EditOfSettled(text, lines, wanted);
  }

  /** Splitting the edited file gives its lines again, less the blank ones at the end. */
  lemma LinesAgain(text: string, lines: seq<string>) returns (m: nat)
    requires lines != [] && text == Join(lines, '\n') + "\n"
    requires forall l :: l in lines ==> '\n' !in l
    requires exists l :: l in lines && l != ""
    ensures 0 < m <= |lines| && lines[m - 1] != "" && forall i :: m <= i < |lines| ==> lines[i] == ""
    ensures LinesOf(text) == lines[..m]
    ensures m < |lines| ==> |Join(lines[..m], '\n')| < |Join(lines, '\n')|
  {
    m := TrimJoined(lines);
    SplitJoin(lines[..m], '\n');
  }

  lemma {:induction false} SettledPrefix(lines: seq<string>, m: nat, wanted: Vars)
    requires m <= |lines| && Settled(lines, wanted)
    ensures Settled(lines[..m], wanted)
    decreases |lines|
  {
    if m < |lines| {
      SettledPrefix(lines[..|lines| - 1], m, wanted);
      assert lines[..|lines| - 1][..m] == lines[..m];
    } else {
      assert lines[..m] == lines;
    }
  }

  lemma CompletePrefix(lines: seq<string>, m: nat, wanted: Vars)
    requires m <= |lines| && Complete(lines, wanted)
    requires forall i :: m <= i < |lines| ==> lines[i] == ""
    ensures Complete(lines[..m], wanted)
  {
    assert lines == lines[..m] + lines[m..];
    forall k | k in wanted ensures HasLine(lines[..m], k) {
      assert HasLine(lines, k);
      var l :| l in lines && KeyOfLine(l) == Some(k);
      assert l != "";
    }
  }

  lemma SomeLineIsNotBlank(lines: seq<string>, wanted: Vars)
    requires wanted != map[] && Complete(lines, wanted)
    ensures exists l :: l in lines && l != ""
  {
    BlankSetsNothing();
    var k :| k in wanted;
    assert HasLine(lines, k);
  }

  lemma AgainShrinks(text: string, lines: seq<string>, wanted: Vars)
    requires wanted != map[] && lines != [] && text == Join(lines, '\n') + "\n"
    requires lines[|lines| - 1] == "" && forall l :: l in lines ==> '\n' !in l
    requires Settled(lines, wanted) && Complete(lines, wanted)
    ensures |Edited(text, wanted)| < |text|
  {
    SomeLineIsNotBlank(lines, wanted);
    var m := LinesAgain(text, lines);
    SettledPrefix(lines, m, wanted);
    CompletePrefix(lines, m, wanted);
    EditOfSettled(text, lines[..m], wanted);
  }

  /** An input whose second edit differs from the first: the only line after the blank one repeats the key. */
  lemma RepeatedKeyAfterBlankLine(text: string, wanted: Vars)
    requires text == "K=1\n\nK=2" && wanted == map["K" := "v"]
    ensures Edited(Edited(text, wanted), wanted) != Edited(text, wanted)
  {
    ExampleEnds(text, wanted);
    SetKeysIdempotent(text, wanted);
  }

  lemma ExampleEnds(text: string, wanted: Vars)
    requires text == "K=1\n\nK=2" && wanted == map["K" := "v"]
    ensures !EndsInALine(text, wanted) && wanted != map[]
    ensures forall k :: k in wanted ==> PlainKey(k) && PlainValue(wanted[k])
  {
    assert "K" in wanted && PlainKey("K") && PlainValue("v");
    ExampleLines();
    ExampleKeys();
    ExampleLastKept(LinesOf(text), wanted);
  }

  lemma ExampleLines()
    ensures LinesOf("K=1\n\nK=2") == ["K=1", "", "K=2"]
  {
    var lines := ["K=1", "", "K=2"];
    assert lines[1..] == ["", "K=2"] && ["", "K=2"][1..] == ["K=2"];
    assert Join(["", "K=2"], '\n') == "\nK=2";
    assert Join(lines, '\n') == "K=1\n\nK=2";
    SplitJoin(lines, '\n');
  }

  lemma ExampleKeys()
    ensures KeyOfLine("K=1") == Some("K") && KeyOfLine("K=2") == Some("K")
  {
    assert "K" + ['='] + "1" == "K=1" && "K" + ['='] + "2" == "K=2";
    CutAt("K", '=', "1");
    CutAt("K", '=', "2");
    TrimProperties("K=1");
    TrimProperties("K=2");
  }

  lemma ExampleLastKept(lines: seq<string>, wanted: Vars)
    requires lines == ["K=1", "", "K=2"] && wanted == map["K" := "v"]
    requires KeyOfLine("K=1") == Some("K") && KeyOfLine("K=2") == Some("K")
    ensures Complete(lines, wanted) && LastKept(lines, wanted) == ""
  {
    assert HasLine(lines, "K") by { assert "K=1" in lines; }
    assert lines[..2] == ["K=1", ""] && "K=1" in lines[..2];
  }
}
