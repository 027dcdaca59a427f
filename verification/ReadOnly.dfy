/** The gate of the read-only executor (pkg/remote/readonly.go): the commands a client may run while it plans. */
module ReadOnly {
  import opened Text
  import opened ShellWords

  // ----------------------------------------------------------------- the gate

  function TrimFormatJSON(w: seq<string>): Option<seq<string>> {
    if |w| >= 2 && w[|w| - 2] == "--format" && w[|w| - 1] == "json" then Some(w[..|w| - 2]) else None
  }

  predicate IsOption(x: string) {
    x != "" && x[0] == '-'
  }

  predicate Positional(w: seq<string>, least: nat, most: nat) {
    least <= |w| <= most && forall x :: x in w ==> !IsOption(x)
  }

  predicate Listing(w: seq<string>, least: nat, most: nat) {
    TrimFormatJSON(w).Some? && Positional(TrimFormatJSON(w).value, least, most)
  }

  predicate ReadOnlyWords(w: seq<string>) {
    if |w| < 2 || w[0] != "incus" then false else
      var rest := w[1..];
      if rest[0] == "list" then Listing(rest[1..], 0, 1)
      else if rest[0] == "info" then Positional(rest[1..], 1, 1)
      else if rest[0] == "config" && |rest| > 1 && rest[1] == "show" then Positional(rest[2..], 1, 1)
      else if rest[0] == "storage" && |rest| > 2 && rest[1] == "volume" && rest[2] == "show" then
        Positional(rest[3..], 2, 2)
      else if rest[0] == "storage" && |rest| > 2 && rest[1] == "volume" && rest[2] == "list" then
        Listing(rest[3..], 1, 1)
      else if rest[0] == "image" && |rest| > 1 && rest[1] == "list" then Listing(rest[2..], 0, 0)
      else if rest[0] == "image" && |rest| > 2 && rest[1] == "alias" && rest[2] == "list" then
        Listing(rest[3..], 0, 0)
      else if rest[0] == "profile" && |rest| > 1 && rest[1] == "list" then Listing(rest[2..], 0, 1)
      else if rest[0] == "profile" && |rest| > 1 && rest[1] == "show" then Positional(rest[2..], 1, 1)
      else if rest[0] == "file" && |rest| == 4 && rest[1] == "pull" then rest[3] == "-" && !IsOption(rest[2])
      else if rest[0] == "network" && |rest| > 1 && (rest[1] == "show" || rest[1] == "get") then
        Positional(rest[2..], 1, 2)
      else false
  }

  predicate IsReadOnly(command: string) {
    WordsOf(command).Some? && ReadOnlyWords(WordsOf(command).value)
  }

  // ---------------------------------------------------- what the gate lets by

  /** A command shape: its verbs, how many arguments follow, and what ends it. */
  datatype Shape = Shape(verbs: seq<string>, least: nat, most: nat, ending: seq<string>) {
    ghost predicate Matches(w: seq<string>) {
      exists args: seq<string> ::
        least <= |args| <= most && (forall x :: x in args ==> !IsOption(x)) && w == verbs + args + ending
    }
  }

  const JSON := ["--format", "json"]

  /** Every command the executor lets by only reads: the shapes, one a line. */
  function Shapes(): set<Shape> {
    { Shape(["incus", "list"], 0, 1, JSON),
      Shape(["incus", "info"], 1, 1, []),
      Shape(["incus", "config", "show"], 1, 1, []),
      Shape(["incus", "storage", "volume", "show"], 2, 2, []),
      Shape(["incus", "storage", "volume", "list"], 1, 1, JSON),
      Shape(["incus", "image", "list"], 0, 0, JSON),
      Shape(["incus", "image", "alias", "list"], 0, 0, JSON),
      Shape(["incus", "profile", "list"], 0, 1, JSON),
      Shape(["incus", "profile", "show"], 1, 1, []),
      Shape(["incus", "file", "pull"], 1, 1, ["-"]),
      Shape(["incus", "network", "show"], 1, 2, []),
      Shape(["incus", "network", "get"], 1, 2, []) }
  }

  lemma MatchesListing(w: seq<string>, verbs: seq<string>, least: nat, most: nat)
    requires verbs <= w
    ensures Listing(w[|verbs|..], least, most) <==> Shape(verbs, least, most, JSON).Matches(w)
  {
    assert w == verbs + w[|verbs|..];
    if Shape(verbs, least, most, JSON).Matches(w) {
      ListingFromShape(w, verbs, least, most);
    }
    if Listing(w[|verbs|..], least, most) {
      ShapeFromListing(w, verbs, least, most);
    }
  }

  lemma ShapeFromListing(w: seq<string>, verbs: seq<string>, least: nat, most: nat)
    requires verbs <= w && Listing(w[|verbs|..], least, most)
    ensures Shape(verbs, least, most, JSON).Matches(w)
  {
    var tail := w[|verbs|..];
    var args := tail[..|tail| - 2];
    assert tail == args + JSON && w == verbs + args + JSON;
  }

  lemma ListingFromShape(w: seq<string>, verbs: seq<string>, least: nat, most: nat)
    requires verbs <= w && Shape(verbs, least, most, JSON).Matches(w)
    ensures Listing(w[|verbs|..], least, most)
  {
    var args: seq<string> :|
      least <= |args| <= most && (forall x :: x in args ==> !IsOption(x)) && w == verbs + args + JSON;
    assert w[|verbs|..] == args + JSON;
  }

  lemma MatchesPositional(w: seq<string>, verbs: seq<string>, least: nat, most: nat)
    requires verbs <= w
    ensures Positional(w[|verbs|..], least, most) <==> Shape(verbs, least, most, []).Matches(w)
  {
    var tail, shape := w[|verbs|..], Shape(verbs, least, most, []);
    assert w == verbs + tail + [];
    if shape.Matches(w) {
      var args: seq<string> :| least <= |args| <= most && (forall x :: x in args ==> !IsOption(x))
        && w == verbs + args + [];
      assert tail == args;
    }
  }

  lemma MatchesPull(w: seq<string>)
    ensures Shape(["incus", "file", "pull"], 1, 1, ["-"]).Matches(w)
      <==> |w| == 5 && w[..3] == ["incus", "file", "pull"] && w[4] == "-" && !IsOption(w[3])
  {
    var shape := Shape(["incus", "file", "pull"], 1, 1, ["-"]);
    if |w| == 5 && w[..3] == ["incus", "file", "pull"] && w[4] == "-" && !IsOption(w[3]) {
      assert w == shape.verbs + [w[3]] + shape.ending;
    }
  }

  /** The gate's answer on a command that begins with a shape's verbs. */
  lemma GateOf(w: seq<string>, shape: Shape)
    requires shape in Shapes() && shape.verbs <= w && shape.ending != ["-"]
    ensures ReadOnlyWords(w) <==>
      if shape.ending == JSON then Listing(w[|shape.verbs|..], shape.least, shape.most)
      else Positional(w[|shape.verbs|..], shape.least, shape.most)
  {
    var rest, n := w[1..], |shape.verbs|;
    assert rest[n - 1..] == w[n..];
    assert shape.verbs[0] == w[0] && shape.verbs[1] == w[1] == rest[0];
    if n > 2 {
      assert shape.verbs[2] == w[2] == rest[1];
      if n > 3 {
        assert shape.verbs[3] == w[3] == rest[2];
      }
    }
  }

  /** The command is one of the listed shapes. */
  ghost predicate HasShape(w: seq<string>) {
    exists shape :: shape in Shapes() && shape.Matches(w)
  }

  lemma PullMatches(w: seq<string>)
    requires |w| >= 3 && w[..3] == ["incus", "file", "pull"]
    ensures ReadOnlyWords(w) <==> Shape(["incus", "file", "pull"], 1, 1, ["-"]).Matches(w)
  {
    MatchesPull(w);
    assert w[0] == w[..3][0] && w[1] == w[..3][1] && w[2] == w[..3][2];
    assert w[1..][0] == w[1] && w[1..][1] == w[2];
  }

  lemma ShapeMatches(w: seq<string>, shape: Shape)
    requires shape in Shapes() && shape.verbs <= w
    ensures ReadOnlyWords(w) <==> shape.Matches(w)
  {
    if shape.ending == JSON || shape.ending == [] {
      GateOf(w, shape);
      MatchesListing(w, shape.verbs, shape.least, shape.most);
      MatchesPositional(w, shape.verbs, shape.least, shape.most);
    } else {
      PullMatches(w);
    }
  }

  lemma VerbsOfAccepted(w: seq<string>) returns (shape: Shape)
    requires ReadOnlyWords(w)
    ensures shape in Shapes() && shape.verbs <= w
  {
    var rest := w[1..];
    if rest[0] == "list" { return Shape(["incus", "list"], 0, 1, JSON); }
    if rest[0] == "info" { return Shape(["incus", "info"], 1, 1, []); }
    if rest[0] == "config" { return Shape(["incus", "config", "show"], 1, 1, []); }
    if rest[0] == "storage" && rest[2] == "show" { return Shape(["incus", "storage", "volume", "show"], 2, 2, []); }
    if rest[0] == "storage" { return Shape(["incus", "storage", "volume", "list"], 1, 1, JSON); }
    if rest[0] == "image" && rest[1] == "list" { return Shape(["incus", "image", "list"], 0, 0, JSON); }
    if rest[0] == "image" { return Shape(["incus", "image", "alias", "list"], 0, 0, JSON); }
    if rest[0] == "profile" && rest[1] == "list" { return Shape(["incus", "profile", "list"], 0, 1, JSON); }
    if rest[0] == "profile" { return Shape(["incus", "profile", "show"], 1, 1, []); }
    if rest[0] == "file" { return Shape(["incus", "file", "pull"], 1, 1, ["-"]); }
    if rest[1] == "show" { return Shape(["incus", "network", "show"], 1, 2, []); }
    return Shape(["incus", "network", "get"], 1, 2, []);
  }

  /** The gate lets a command by exactly when it splits into words of a listed shape, and a POSIX shell then
      runs those very words. */
  lemma GateIsExact(command: string)
    ensures IsReadOnly(command) <==> WordsOf(command).Some? && HasShape(WordsOf(command).value)
    ensures IsReadOnly(command) ==> PosixWords(command) == WordsOf(command)
  {
    if WordsOf(command).Some? {
      var w := WordsOf(command).value;
      AcceptedIsPosix(command);
      if ReadOnlyWords(w) {
        var shape := VerbsOfAccepted(w);
        ShapeMatches(w, shape);
      }
      if HasShape(w) {
        var shape :| shape in Shapes() && shape.Matches(w);
        ShapeMatches(w, shape);
      }
    }
  }

  // -------------------------------------------------------------- what it refuses

  /** The commands by which a client writes: pkg/incus/client.go, state.go, labels.go, instance_config.go,
      volumes.go, remote_ops.go and pkg/engine/imageprune.go. */
  datatype Writing =
    | Launch | Start | Stop | Restart | Delete | Exec | Copy
    | ConfigSet | ConfigUnset | ConfigDevice
    | ProfileCreate | ProfileDevice | NetworkSet | NetworkCreate | FilePush | ImageDelete
    | PoolCreate | VolumeCreate | VolumeSet | VolumeUnset | VolumeSnapshot | VolumeCopy | VolumeDelete
    | VolumeImport | VolumeExport
  {
    /** The words after `incus`. */
    function Verbs(): seq<string> {
      match this
      case Launch => ["launch"]
      case Start => ["start"]
      case Stop => ["stop"]
      case Restart => ["restart"]
      case Delete => ["delete"]
      case Exec => ["exec"]
      case Copy => ["copy"]
      case ConfigSet => ["config", "set"]
      case ConfigUnset => ["config", "unset"]
      case ConfigDevice => ["config", "device"]
      case ProfileCreate => ["profile", "create"]
      case ProfileDevice => ["profile", "device"]
      case NetworkSet => ["network", "set"]
      case NetworkCreate => ["network", "create"]
      case FilePush => ["file", "push"]
      case ImageDelete => ["image", "delete"]
      case PoolCreate => ["storage", "create"]
      case VolumeCreate => ["storage", "volume", "create"]
      case VolumeSet => ["storage", "volume", "set"]
      case VolumeUnset => ["storage", "volume", "unset"]
      case VolumeSnapshot => ["storage", "volume", "snapshot"]
      case VolumeCopy => ["storage", "volume", "copy"]
      case VolumeDelete => ["storage", "volume", "delete"]
      case VolumeImport => ["storage", "volume", "import"]
      case VolumeExport => ["storage", "volume", "export"]
    }

    function Command(rest: string): string {
      Join(["incus"] + Verbs(), ' ') + [' '] + rest
    }
  }

  predicate IsLower(c: char) {
    'a' <= c <= 'z'
  }

  predicate IsVerb(v: string) {
    v != "" && forall i :: 0 <= i < |v| ==> IsLower(v[i])
  }

  lemma VerbsAreLower(w: Writing)
    ensures forall i :: 0 <= i < |w.Verbs()| ==> IsVerb(w.Verbs()[i])
  {
  }

  predicate AllBare(verbs: seq<string>) {
    verbs == [] || (Bare(verbs[0]).Valid() && AllBare(verbs[1..]))
  }

  lemma {:induction false} LowerAreBare(verbs: seq<string>)
    requires forall i :: 0 <= i < |verbs| ==> IsVerb(verbs[i])
    ensures AllBare(verbs)
  {
    if verbs != [] {
      LowerAreBare(verbs[1..]);
    }
  }

  lemma {:induction false} ScanVerbs(verbs: seq<string>, rest: string, done: seq<string>)
    requires verbs != [] && AllBare(verbs)
    ensures ScanRest(Join(verbs, ' ') + [' '] + rest, Scan(done, "", false))
         == ScanRest(rest, Scan(done + verbs, "", false))
    decreases |verbs|
  {
    var v := verbs[0];
    assert verbs == [v] + verbs[1..];
    if |verbs| == 1 {
      ScanFirstWord(Bare(v), rest, done);
      assert verbs == [v];
    } else {
      ScanVerbs(verbs[1..], rest, done + [v]);
      ScanVerbsStep(v, Join(verbs[1..], ' '), rest, done);
      assert done + [v] + verbs[1..] == done + verbs;
    }
  }

  lemma ScanVerbsStep(v: string, line: string, rest: string, done: seq<string>)
    requires Bare(v).Valid()
    ensures ScanRest(v + [' '] + line + [' '] + rest, Scan(done, "", false))
         == ScanRest(line + [' '] + rest, Scan(done + [v], "", false))
  {
    assert v + [' '] + line + [' '] + rest == v + [' '] + (line + [' '] + rest);
    ScanFirstWord(Bare(v), line + [' '] + rest, done);
  }

  /** Words once finished stay: the rest of a command cannot change them. */
  lemma {:induction false} ScanKeepsWords(s: string, at: Scan)
    ensures ScanRest(s, at).Some? ==> at.words <= ScanRest(s, at).value
    decreases |s|
  {
    if s != "" {
      if s[0] == ' ' {
        ScanKeepsWords(s[1..], at.Flush());
      } else if s[0] == '\'' {
        var j := IndexOf(s[1..], '\'');
        if j < |s| - 1 {
          ScanKeepsWords(s[j + 2..], at.Take(s[1..j + 1]));
        }
      } else if s[0] == '\\' && |s| > 1 && s[1] == '\'' {
        ScanKeepsWords(s[2..], at.Take("'"));
      } else if IsBare(s[0]) {
        ScanKeepsWords(s[1..], at.Take([s[0]]));
      }
    }
  }

  lemma WriteWordsRefused(w: seq<string>, write: Writing)
    requires |w| > |write.Verbs()| && w[0] == "incus"
    requires forall i :: 0 <= i < |write.Verbs()| ==> w[i + 1] == write.Verbs()[i]
    ensures !ReadOnlyWords(w)
  {
    assert w[1] == write.Verbs()[0];
    if |write.Verbs()| > 1 {
      assert w[2] == write.Verbs()[1];
      if |write.Verbs()| > 2 {
        assert w[3] == write.Verbs()[2];
      }
    }
  }

  lemma CommandBegins(verbs: seq<string>, rest: string)
    requires verbs != [] && AllBare(verbs)
    ensures WordsOf(Join(verbs, ' ') + [' '] + rest).Some? ==> verbs <= WordsOf(Join(verbs, ' ') + [' '] + rest).value
  {
    ScanVerbs(verbs, rest, []);
    assert [] + verbs == verbs;
    ScanKeepsWords(rest, Scan(verbs, "", false));
  }

  /** A command that begins with the verbs of a write is refused, whatever its arguments. */
  lemma WriteRefused(write: Writing, rest: string)
    ensures !IsReadOnly(write.Command(rest))
  {
    var verbs := ["incus"] + write.Verbs();
    assert AllBare(verbs) by {
      VerbsAreLower(write);
      LowerAreBare(verbs);
    }
    CommandBegins(verbs, rest);
    if WordsOf(write.Command(rest)).Some? {
      var w := WordsOf(write.Command(rest)).value;
      assert w[0] == verbs[0];
      forall i | 0 <= i < |write.Verbs()| ensures w[i + 1] == write.Verbs()[i] {
        assert w[i + 1] == verbs[i + 1];
      }
      WriteWordsRefused(w, write);
    }
  }

  /** What follows the text stands outside quotes: neither between single quotes nor after a backslash. */
  predicate EndsOutside(text: string)
    decreases |text|
  {
    if text == "" then true
    else if text[0] == '\'' then
      var j := IndexOf(text[1..], '\'');
      j < |text| - 1 && EndsOutside(text[j + 2..])
    else if text[0] == '\\' then |text| > 1 && EndsOutside(text[2..])
    else EndsOutside(text[1..])
  }

  lemma {:induction false} IndexOfPrefix(a: string, b: string, c: char)
    requires IndexOf(a, c) < |a|
    ensures IndexOf(a + b, c) == IndexOf(a, c)
  {
    if a[0] != c {
      assert (a + b)[1..] == a[1..] + b;
      IndexOfPrefix(a[1..], b, c);
    }
  }

  lemma QuotedPast(before: string, tail: string, at: Scan)
    requires before != "" && before[0] == '\'' && IndexOf(before[1..], '\'') < |before| - 1
    ensures var j := IndexOf(before[1..], '\'');
      ScanRest(before + tail, at) == ScanRest(before[j + 2..] + tail, at.Take(before[1..j + 1]))
  {
    var s, j := before + tail, IndexOf(before[1..], '\'');
    IndexOfPrefix(before[1..], tail, '\'');
    assert s[1..] == before[1..] + tail && s[j + 2..] == before[j + 2..] + tail && s[1..j + 1] == before[1..j + 1];
  }

  lemma EscapedPast(before: string, tail: string, at: Scan)
    requires |before| > 1 && before[0] == '\\'
    ensures ScanRest(before[2..] + tail, at.Take("'")) == None ==> ScanRest(before + tail, at) == None
  {
    var s := before + tail;
    assert s[0] == before[0] && s[1] == before[1] && s[2..] == before[2..] + tail;
  }

  lemma PlainPast(before: string, tail: string, at: Scan)
    requires before != "" && before[0] != '\'' && before[0] != '\\'
    ensures var next := if before[0] == ' ' then at.Flush() else at.Take([before[0]]);
      ScanRest(before[1..] + tail, next) == None ==> ScanRest(before + tail, at) == None
  {
    var s := before + tail;
    assert s[0] == before[0] && s[1..] == before[1..] + tail;
  }

  /** No scan goes on from the text. */
  predicate Stops(tail: string) {
    tail != "" && !IsBare(tail[0]) && tail[0] != ' ' && tail[0] != '\'' && tail[0] != '\\'
  }

  lemma StopsRefused(tail: string, at: Scan)
    requires Stops(tail)
    ensures ScanRest(tail, at) == None
  {
  }

  lemma {:induction false} OutsideRefused(before: string, tail: string, at: Scan)
    requires EndsOutside(before) && Stops(tail)
    ensures ScanRest(before + tail, at) == None
    decreases |before|, 1
  {
    if before == "" {
      assert before + tail == tail;
      StopsRefused(tail, at);
    } else if before[0] == '\'' {
      QuotedRefused(before, tail, at);
    } else {
      OtherRefused(before, tail, at);
    }
  }

  lemma {:induction false} QuotedRefused(before: string, tail: string, at: Scan)
    requires EndsOutside(before) && Stops(tail) && before != "" && before[0] == '\''
    ensures ScanRest(before + tail, at) == None
    decreases |before|, 0
  {
    var j := IndexOf(before[1..], '\'');
    OutsideRefused(before[j + 2..], tail, at.Take(before[1..j + 1]));
    QuotedPast(before, tail, at);
  }

  lemma {:induction false} OtherRefused(before: string, tail: string, at: Scan)
    requires EndsOutside(before) && Stops(tail) && before != "" && before[0] != '\''
    ensures ScanRest(before + tail, at) == None
    decreases |before|, 0
  {
    if before[0] == '\\' {
      OutsideRefused(before[2..], tail, at.Take("'"));
      EscapedPast(before, tail, at);
    } else {
      OutsideRefused(before[1..], tail, if before[0] == ' ' then at.Flush() else at.Take([before[0]]));
      PlainPast(before, tail, at);
    }
  }

  lemma SpecialStops(tail: string)
    requires tail != "" && Special(tail[0])
    ensures Stops(tail)
  {
  }

  /** An operator, a substitution, a redirection, a pattern or a newline that stands outside quotes, wherever it does,
      refuses the command. */
  lemma UnquotedRefused(before: string, tail: string)
    requires EndsOutside(before) && tail != "" && Special(tail[0])
    ensures WordsOf(before + tail) == None && !IsReadOnly(before + tail)
  {
    SpecialStops(tail);
    OutsideRefused(before, tail, ShellWords.START);
  }

  // ------------------------------------------------------- what planning sends

  predicate IsAlnum(c: char) {
    'a' <= c <= 'z' || 'A' <= c <= 'Z' || '0' <= c <= '9'
  }

  /** pkg/incus/state.go: an instance, device, volume or pool name. */
  predicate ValidName(name: string) {
    && 0 < |name| <= 63
    && IsAlnum(name[0])
    && forall c :: c in name ==> IsAlnum(c) || c in "._-"
  }

  /** The reading commands a client builds. A remote of "" is the local one. */
  datatype Reading =
    | AllInstances | Instance(name: string) | RemoteInstances(remote: string) | Info(name: string)
    | ConfigShow(remote: string, name: string)
    | VolumeShow(pool: string, name: string) | VolumeList(remote: string, pool: string)
    | ImageList | AliasList | ProfileList(remote: string) | ProfileShow(name: string)
    | FilePull(name: string, path: string) | BridgeAddress(name: string)
  {
    predicate Valid() {
      && (RemoteInstances? || ProfileList? ==> ValidName(remote))
      && (ConfigShow? || VolumeList? ==> remote == "" || ValidName(remote))
      && (Instance? || Info? || ConfigShow? || VolumeShow? || ProfileShow? || FilePull? || BridgeAddress? ==>
            ValidName(name))
      && (VolumeShow? || VolumeList? ==> ValidName(pool))
    }

    function Words(): seq<Word> {
      var json := [Bare("--format"), Bare("json")];
      match this
      case AllInstances => [Bare("incus"), Bare("list")] + json
      case Instance(name) => [Bare("incus"), Bare("list"), Quoted(name)] + json
      case RemoteInstances(remote) => [Bare("incus"), Bare("list"), Quoted(remote + ":")] + json
      case Info(name) => [Bare("incus"), Bare("info"), Quoted(name)]
      case ConfigShow(remote, name) => [Bare("incus"), Bare("config"), Bare("show"), Quoted(Ref(remote, name))]
      case VolumeShow(pool, name) =>
        [Bare("incus"), Bare("storage"), Bare("volume"), Bare("show"), Quoted(pool), Quoted(name)]
      case VolumeList(remote, pool) =>
        [Bare("incus"), Bare("storage"), Bare("volume"), Bare("list"), Quoted(Ref(remote, pool))] + json
      case ImageList => [Bare("incus"), Bare("image"), Bare("list")] + json
      case AliasList => [Bare("incus"), Bare("image"), Bare("alias"), Bare("list")] + json
      case ProfileList(remote) => [Bare("incus"), Bare("profile"), Bare("list"), Quoted(remote + ":")] + json
      case ProfileShow(name) => [Bare("incus"), Bare("profile"), Bare("show"), Quoted(name)]
      case FilePull(name, path) => [Bare("incus"), Bare("file"), Bare("pull"), Quoted(name + path), Bare("-")]
      case BridgeAddress(name) =>
        [Bare("incus"), Bare("network"), Bare("get"), Quoted(name), Bare("ipv4.address")]
    }
  }

  function Ref(remote: string, name: string): string {
    if remote == "" then name else remote + ":" + name
  }

  /** Every reading command built for valid names passes the gate. */
  lemma ReadingAccepted(r: Reading)
    requires r.Valid()
    ensures IsReadOnly(CommandLine(r.Words()))
  {
    ReadingWordsValid(r);
    CommandWords(r.Words());
    ReadingWordsPass(r);
  }

  predicate IsKnownWord(text: string) {
    IsVerb(text) || text in ["-", "--format", "ipv4.address"]
  }

  lemma ReadingWordsValid(r: Reading)
    ensures AllValid(r.Words())
  {
    var w := r.Words();
    EachKnown(r);
    forall i | 0 <= i < |w| ensures w[i].Valid() {
      if w[i].Bare? {
      }
    }
    EachValid(w);
  }

  lemma EachKnown(r: Reading)
    ensures forall i :: 0 <= i < |r.Words()| ==> r.Words()[i].Quoted? || IsKnownWord(r.Words()[i].text)
  {
  }

  lemma {:induction false} EachValid(words: seq<Word>)
    requires forall i :: 0 <= i < |words| ==> words[i].Valid()
    ensures AllValid(words)
  {
    if words != [] {
      EachValid(words[1..]);
    }
  }

  lemma {:induction false} TextsAt(words: seq<Word>)
    ensures |Texts(words)| == |words| && forall i :: 0 <= i < |words| ==> Texts(words)[i] == words[i].text
  {
    if words != [] {
      TextsAt(words[1..]);
    }
  }

  /** The shape a reading command has, and the arguments it gives. */
  function ShapeOf(r: Reading): (Shape, seq<string>) {
    match r
    case AllInstances => (Shape(["incus", "list"], 0, 1, JSON), [])
    case Instance(name) => (Shape(["incus", "list"], 0, 1, JSON), [name])
    case RemoteInstances(remote) => (Shape(["incus", "list"], 0, 1, JSON), [remote + ":"])
    case Info(name) => (Shape(["incus", "info"], 1, 1, []), [name])
    case ConfigShow(remote, name) => (Shape(["incus", "config", "show"], 1, 1, []), [Ref(remote, name)])
    case VolumeShow(pool, name) => (Shape(["incus", "storage", "volume", "show"], 2, 2, []), [pool, name])
    case VolumeList(remote, pool) => (Shape(["incus", "storage", "volume", "list"], 1, 1, JSON), [Ref(remote, pool)])
    case ImageList => (Shape(["incus", "image", "list"], 0, 0, JSON), [])
    case AliasList => (Shape(["incus", "image", "alias", "list"], 0, 0, JSON), [])
    case ProfileList(remote) => (Shape(["incus", "profile", "list"], 0, 1, JSON), [remote + ":"])
    case ProfileShow(name) => (Shape(["incus", "profile", "show"], 1, 1, []), [name])
    case FilePull(name, path) => (Shape(["incus", "file", "pull"], 1, 1, ["-"]), [name + path])
    case BridgeAddress(name) => (Shape(["incus", "network", "get"], 1, 2, []), [name, "ipv4.address"])
  }

  predicate IsListing(r: Reading) {
    ShapeOf(r).0.ending == JSON
  }

  /** A name is not taken for an option, nor what begins with one. */
  lemma NameIsNoOption(name: string, rest: string)
    requires ValidName(name)
    ensures !IsOption(name + rest)
  {
  }

  lemma ArgumentsFit(r: Reading)
    requires r.Valid()
    ensures var (shape, args) := ShapeOf(r);
      shape.least <= |args| <= shape.most && forall i :: 0 <= i < |args| ==> !IsOption(args[i])
  {
    match r
    case RemoteInstances(remote) => NameIsNoOption(remote, ":");
    case ProfileList(remote) => NameIsNoOption(remote, ":");
    case FilePull(name, path) => NameIsNoOption(name, path);
    case ConfigShow(remote, name) => if remote != "" { NameIsNoOption(remote, ":" + name); }
    case VolumeList(remote, pool) => if remote != "" { NameIsNoOption(remote, ":" + pool); }
    case _ =>
  }

  lemma ListingWords(r: Reading)
    requires IsListing(r)
    ensures var (shape, args) := ShapeOf(r); Texts(r.Words()) == shape.verbs + args + JSON
  {
    TextsAt(r.Words());
  }

  lemma OtherWords(r: Reading)
    requires !IsListing(r)
    ensures var (shape, args) := ShapeOf(r); Texts(r.Words()) == shape.verbs + args + shape.ending
  {
    TextsAt(r.Words());
  }

  lemma ShapeIsListed(r: Reading)
    ensures ShapeOf(r).0 in Shapes()
  {
  }

  lemma ReadingWordsPass(r: Reading)
    requires r.Valid()
    ensures ReadOnlyWords(Texts(r.Words()))
  {
    var w, shape, args := Texts(r.Words()), ShapeOf(r).0, ShapeOf(r).1;
    if IsListing(r) {
      ListingWords(r);
    } else {
      OtherWords(r);
    }
    ArgumentsFit(r);
    ShapeIsListed(r);
    assert shape.Matches(w) by {
      assert w == shape.verbs + args + shape.ending && forall x :: x in args ==> !IsOption(x);
    }
    ShapeMatches(w, shape);
  }
}
