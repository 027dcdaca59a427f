/** The flags a deploy gives the daemon (pkg/serveflags/serveflags.go). A flag set is its words. */
module ServeFlags {
  import opened Text

  const MAX_ATTEMPTS: nat := 3

  /** The state directory: the committed set, the pending one and how often that was started. */
  datatype Dir = Dir(committed: Option<seq<string>>, pending: Option<seq<string>>, attempts: nat)

  /** The flag set a start runs with; not managed: the unit's own flags. */
  datatype Loaded = Loaded(managed: bool, args: seq<string>, pending: bool)

  const UNIT := Loaded(false, [], false)

  function SetOf(words: seq<string>, pending: bool): Loaded {
    if words == [] then Loaded(false, [], pending) else Loaded(true, words, pending)
  }

  function CommittedSet(d: Dir): Loaded {
    if d.committed.None? then UNIT else SetOf(d.committed.value, false)
  }

  /** What a start may do: take the pending set and count it, give up on it after too many starts (removing what it
      can), or take the committed set. A start that cannot count, or read, runs with the unit's flags. */
  predicate Loads(d: Dir, e: Dir, ok: bool, l: Loaded) {
    && e.committed == d.committed
    && (d.pending.None? ==> e == d && (ok ==> l == CommittedSet(d)))
    && (d.pending.Some? && d.attempts < MAX_ATTEMPTS ==>
          e == (if ok then d.(attempts := d.attempts + 1) else d) && (ok ==> l == SetOf(d.pending.value, true)))
    && (d.pending.Some? && d.attempts >= MAX_ATTEMPTS ==>
          (e.pending == d.pending || e.pending == None) && (e.attempts == d.attempts || e.attempts == 0)
          && (ok ==> l == CommittedSet(d)))
  }

  /** A set is staged, or nothing but the count of attempts changes. */
  predicate Stages(d: Dir, e: Dir, words: seq<string>, ok: bool) {
    && e.committed == d.committed && e.attempts in {d.attempts, 0}
    && e.pending == if ok then Some(words) else d.pending
  }

  /** The committed set a pending one becomes. */
  function Chosen(words: seq<string>): Option<seq<string>> {
    if words == [] then None else Some(words)
  }

  /** Whatever is pending becomes the committed set. Going back to the unit's flags takes two removals, and either
      may fail unnoticed. */
  predicate Commits(d: Dir, e: Dir, ok: bool) {
    if !ok then e == d else
      && d.pending.Some? && e.attempts in {d.attempts, 0}
      && (e.committed == Chosen(d.pending.value) || (d.pending.value == [] && e.committed == d.committed))
      && (e.pending == None || (d.pending.value == [] && e.pending == d.pending))
  }

  class StateDir {
    var committed: Option<seq<string>>
    var pending: Option<seq<string>>
    var attempts: nat
    ghost var faults: nat  // how many file operations have failed

    ghost function State(): Dir
      reads this
    {
      Dir(committed, pending, attempts)
    }

    /** One operation on a file. */
    method Try() returns (ok: bool)
      modifies this`faults
      ensures faults == old(faults) + if ok then 0 else 1
    {
      ok := *;
      if !ok {
        faults := faults + 1;
      }
    }

    method Load() returns (ok: bool, l: Loaded)
      modifies this
      ensures Loads(old(State()), State(), ok, l)
      ensures committed == old(committed) && faults >= old(faults) && (!ok ==> faults > old(faults))
      ensures faults == old(faults) && old(pending).Some? && old(attempts) < 3 ==>
        pending == old(pending) && attempts == old(attempts) + 1 && l.args == old(pending).value && l.pending
      ensures faults == old(faults) && old(pending).Some? && old(attempts) >= 3 ==> pending == None && attempts == 0
      ensures faults == old(faults) && (old(pending).None? || old(attempts) >= 3) ==>
        l.args == (if committed.Some? then committed.value else []) && !l.pending
      ensures faults == old(faults) ==> (l.managed <==> l.args != [])
    {
      l := if committed.None? then UNIT else SetOf(committed.value, false);
      ok := Try();
      if pending.None? || !ok {
        return;
      }
      var n := attempts + 1;
      if n > MAX_ATTEMPTS {
        var removed := Try();
        if removed {
          pending := None;
        }
        var forgotten := Try();
        if forgotten {
          attempts := 0;
        }
        ok := Try();
        return;
      }
      ok := Try();
      if ok {
        attempts := n;
        l := SetOf(pending.value, true);
      }
    }

    /** Writes a set for the next start; no words go back to the unit's flags. */
    method Stage(words: seq<string>) returns (ok: bool)
      modifies this
      ensures Stages(old(State()), State(), words, ok)
      ensures faults >= old(faults) && (!ok ==> faults > old(faults))
      ensures faults == old(faults) ==> pending == Some(words) && attempts == 0
    {
      ok := Try();
      if !ok {
        return;
      }
      var forgotten := Try();
      if forgotten {
        attempts := 0;
      }
      ok := Try();
      if ok {
        pending := Some(words);
      }
    }

    /** Makes whatever is pending the committed set. */
    method Commit() returns (ok: bool)
      modifies this
      ensures Commits(old(State()), State(), ok)
      ensures faults >= old(faults) && (!ok ==> faults > old(faults) || old(pending).None?)
      ensures faults == old(faults) && old(pending).Some? ==> pending == None && attempts == 0
      ensures faults == old(faults) && old(pending).Some? ==>
        committed == if old(pending).value == [] then None else old(pending)
    {
      if pending.None? {
        return false;
      }
      ok := Try();
      if !ok {
        return;
      }
      if pending.value == [] {
        var dropped := Try();
        if dropped {
          committed := None;
        }
        var removed := Try();
        if removed {
          pending := None;
        }
      } else {
        ok := Try();
        if !ok {
          return;
        }
        committed, pending := pending, None;
      }
      var forgotten := Try();
      if forgotten {
        attempts := 0;
      }
    }
  }

  // ---------------------------------------------------------------- command lines

  predicate IsFlag(arg: string) {
    arg != "" && arg[0] == '-'
  }

  function Undashed(arg: string): string {
    if IsFlag(arg) then Undashed(arg[1..]) else arg
  }

  /** What reading the arguments finds: the last value given to the flag. */
  function Found(args: seq<string>, name: string, found: Option<string>): Option<string>
    decreases |args|
  {
    if args == [] then found
    else
      var a := Undashed(args[0]);
      if !IsFlag(args[0]) then Found(args[1..], name, found)
      else if a == name && |args| > 1 then Found(args[2..], name, Some(args[1]))
      else if |a| > |name| && a[..|name| + 1] == name + "=" then Found(args[1..], name, Some(a[|name| + 1..]))
      else Found(args[1..], name, found)
  }

  /** The value a command line gives a flag, and whether it gives one. */
  method Value(args: seq<string>, name: string) returns (val: string, found: bool)
    ensures found <==> Found(args, name, None).Some?
    ensures found ==> Found(args, name, None) == Some(val)
  {
    val, found := "", false;
    var i := 0;
    while i < |args|
      invariant 0 <= i <= |args|
      invariant Found(args[i..], name, if found then Some(val) else None) == Found(args, name, None)
    {
      assert args[i..][1..] == args[i + 1..];
      var a := Undashed(args[i]);
      if !IsFlag(args[i]) {
        i := i + 1;
        continue;
      }
      if a == name && i + 1 < |args| {
        assert args[i..][2..] == args[i + 2..];
        val, found := args[i + 1], true;
        i := i + 1;
      } else if |a| > |name| && a[..|name| + 1] == name + "=" {
        val, found := a[|name| + 1..], true;
      }
      i := i + 1;
    }
  }

  function Dashes(n: nat): string {
    seq(n, _ => '-')
  }

  /** The argument is -name, with one dash or more. */
  ghost predicate IsNamed(arg: string, name: string) {
    exists n: nat :: n > 0 && arg == Dashes(n) + name
  }

  ghost predicate Gives(arg: string, name: string, v: string) {
    IsNamed(arg, name + "=" + v)
  }

  lemma {:induction false} UndashedIs(arg: string) returns (n: nat)
    ensures arg == Dashes(n) + Undashed(arg) && (IsFlag(arg) <==> n > 0) && !IsFlag(Undashed(arg))
  {
    n := 0;
    if IsFlag(arg) {
      var m := UndashedIs(arg[1..]);
      n := m + 1;
      assert Dashes(n) == ['-'] + Dashes(m);
    } else {
      assert Dashes(0) + arg == arg;
    }
  }

  lemma {:induction false} UndashedOf(n: nat, rest: string)
    requires !IsFlag(rest)
    ensures Undashed(Dashes(n) + rest) == rest
  {
    if n > 0 {
      assert (Dashes(n) + rest)[1..] == Dashes(n - 1) + rest;
      UndashedOf(n - 1, rest);
    } else {
      assert Dashes(0) + rest == rest;
    }
  }

  lemma NamedIff(arg: string, rest: string)
    requires !IsFlag(rest)
    ensures IsNamed(arg, rest) <==> IsFlag(arg) && Undashed(arg) == rest
  {
    var m := UndashedIs(arg);
    if n: nat :| n > 0 && arg == Dashes(n) + rest {
      UndashedOf(n, rest);
    }
  }

  /** What one more argument at the end changes: it is the value of a flag that dangled before it, or gives its own
      value, or changes nothing. */
  lemma EndsWith(args: seq<string>, x: string, name: string)
    requires name != "" && name[0] != '-'
    ensures Found([], name, None) == None && !Dangling([], name)
    ensures Dangling(args + [x], name) <==> !Dangling(args, name) && IsNamed(x, name)
    ensures Dangling(args, name) ==> Found(args + [x], name, None) == Some(x)
    ensures forall v :: !Dangling(args, name) && Gives(x, name, v) ==> Found(args + [x], name, None) == Some(v)
    ensures !Dangling(args, name) && (forall v :: !Gives(x, name, v)) ==>
      Found(args + [x], name, None) == Found(args, name, None)
  {
    var a, before := Undashed(x), Found(args, name, None);
    NamedIff(x, name);
    forall v ensures Gives(x, name, v) <==> IsFlag(x) && a == name + "=" + v {
      NamedIff(x, name + "=" + v);
    }
    if Dangling(args, name) {
      FoundDangling(args, [x], name, None);
    } else {
      FoundPast(args, [x], name, None);
      DanglingPast(args, [x], name);
      assert [x][1..] == [];
      if IsFlag(x) && |a| > |name| && a[..|name| + 1] == name + "=" {
        var given := a[|name| + 1..];
        assert a == name + "=" + given;
        assert Gives(x, name, given);
        assert forall v :: a == name + "=" + v ==> v == a[|name| + 1..];
      } else {
        forall v ensures !Gives(x, name, v) {
          if a == name + "=" + v {
            assert a[..|name| + 1] == name + "=";
          }
        }
      }
    }
  }

  lemma {:induction false} DanglingPast(a: seq<string>, b: seq<string>, name: string)
    requires !Dangling(a, name)
    ensures Dangling(a + b, name) <==> Dangling(b, name)
    decreases |a|
  {
    if a == [] {
      assert a + b == b;
    } else {
      assert (a + b)[1..] == a[1..] + b;
      if IsFlag(a[0]) && Undashed(a[0]) == name {
        assert (a + b)[2..] == a[2..] + b;
        DanglingPast(a[2..], b, name);
      } else {
        DanglingPast(a[1..], b, name);
      }
    }
  }

  function MergeAll(unit: seq<string>, words: seq<string>, stateDir: string): seq<string> {
    Front(unit, words) + Host(unit) + ["--state-dir", stateDir]
  }

  /** The unit's address, unless the set has its own, and the set. */
  function Front(unit: seq<string>, words: seq<string>): seq<string> {
    var addr := Found(unit, "addr", None);
    (if addr.Some? && Found(words, "addr", None).None? then ["--addr", addr.value] else []) + words
  }

  function Host(unit: seq<string>): seq<string> {
    var host := Found(unit, "host-name", None);
    if host.Some? then ["--host-name", host.value] else []
  }

  method Merge(unit: seq<string>, words: seq<string>, stateDir: string) returns (out: seq<string>)
    ensures out == MergeAll(unit, words, stateDir)
  {
    out := [];
    var addr, hasAddr := Value(unit, "addr");
    if hasAddr {
      var own, hasOwn := Value(words, "addr");
      if !hasOwn {
        out := ["--addr", addr];
      }
    }
    out := out + words;
    var host, hasHost := Value(unit, "host-name");
    if hasHost {
      out := out + ["--host-name", host];
    }
    out := out + ["--state-dir", stateDir];
  }

  /** The arguments end in the flag with nothing after it: it takes whatever is appended as its value. */
  predicate Dangling(args: seq<string>, name: string)
    decreases |args|
  {
    if args == [] then false
    else if IsFlag(args[0]) && Undashed(args[0]) == name then |args| == 1 || Dangling(args[2..], name)
    else Dangling(args[1..], name)
  }

  /** Reading on past a prefix that does not dangle. */
  lemma {:induction false} FoundPast(a: seq<string>, b: seq<string>, name: string, found: Option<string>)
    requires !Dangling(a, name)
    ensures Found(a + b, name, found) == Found(b, name, Found(a, name, found))
    decreases |a|
  {
    if a == [] {
      assert a + b == b;
    } else {
      assert (a + b)[1..] == a[1..] + b;
      var u := Undashed(a[0]);
      if IsFlag(a[0]) && u == name {
        assert (a + b)[2..] == a[2..] + b;
        FoundPast(a[2..], b, name, Some(a[1]));
      } else if IsFlag(a[0]) && |u| > |name| && u[..|name| + 1] == name + "=" {
        FoundPast(a[1..], b, name, Some(u[|name| + 1..]));
      } else {
        FoundPast(a[1..], b, name, found);
      }
    }
  }

  /** Reading on past a prefix that dangles: its flag takes the first argument after it. */
  lemma {:induction false} FoundDangling(a: seq<string>, b: seq<string>, name: string, found: Option<string>)
    requires Dangling(a, name) && b != []
    ensures Found(a + b, name, found) == Found(b[1..], name, Some(b[0]))
    ensures Dangling(a + b, name) <==> Dangling(b[1..], name)
    decreases |a|
  {
    assert (a + b)[1..] == a[1..] + b;
    var u := Undashed(a[0]);
    if |a| == 1 {
      assert (a + b)[2..] == b[1..];
    } else if IsFlag(a[0]) && u == name {
      assert (a + b)[2..] == a[2..] + b;
      FoundDangling(a[2..], b, name, Some(a[1]));
    } else if IsFlag(a[0]) && |u| > |name| && u[..|name| + 1] == name + "=" {
      FoundDangling(a[1..], b, name, Some(u[|name| + 1..]));
    } else {
      FoundDangling(a[1..], b, name, found);
    }
  }

  /** A value the unit gives a flag is not itself a flag. */
  predicate PlainUnit(unit: seq<string>) {
    && (Found(unit, "addr", None).Some? ==> !IsFlag(Found(unit, "addr", None).value))
    && (Found(unit, "host-name", None).Some? ==> !IsFlag(Found(unit, "host-name", None).value))
  }

  /** Two arguments, a flag of another name and its value, are read past. */
  lemma OtherFlag(flag: string, value: string, rest: seq<string>, name: string, found: Option<string>)
    requires IsFlag(flag) && !IsFlag(value) && Undashed(flag) != name
    requires |Undashed(flag)| > |name| ==> Undashed(flag)[|name|] != '='
    ensures Found([flag, value] + rest, name, found) == Found(rest, name, found)
    ensures Dangling([flag, value] + rest, name) <==> Dangling(rest, name)
  {
    var all := [flag, value] + rest;
    assert all[1..] == [value] + rest && ([value] + rest)[1..] == rest;
    assert (name + "=")[|name|] == '=';
    assert |Undashed(flag)| > |name| ==> Undashed(flag)[..|name| + 1][|name|] == Undashed(flag)[|name|];
  }

  lemma OwnFlag(flag: string, value: string, name: string, found: Option<string>)
    requires IsFlag(flag) && Undashed(flag) == name
    ensures Found([flag, value], name, found) == Some(value)
  {
    assert [flag, value][2..] == [];
  }

  lemma FrontDangles(unit: seq<string>, words: seq<string>, name: string)
    requires PlainUnit(unit) && (name == "host-name" || name == "state-dir")
    ensures Dangling(Front(unit, words), name) <==> Dangling(words, name)
  {
    var addr := Found(unit, "addr", None);
    if addr.Some? && Found(words, "addr", None).None? {
      OtherFlag("--addr", addr.value, words, name, None);
    } else {
      assert [] + words == words;
    }
  }

  /** The state directory stays where the unit says: always when the unit names its host, otherwise exactly when the
      set does not end in a --state-dir of its own without a value. */
  lemma StateDirKept(unit: seq<string>, words: seq<string>, stateDir: string)
    requires PlainUnit(unit) && !IsFlag(stateDir)
    ensures Found(MergeAll(unit, words, stateDir), "state-dir", None) == Some(stateDir)
      <==> Host(unit) != [] || !Dangling(words, "state-dir")
  {
    FrontDangles(unit, words, "state-dir");
    var front, end := Front(unit, words), ["--state-dir", stateDir];
    var tail := Host(unit) + end;
    assert MergeAll(unit, words, stateDir) == front + tail;
    if Dangling(front, "state-dir") {
      FoundDangling(front, tail, "state-dir", None);
      DanglingTail(unit, tail, stateDir);
    } else {
      FoundPast(front, tail, "state-dir", None);
      var f := Found(front, "state-dir", None);
      OwnFlag("--state-dir", stateDir, "state-dir", f);
      if Host(unit) != [] {
        OtherFlag("--host-name", Host(unit)[1], end, "state-dir", f);
        assert Host(unit) == ["--host-name", Host(unit)[1]];
      } else {
        assert tail == end;
      }
    }
  }

  lemma DanglingTail(unit: seq<string>, tail: seq<string>, stateDir: string)
    requires PlainUnit(unit) && !IsFlag(stateDir) && tail == Host(unit) + ["--state-dir", stateDir]
    ensures Found(tail[1..], "state-dir", Some(tail[0])) == Some(stateDir) <==> Host(unit) != []
  {
    var end := ["--state-dir", stateDir];
    if Host(unit) == [] {
      assert tail[1..] == [stateDir] && [stateDir][1..] == [];
    } else {
      assert tail[1..] == [Host(unit)[1]] + end && ([Host(unit)[1]] + end)[1..] == end;
      OwnFlag("--state-dir", stateDir, "state-dir", Some(tail[0]));
    }
  }

  /** The host's name stays the unit's exactly when the set does not end in a --host-name without a value. */
  lemma HostNameKept(unit: seq<string>, words: seq<string>, stateDir: string)
    requires PlainUnit(unit) && !IsFlag(stateDir) && Found(unit, "host-name", None).Some?
    ensures Found(MergeAll(unit, words, stateDir), "host-name", None) == Found(unit, "host-name", None)
      <==> !Dangling(words, "host-name")
  {
    FrontDangles(unit, words, "host-name");
    var front, end, host := Front(unit, words), ["--state-dir", stateDir], Host(unit)[1];
    var tail := ["--host-name", host] + end;
    assert MergeAll(unit, words, stateDir) == front + tail;
    assert end + [] == end;
    if Dangling(front, "host-name") {
      FoundDangling(front, tail, "host-name", None);
      assert tail[1..] == [host] + end && ([host] + end)[1..] == end;
      OtherFlag("--state-dir", stateDir, [], "host-name", Some("--host-name"));
      assert IsFlag("--host-name");
    } else {
      FoundPast(front, tail, "host-name", None);
      var f := Found(front, "host-name", None);
      assert tail[2..] == end;
      OtherFlag("--state-dir", stateDir, [], "host-name", Some(host));
    }
  }

  /** Where the daemon listens: the set's own address if it gives one, else the unit's; but a set ending in an --addr
      without a value takes the flag that follows it. */
  lemma ListenKept(unit: seq<string>, words: seq<string>, stateDir: string)
    requires PlainUnit(unit) && !IsFlag(stateDir)
    ensures Found(MergeAll(unit, words, stateDir), "addr", None) ==
      if Dangling(words, "addr") then Some(if Host(unit) != [] then "--host-name" else "--state-dir")
      else if Found(words, "addr", None).Some? then Found(words, "addr", None)
      else Found(unit, "addr", None)
  {
    var first, tail := FirstAddr(unit, words), Host(unit) + ["--state-dir", stateDir];
    assert MergeAll(unit, words, stateDir) == first + (words + tail);
    var given := if first == [] then None else Found(unit, "addr", None);
    assert Found(first + (words + tail), "addr", None) == Found(words + tail, "addr", given) by {
      if first == [] {
        assert first + (words + tail) == words + tail;
      } else {
        assert (first + (words + tail))[2..] == words + tail;
      }
    }
    if Dangling(words, "addr") {
      FoundDangling(words, tail, "addr", given);
      TailGivesNone(unit, tail[1..], stateDir, "addr", Some(tail[0]));
    } else {
      FoundPast(words, tail, "addr", given);
      TailGivesNone(unit, tail, stateDir, "addr", Found(words, "addr", given));
      FoundOr(words, "addr", given);
    }
  }

  /** Every other flag is the set's to give; only a set ending in one without a value has it take the flag that
      follows. */
  lemma OtherFlagsAreTheSets(unit: seq<string>, words: seq<string>, stateDir: string, name: string)
    requires PlainUnit(unit) && !IsFlag(stateDir) && name !in {"addr", "host-name", "state-dir"}
    ensures Found(MergeAll(unit, words, stateDir), name, None) ==
      if Dangling(words, name) then Some(if Host(unit) != [] then "--host-name" else "--state-dir")
      else Found(words, name, None)
  {
    var first, tail := FirstAddr(unit, words), Host(unit) + ["--state-dir", stateDir];
    assert MergeAll(unit, words, stateDir) == first + (words + tail);
    if first != [] {
      OtherFlag("--addr", first[1], words + tail, name, None);
      assert first == ["--addr", first[1]];
    } else {
      assert first + (words + tail) == words + tail;
    }
    if Dangling(words, name) {
      FoundDangling(words, tail, name, None);
      TailGivesNone(unit, tail[1..], stateDir, name, Some(tail[0]));
    } else {
      FoundPast(words, tail, name, None);
      TailGivesNone(unit, tail, stateDir, name, Found(words, name, None));
    }
  }

  function FirstAddr(unit: seq<string>, words: seq<string>): seq<string> {
    var addr := Found(unit, "addr", None);
    if addr.Some? && Found(words, "addr", None).None? then ["--addr", addr.value] else []
  }

  lemma StateDirPast(stateDir: string, name: string, found: Option<string>)
    requires !IsFlag(stateDir) && name != "state-dir"
    ensures Found(["--state-dir", stateDir], name, found) == found && Found([stateDir], name, found) == found
  {
    OtherFlag("--state-dir", stateDir, [], name, found);
    assert ["--state-dir", stateDir] + [] == ["--state-dir", stateDir] && [stateDir][1..] == [];
  }

  lemma HostNamePast(host: string, rest: seq<string>, name: string, found: Option<string>)
    requires !IsFlag(host) && name != "host-name"
    ensures Found(["--host-name", host] + rest, name, found) == Found(rest, name, found)
    ensures Found([host] + rest, name, found) == Found(rest, name, found)
  {
    OtherFlag("--host-name", host, rest, name, found);
    assert ([host] + rest)[1..] == rest;
  }

  /** What follows the set gives only the unit's host name and state directory. */
  lemma TailGivesNone(unit: seq<string>, rest: seq<string>, stateDir: string, name: string, found: Option<string>)
    requires PlainUnit(unit) && !IsFlag(stateDir) && name !in {"host-name", "state-dir"}
    requires var tail := Host(unit) + ["--state-dir", stateDir]; rest == tail || rest == tail[1..]
    ensures Found(rest, name, found) == found
  {
    var host, end := Found(unit, "host-name", None), ["--state-dir", stateDir];
    StateDirPast(stateDir, name, found);
    if host.Some? {
      HostNamePast(host.value, end, name, found);
      assert (["--host-name", host.value] + end)[1..] == [host.value] + end;
    } else {
      assert [] + end == end && end[1..] == [stateDir];
    }
  }

  /** What is found before counts only where the arguments give nothing. */
  lemma {:induction false} FoundOr(a: seq<string>, name: string, found: Option<string>)
    ensures Found(a, name, found) == if Found(a, name, None).Some? then Found(a, name, None) else found
    decreases |a|
  {
    if a != [] {
      var u := Undashed(a[0]);
      if IsFlag(a[0]) && u == name && |a| > 1 {
        FoundOr(a[2..], name, found);
        FoundOr(a[2..], name, Some(a[1]));
      } else if IsFlag(a[0]) && |u| > |name| && u[..|name| + 1] == name + "=" {
        FoundOr(a[1..], name, Some(u[|name| + 1..]));
      } else {
        FoundOr(a[1..], name, found);
      }
    }
  }
}
