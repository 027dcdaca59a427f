/** Strings as the configuration code uses them: trimming, cutting, splitting and joining.
    White space is Unicode's, as in Go's strings.TrimSpace. */
module Text {

  datatype Option<+T> = None | Some(value: T)

  /** Go's unicode.IsSpace. */
  predicate IsSpace(c: char) {
    || '\t' <= c <= '\r'
    || c == ' '
    || c == '\U{0085}' || c == '\U{00A0}' || c == '\U{1680}'
    || '\U{2000}' <= c <= '\U{200A}'
    || c == '\U{2028}' || c == '\U{2029}' || c == '\U{202F}' || c == '\U{205F}' || c == '\U{3000}'
  }

  function TrimLeft(s: string): string {
    if s != "" && IsSpace(s[0]) then TrimLeft(s[1..]) else s
  }

  function TrimRight(s: string): string {
    if s != "" && IsSpace(s[|s| - 1]) then TrimRight(s[..|s| - 1]) else s
  }

  /** strings.TrimSpace */
  function Trim(s: string): string {
    TrimRight(TrimLeft(s))
  }

  /** No white space at either end. */
  predicate Tight(s: string) {
    s == "" || (!IsSpace(s[0]) && !IsSpace(s[|s| - 1]))
  }

  lemma {:induction false} TrimRightProperties(s: string)
    ensures TrimRight(s) <= s
    ensures TrimRight(s) == "" || !IsSpace(TrimRight(s)[|TrimRight(s)| - 1])
  {
    if s != "" && IsSpace(s[|s| - 1]) {
      TrimRightProperties(s[..|s| - 1]);
    }
  }

  lemma {:induction false} TrimLeftProperties(s: string)
    ensures |TrimLeft(s)| <= |s| && TrimLeft(s) == s[|s| - |TrimLeft(s)|..]
    ensures TrimLeft(s) == "" || !IsSpace(TrimLeft(s)[0])
  {
    if s != "" && IsSpace(s[0]) {
      TrimLeftProperties(s[1..]);
    }
  }

  /** Trimming yields a tight string made of characters of the original, and leaves a tight one as it is. */
  lemma TrimProperties(s: string)
    ensures Tight(Trim(s)) && |Trim(s)| <= |s|
    ensures forall c :: c in Trim(s) ==> c in s
    ensures Trim(s) == s <==> Tight(s)
  {
    TrimLeftProperties(s);
    TrimRightProperties(TrimLeft(s));
    assert forall c :: c in TrimLeft(s) ==> c in s;
  }

  lemma {:induction false} TrimRightAfter(a: string, b: string)
    requires a != "" && !IsSpace(a[|a| - 1])
    ensures TrimRight(a + b) == a + TrimRight(b)
  {
    if b == "" {
      assert a + b == a;
    } else if IsSpace(b[|b| - 1]) {
      assert (a + b)[..|a + b| - 1] == a + b[..|b| - 1];
      TrimRightAfter(a, b[..|b| - 1]);
    }
  }

  predicate Blank(s: string) {
    forall c :: c in s ==> IsSpace(c)
  }

  lemma {:induction false} TrimLeftPast(a: string, s: string)
    requires Blank(a)
    ensures TrimLeft(a + s) == TrimLeft(s)
  {
    if a != "" {
      assert (a + s)[1..] == a[1..] + s;
      TrimLeftPast(a[1..], s);
    } else {
      assert a + s == s;
    }
  }

  lemma {:induction false} TrimRightPast(s: string, b: string)
    requires Blank(b)
    ensures TrimRight(s + b) == TrimRight(s)
  {
    if b != "" {
      assert (s + b)[..|s + b| - 1] == s + b[..|b| - 1];
      TrimRightPast(s, b[..|b| - 1]);
    } else {
      assert s + b == s;
    }
  }

  /** White space around a tight text is what trimming takes away. */
  lemma TrimAround(a: string, s: string, b: string)
    requires Blank(a) && Tight(s) && Blank(b)
    ensures Trim(a + s + b) == s
  {
    TrimProperties(s);
    assert a + s + b == a + (s + b);
    TrimLeftPast(a, s + b);
    if s == "" {
      assert s + b == b;
      TrimLeftPast(b, "");
      assert b + "" == b;
    } else {
      assert TrimLeft(s + b) == s + b;
      TrimRightPast(s, b);
    }
  }

  lemma {:induction false} TrimOfTrimRight(s: string)
    ensures Trim(TrimRight(s)) == Trim(s)
  {
    if s != "" && IsSpace(s[|s| - 1]) {
      var t := s[..|s| - 1];
      TrimOfTrimRight(t);
      DropLastSpace(s);
    }
  }

  lemma {:induction false} DropLastSpace(s: string)
    requires s != "" && IsSpace(s[|s| - 1])
    ensures Trim(s) == Trim(s[..|s| - 1])
  {
    if |s| == 1 {
      assert TrimLeft(s) == TrimLeft(s[1..]) == "";
    } else if IsSpace(s[0]) {
      assert s[1..][..|s[1..]| - 1] == s[..|s| - 1][1..];
      DropLastSpace(s[1..]);
    }
  }

  /** The index of the first c in s, or |s|. */
  function IndexOf(s: string, c: char): (i: nat)
    ensures i <= |s| && c !in s[..i]
    ensures i < |s| ==> s[i] == c
  {
    if s == "" || s[0] == c then 0 else 1 + IndexOf(s[1..], c)
  }

  lemma IndexOfSplit(a: string, c: char, b: string)
    requires c !in a
    ensures IndexOf(a + [c] + b, c) == |a|
  {
    var s := a + [c] + b;
    assert s[|a|] == c && s[..|a|] == a;
    assert IndexOf(s, c) <= |a| by {
      assert forall i :: |a| < i <= |s| ==> s[..i][|a|] == c;
    }
    assert forall i :: 0 <= i < |a| ==> s[i] == a[i];
  }

  /** strings.Cut: what comes before and after the first c, and whether there is one. */
  function Cut(s: string, c: char): (string, string, bool) {
    var i := IndexOf(s, c);
    if i == |s| then (s, "", false) else (s[..i], s[i + 1..], true)
  }

  lemma CutAt(a: string, c: char, b: string)
    requires c !in a
    ensures Cut(a + [c] + b, c) == (a, b, true)
  {
    IndexOfSplit(a, c, b);
    assert (a + [c] + b)[..|a|] == a && (a + [c] + b)[|a| + 1..] == b;
  }

  /** strings.Split for a one-character separator. */
  function Split(s: string, sep: char): (parts: seq<string>)
    ensures |parts| >= 1
    ensures forall p :: p in parts ==> sep !in p
  {
    if s == "" then [""]
    else if s[0] == sep then [""] + Split(s[1..], sep)
    else
      var rest := Split(s[1..], sep);
      [[s[0]] + rest[0]] + rest[1..]
  }

  /** strings.Join for a one-character separator. */
  function Join(parts: seq<string>, sep: char): string {
    if parts == [] then ""
    else if |parts| == 1 then parts[0]
    else parts[0] + [sep] + Join(parts[1..], sep)
  }

  lemma {:induction false} SplitWithout(s: string, sep: char)
    requires sep !in s
    ensures Split(s, sep) == [s]
  {
    if s != "" {
      SplitWithout(s[1..], sep);
      assert [s[0]] + s[1..] == s;
    }
  }

  lemma {:induction false} SplitConcat(a: string, sep: char, b: string)
    ensures Split(a + [sep] + b, sep) == Split(a, sep) + Split(b, sep)
  {
    var s := a + [sep] + b;
    if a == "" {
      assert s[1..] == b;
    } else {
      assert s[1..] == a[1..] + [sep] + b;
      SplitConcat(a[1..], sep, b);
    }
  }

  /** Splitting undoes joining, for parts that do not hold the separator. */
  lemma {:induction false} SplitJoin(parts: seq<string>, sep: char)
    requires parts != [] && forall p :: p in parts ==> sep !in p
    ensures Split(Join(parts, sep), sep) == parts
  {
    SplitWithout(parts[0], sep);
    if |parts| > 1 {
      SplitJoin(parts[1..], sep);
      SplitConcat(parts[0], sep, Join(parts[1..], sep));
      assert [parts[0]] + parts[1..] == parts;
    }
  }

  lemma JoinPrepend(c: char, parts: seq<string>, sep: char)
    requires parts != []
    ensures Join([[c] + parts[0]] + parts[1..], sep) == [c] + Join(parts, sep)
  {
    var longer := [[c] + parts[0]] + parts[1..];
    if |parts| > 1 {
      assert longer[1..] == parts[1..];
      assert [c] + parts[0] + [sep] + Join(parts[1..], sep) == [c] + (parts[0] + [sep] + Join(parts[1..], sep));
    }
  }

  /** Joining undoes splitting, for every string. */
  lemma {:induction false} JoinSplit(s: string, sep: char)
    ensures Join(Split(s, sep), sep) == s
  {
    if s != "" {
      var rest := Split(s[1..], sep);
      JoinSplit(s[1..], sep);
      assert s == [s[0]] + s[1..];
      if s[0] == sep {
        assert ([""] + rest)[1..] == rest;
      } else {
        JoinPrepend(s[0], rest, sep);
      }
    }
  }

  /** Strings in Go's order (byte order agrees with code point order). */
  predicate Before(a: string, b: string) {
    b != "" && (a == "" || a[0] < b[0] || (a[0] == b[0] && Before(a[1..], b[1..])))
  }

  lemma {:induction false} BeforeTransitive(a: string, b: string, c: string)
    requires Before(a, b) && Before(b, c)
    ensures Before(a, c)
  {
    if a != "" && a[0] == b[0] == c[0] {
      BeforeTransitive(a[1..], b[1..], c[1..]);
    }
  }

  lemma {:induction false} BeforeTotal(a: string, b: string)
    ensures a == b || Before(a, b) || Before(b, a)
    ensures !(Before(a, b) && Before(b, a))
    ensures !Before(a, a)
  {
    if a != "" && b != "" && a[0] == b[0] {
      BeforeTotal(a[1..], b[1..]);
      assert a == [a[0]] + a[1..] && b == [b[0]] + b[1..];
    }
    if a != "" {
      BeforeTotal(a[1..], a[1..]);
    }
  }

  ghost predicate Sorted(ss: seq<string>) {
    forall i, j :: 0 <= i < j < |ss| ==> Before(ss[i], ss[j])
  }

  /** The least string of a non-empty set. */
  lemma {:induction false} LeastExists(s: set<string>) returns (least: string)
    requires s != {}
    ensures least in s && forall k :: k in s && k != least ==> Before(least, k)
  {
    var x :| x in s;
    if s == {x} {
      return x;
    }
    var y := LeastExists(s - {x});
    BeforeTotal(x, y);
    if Before(x, y) {
      least := x;
      forall k | k in s && k != x ensures Before(x, k) {
        if k != y { BeforeTransitive(x, y, k); }
      }
    } else {
      least := y;
    }
  }

  lemma LeastInSet(s: set<string>)
    requires s != {}
    ensures exists least :: least in s && forall k :: k in s && k != least ==> Before(least, k)
  {
    var least := LeastExists(s);
  }

  /** A set of strings in order: what sorting a map's keys gives, whatever order they came in. */
  ghost function SortedKeys(s: set<string>): (keys: seq<string>)
    ensures |keys| == |s|
    ensures forall k :: k in keys <==> k in s
  {
    if s == {} then [] else
      LeastInSet(s);
      var least :| least in s && forall k :: k in s && k != least ==> Before(least, k);
      [least] + SortedKeys(s - {least})
  }

  lemma {:induction false} SortedKeysSorted(s: set<string>)
    ensures Sorted(SortedKeys(s))
  {
    if s != {} {
      var keys := SortedKeys(s);
      SortedKeysSorted(s - {keys[0]});
      assert keys[1..] == SortedKeys(s - {keys[0]});
      forall i, j | 0 <= i < j < |keys| ensures Before(keys[i], keys[j]) {
        if i == 0 {
          assert keys[j] == keys[1..][j - 1];
        } else {
          assert keys[i] == keys[1..][i - 1] && keys[j] == keys[1..][j - 1];
        }
      }
    }
  }

  /** sort.Strings over a map's keys. */
  method SortKeys(s: set<string>) returns (keys: seq<string>)
    ensures keys == SortedKeys(s)
  {
    keys := [];
    var rest := s;
    while rest != {}
      invariant keys + SortedKeys(rest) == SortedKeys(s)
    {
      LeastInSet(rest);
      var least :| least in rest && forall k :: k in rest && k != least ==> Before(least, k);
      SortedKeysHead(rest, least);
      keys, rest := keys + [least], rest - {least};
    }
  }

  lemma SortedKeysHead(s: set<string>, least: string)
    requires least in s && forall k :: k in s && k != least ==> Before(least, k)
    ensures SortedKeys(s) == [least] + SortedKeys(s - {least})
  {
    var head := SortedKeys(s)[0];
    SortedKeysSorted(s);
    BeforeTotal(head, least);
    var i :| 0 <= i < |s| && SortedKeys(s)[i] == least;
    assert head == least || Before(head, least);
  }
}
