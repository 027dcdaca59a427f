/** Bringing a DNS zone to a desired state (pkg/provider/dnssync.go): the plan, and what the provider's calls make of
    the zone (pkg/provider/digitalocean). Letters are ASCII. */
module DnsSync {

  function UpperChar(c: char): char {
    if 'a' <= c <= 'z' then c - 'a' + 'A' else c
  }

  function LowerChar(c: char): char {
    if 'A' <= c <= 'Z' then c - 'A' + 'a' else c
  }

  function Upper(s: string): string {
    if s == "" then "" else [UpperChar(s[0])] + Upper(s[1..])
  }

  function Lower(s: string): string {
    if s == "" then "" else [LowerChar(s[0])] + Lower(s[1..])
  }

  datatype Key = Key(typ: string, name: string)

  datatype Record = Record(typ: string, name: string, value: string, ttl: int, priority: int, id: nat)

  datatype Change = Change(record: Record, update: bool)

  function KeyOf(r: Record): Key {
    Key(Upper(r.typ), Lower(r.name))
  }

  /** A host name is compared without regard to case or a trailing dot; an address or a text exactly. */
  function NormValue(typ: string, v: string): string {
    if typ == "A" || typ == "AAAA" || typ == "TXT" then v
    else Lower(if v != "" && v[|v| - 1] == '.' then v[..|v| - 1] else v)
  }

  predicate SingleValued(typ: string) {
    Upper(typ) == "A" || Upper(typ) == "AAAA" || Upper(typ) == "CNAME"
  }

  /** What a record says: two records of one wish are the same record to the zone, but for TTL and priority. */
  datatype Wish = Wish(key: Key, value: string)

  function WishOf(r: Record): Wish {
    Wish(KeyOf(r), NormValue(Upper(r.typ), r.value))
  }

  /** A TTL or a priority counts only when it is asked for. */
  predicate FieldsOk(e: Record, d: Record) {
    (d.ttl > 0 ==> e.ttl == d.ttl) && (d.priority > 0 ==> e.priority == d.priority)
  }

  // ------------------------------------------------------------------ the plan

  function Having(rs: seq<Record>, k: Key): seq<Record> {
    if rs == [] then [] else
      var before, r := Having(rs[..|rs| - 1], k), rs[|rs| - 1];
      if KeyOf(r) == k then before + [r] else before
  }

  /** The keys of the records, each once, in the order they come. */
  function KeysOf(rs: seq<Record>): seq<Key> {
    if rs == [] then [] else
      var before, k := KeysOf(rs[..|rs| - 1]), KeyOf(rs[|rs| - 1]);
      if k in before then before else before + [k]
  }

  function Values(ex: seq<Record>, typ: string): (values: seq<string>)
    ensures |values| == |ex| && forall i :: 0 <= i < |ex| ==> values[i] == NormValue(typ, ex[i].value)
  {
    if ex == [] then [] else Values(ex[..|ex| - 1], typ) + [NormValue(typ, ex[|ex| - 1].value)]
  }

  /** The first of the values from the ith on that is v and not used, or how many there are. */
  function FirstIn(values: seq<string>, used: set<nat>, v: string, i: nat): (r: nat)
    requires i <= |values|
    ensures i <= r <= |values|
    ensures r < |values| ==> r !in used && values[r] == v
    ensures forall j :: i <= j < r ==> j in used || values[j] != v
    decreases |values| - i
  {
    if i == |values| || (i !in used && values[i] == v) then i else FirstIn(values, used, v, i + 1)
  }

  /** The first record not used yet that has the value d wants, or |ex|. */
  function FirstFree(ex: seq<Record>, used: set<nat>, d: Record): (r: nat)
    ensures r <= |ex|
    ensures r < |ex| ==> r !in used && SameValue(ex[r], d)
    ensures forall j :: 0 <= j < r ==> j in used || !SameValue(ex[j], d)
  {
    FirstIn(Values(ex, Upper(d.typ)), used, NormValue(Upper(d.typ), d.value), 0)
  }

  predicate SameValue(e: Record, d: Record) {
    NormValue(Upper(d.typ), e.value) == NormValue(Upper(d.typ), d.value)
  }

  datatype Matching = Matching(used: set<nat>, missing: seq<Record>, changes: seq<Change>)

  function MatchOne(ex: seq<Record>, g: Matching, d: Record): Matching {
    var hit := FirstFree(ex, g.used, d);
    if hit == |ex| then g.(missing := g.missing + [d])
    else if FieldsOk(ex[hit], d) then g.(used := g.used + {hit})
    else Matching(g.used + {hit}, g.missing, g.changes + [Change(d.(id := ex[hit].id), true)])
  }

  function MatchAll(ex: seq<Record>, ds: seq<Record>): Matching {
    if ds == [] then Matching({}, [], []) else MatchOne(ex, MatchAll(ex, ds[..|ds| - 1]), ds[|ds| - 1])
  }

  /** The records of the first n that are not used. */
  function Spare(ex: seq<Record>, used: set<nat>, n: nat): seq<Record>
    requires n <= |ex|
  {
    if n == 0 then [] else if n - 1 in used then Spare(ex, used, n - 1) else Spare(ex, used, n - 1) + [ex[n - 1]]
  }

  function Creates(missing: seq<Record>): seq<Change> {
    if missing == [] then [] else Creates(missing[..|missing| - 1]) + [Change(missing[|missing| - 1], false)]
  }

  function Filling(missing: seq<Record>, spare: seq<Record>): seq<Change> {
    if |missing| == 1 && |spare| == 1 && SingleValued(missing[0].typ)
    then [Change(missing[0].(id := spare[0].id), true)] else Creates(missing)
  }

  function PlanKey(ex: seq<Record>, ds: seq<Record>): seq<Change> {
    var g := MatchAll(ex, ds);
    g.changes + Filling(g.missing, Spare(ex, g.used, |ex|))
  }

  function PlanKeys(existing: seq<Record>, desired: seq<Record>, keys: seq<Key>): seq<Change> {
    if keys == [] then [] else
      var k := keys[|keys| - 1];
      PlanKeys(existing, desired, keys[..|keys| - 1]) + PlanKey(Having(existing, k), Having(desired, k))
  }

  function Planned(existing: seq<Record>, desired: seq<Record>): seq<Change> {
    PlanKeys(existing, desired, KeysOf(desired))
  }

  function At(m: map<Key, seq<Record>>, k: Key): seq<Record> {
    if k in m then m[k] else []
  }

  /** The changes that make a zone hold the desired records; it never removes one. */
  method PlanDNSSync(existing: seq<Record>, desired: seq<Record>) returns (changes: seq<Change>)
    ensures changes == Planned(existing, desired)
    ensures |existing| == 1 && |desired| == 1 ==> changes == OneForOne(existing[0], desired[0])
  {
    var have := Grouped(existing);
    var want, order := Ordered(desired);
    changes := PlanEach(have, want, order, existing, desired);
    if |existing| == 1 && |desired| == 1 {
      assert existing == [existing[0]] && desired == [desired[0]];
      OneRecordEach(existing[0], desired[0]);
    }
  }

  /** The records of each key. */
  predicate GroupsOf(m: map<Key, seq<Record>>, rs: seq<Record>, keys: seq<Key>) {
    forall k :: k in keys ==> At(m, k) == Having(rs, k)
  }

  method PlanEach(have: map<Key, seq<Record>>, want: map<Key, seq<Record>>, order: seq<Key>,
                  ghost existing: seq<Record>, ghost desired: seq<Record>) returns (changes: seq<Change>)
    requires GroupsOf(have, existing, order) && GroupsOf(want, desired, order)
    ensures changes == PlanKeys(existing, desired, order)
  {
    changes := [];
    for n := 0 to |order|
      invariant changes == PlanKeys(existing, desired, order[..n])
    {
      PlanKeysStep(existing, desired, order, n);
      assert order[n] in order;
      var planned := PlanOne(At(have, order[n]), At(want, order[n]));
      changes := changes + planned;
    }
    assert order[..|order|] == order;
  }

  lemma PlanKeysStep(existing: seq<Record>, desired: seq<Record>, order: seq<Key>, n: nat)
    requires n < |order|
    ensures PlanKeys(existing, desired, order[..n + 1])
         == PlanKeys(existing, desired, order[..n]) + PlanKey(Having(existing, order[n]), Having(desired, order[n]))
  {
    assert order[..n + 1][..n] == order[..n];
  }

  method Grouped(rs: seq<Record>) returns (m: map<Key, seq<Record>>)
    ensures forall k :: At(m, k) == Having(rs, k)
  {
    m := map[];
    for n := 0 to |rs|
      invariant forall k :: At(m, k) == Having(rs[..n], k)
    {
      assert rs[..n + 1][..n] == rs[..n];
      m := m[KeyOf(rs[n]) := At(m, KeyOf(rs[n])) + [rs[n]]];
    }
    assert rs[..|rs|] == rs;
  }

  method Ordered(rs: seq<Record>) returns (m: map<Key, seq<Record>>, order: seq<Key>)
    ensures forall k :: At(m, k) == Having(rs, k)
    ensures order == KeysOf(rs)
  {
    m, order := map[], [];
    for n := 0 to |rs|
      invariant forall k :: At(m, k) == Having(rs[..n], k)
      invariant order == KeysOf(rs[..n]) && forall k :: k in order <==> k in m
    {
      assert rs[..n + 1][..n] == rs[..n];
      if KeyOf(rs[n]) !in m {
        order := order + [KeyOf(rs[n])];
      }
      m := m[KeyOf(rs[n]) := At(m, KeyOf(rs[n])) + [rs[n]]];
    }
    assert rs[..|rs|] == rs;
  }

  /** The changes for the records of one type and name. */
  method PlanOne(ex: seq<Record>, ds: seq<Record>) returns (changes: seq<Change>)
    ensures changes == PlanKey(ex, ds)
  {
    var g := MatchEach(ex, ds);
    var spare := FindSpare(ex, g.used);
    changes := FillIn(g, spare);
  }

  method MatchEach(ex: seq<Record>, ds: seq<Record>) returns (g: Matching)
    ensures g == MatchAll(ex, ds)
  {
    g := Matching({}, [], []);
    for n := 0 to |ds|
      invariant g == MatchAll(ex, ds[..n])
    {
      assert ds[..n + 1][..n] == ds[..n];
      g := MatchOne(ex, g, ds[n]);
    }
    assert ds[..|ds|] == ds;
  }

  method FindSpare(ex: seq<Record>, used: set<nat>) returns (spare: seq<Record>)
    ensures spare == Spare(ex, used, |ex|)
  {
    spare := [];
    for i := 0 to |ex|
      invariant spare == Spare(ex, used, i)
    {
      if i !in used {
        spare := spare + [ex[i]];
      }
    }
  }

  /** A lone missing record of a single-valued type takes over the lone spare one; otherwise all are created. */
  method FillIn(g: Matching, spare: seq<Record>) returns (changes: seq<Change>)
    ensures changes == g.changes + Filling(g.missing, spare)
  {
    changes := g.changes;
    if |g.missing| == 1 && |spare| == 1 && SingleValued(g.missing[0].typ) {
      return changes + [Change(g.missing[0].(id := spare[0].id), true)];
    }
    for i := 0 to |g.missing|
      invariant changes == g.changes + Creates(g.missing[..i])
    {
      assert g.missing[..i + 1][..i] == g.missing[..i];
      changes := changes + [Change(g.missing[i], false)];
    }
    assert g.missing[..|g.missing|] == g.missing;
  }

  // ------------------------------------------------------- one record for another

  /** The same but for the case of its letters. */
  ghost predicate SameText(a: string, b: string) {
    |a| == |b| && forall i :: 0 <= i < |a| ==> a[i] == b[i] || OtherCase(a[i], b[i]) || OtherCase(b[i], a[i])
  }

  predicate OtherCase(a: char, b: char) {
    'a' <= a <= 'z' && b as int + 32 == a as int
  }

  function Undotted(v: string): string {
    if |v| > 0 && v[|v| - 1] == '.' then v[..|v| - 1] else v
  }

  /** The values are the same for d's type: addresses and texts exactly, host names but for case and a last dot. */
  ghost predicate SameIn(e: Record, d: Record) {
    if SameText(d.typ, "A") || SameText(d.typ, "AAAA") || SameText(d.typ, "TXT") then e.value == d.value
    else SameText(Undotted(e.value), Undotted(d.value))
  }

  /** What is planned for one record where another is: nothing if it is the same record already; a change of it if it
      is the same but for TTL or priority, or may stand only once; a record beside it otherwise. */
  ghost function OneForOne(e: Record, d: Record): seq<Change> {
    var once := SameText(d.typ, "A") || SameText(d.typ, "AAAA") || SameText(d.typ, "CNAME");
    var same := SameIn(e, d);
    if !SameText(e.typ, d.typ) || !SameText(e.name, d.name) then [Change(d, false)]
    else if same && (d.ttl <= 0 || d.ttl == e.ttl) && (d.priority <= 0 || d.priority == e.priority) then []
    else if same || once then [Change(d.(id := e.id), true)]
    else [Change(d, false)]
  }

  lemma {:induction false} UpperIff(a: string, b: string)
    ensures Upper(a) == Upper(b) <==> SameText(a, b)
    ensures |Upper(a)| == |a|
  {
    if a != "" && b != "" {
      UpperIff(a[1..], b[1..]);
      assert Upper(a)[0] == UpperChar(a[0]) && Upper(b)[0] == UpperChar(b[0]);
      assert Upper(a)[1..] == Upper(a[1..]) && Upper(b)[1..] == Upper(b[1..]);
      assert SameText(a, b) ==> forall i :: 0 <= i < |a| - 1 ==> a[1..][i] == a[i + 1] && b[1..][i] == b[i + 1];
      assert SameText(a[1..], b[1..]) ==> forall i :: 1 <= i < |a| ==> a[i] == a[1..][i - 1] && b[i] == b[1..][i - 1];
    } else if a != "" {
      UpperIff(a[1..], b);
    }
  }

  lemma {:induction false} LowerIff(a: string, b: string)
    ensures Lower(a) == Lower(b) <==> SameText(a, b)
    ensures |Lower(a)| == |a|
  {
    if a != "" && b != "" {
      LowerIff(a[1..], b[1..]);
      assert Lower(a)[0] == LowerChar(a[0]) && Lower(b)[0] == LowerChar(b[0]);
      assert Lower(a)[1..] == Lower(a[1..]) && Lower(b)[1..] == Lower(b[1..]);
      assert SameText(a, b) ==> forall i :: 0 <= i < |a| - 1 ==> a[1..][i] == a[i + 1] && b[1..][i] == b[i + 1];
      assert SameText(a[1..], b[1..]) ==> forall i :: 1 <= i < |a| ==> a[i] == a[1..][i - 1] && b[i] == b[1..][i - 1];
    } else if a != "" {
      LowerIff(a[1..], b);
    }
  }

  lemma UpperTypes()
    ensures Upper("A") == "A" && Upper("AAAA") == "AAAA" && Upper("TXT") == "TXT" && Upper("CNAME") == "CNAME"
  {
    assert Upper("CNAME"[1..]) == "NAME" by {
      assert "CNAME"[1..] == "NAME" && "NAME"[1..] == "AME" && "AME"[1..] == "ME" && "ME"[1..] == "E";
      assert Upper("ME") == "ME";
    }
    assert Upper("AAAA"[1..]) == "AAA" by {
      assert "AAAA"[1..] == "AAA" && "AAA"[1..] == "AA" && "AA"[1..] == "A";
      assert Upper("AA") == "AA";
    }
    assert "TXT"[1..] == "XT" && "XT"[1..] == "T";
  }

  lemma OneOfKey(e: Record, k: Key)
    ensures Having([e], k) == if KeyOf(e) == k then [e] else []
    ensures KeysOf([e]) == [KeyOf(e)]
  {
    assert [e][..0] == [];
  }

  lemma MatchedOne(ex: seq<Record>, d: Record)
    ensures MatchAll(ex, [d]) == MatchOne(ex, Matching({}, [], []), d)
    ensures Creates([d]) == [Change(d, false)]
  {
    assert [d][..0] == [];
  }

  lemma OneGroup(e: Record, d: Record)
    ensures Planned([e], [d]) == PlanKey(if KeyOf(e) == KeyOf(d) then [e] else [], [d])
  {
    var k := KeyOf(d);
    OneOfKey(e, k);
    OneOfKey(d, k);
    assert [k][..0] == [] && [k][0] == k;
    assert PlanKeys([e], [d], []) == [];
    var changes := PlanKey(Having([e], k), [d]);
    assert PlanKeys([e], [d], [k]) == [] + changes;
    assert [] + changes == changes;
  }

  lemma PlanNew(d: Record)
    ensures PlanKey([], [d]) == [Change(d, false)]
  {
    MatchedOne([], d);
  }

  lemma PlanPair(e: Record, d: Record)
    ensures PlanKey([e], [d]) ==
      if SameValue(e, d) then if FieldsOk(e, d) then [] else [Change(d.(id := e.id), true)]
      else if SingleValued(d.typ) then [Change(d.(id := e.id), true)] else [Change(d, false)]
  {
    MatchedOne([e], d);
    assert Spare([e], {}, 0) == [] && Spare([e], {0}, 0) == [];
    assert Creates([]) == [];
  }

  lemma KeyIff(e: Record, d: Record)
    ensures KeyOf(e) == KeyOf(d) <==> SameText(e.typ, d.typ) && SameText(e.name, d.name)
  {
    UpperIff(e.typ, d.typ);
    LowerIff(e.name, d.name);
  }

  lemma SameValueIff(e: Record, d: Record)
    ensures SameValue(e, d) <==> SameIn(e, d)
  {
    UpperTypes();
    UpperIff(d.typ, "A");
    UpperIff(d.typ, "AAAA");
    UpperIff(d.typ, "TXT");
    LowerIff(Undotted(e.value), Undotted(d.value));
  }

  lemma SingleValuedIff(typ: string)
    ensures SingleValued(typ) <==> SameText(typ, "A") || SameText(typ, "AAAA") || SameText(typ, "CNAME")
  {
    UpperTypes();
    UpperIff(typ, "A");
    UpperIff(typ, "AAAA");
    UpperIff(typ, "CNAME");
  }

  lemma PlannedOne(e: Record, d: Record)
    ensures Planned([e], [d]) == PlanOfOne(e, d)
  {
    OneGroup(e, d);
    if KeyOf(e) == KeyOf(d) {
      PlanPair(e, d);
    } else {
      PlanNew(d);
    }
  }

  function PlanOfOne(e: Record, d: Record): seq<Change> {
    if KeyOf(e) != KeyOf(d) then [Change(d, false)]
    else if SameValue(e, d) then if FieldsOk(e, d) then [] else [Change(d.(id := e.id), true)]
    else if SingleValued(d.typ) then [Change(d.(id := e.id), true)] else [Change(d, false)]
  }

  lemma PlanOfOneIs(e: Record, d: Record)
    ensures PlanOfOne(e, d) == OneForOne(e, d)
  {
    KeyIff(e, d);
    SameValueIff(e, d);
    SingleValuedIff(d.typ);
  }

  lemma OneRecordEach(e: Record, d: Record)
    ensures Planned([e], [d]) == OneForOne(e, d)
  {
    PlannedOne(e, d);
    PlanOfOneIs(e, d);
  }
}
