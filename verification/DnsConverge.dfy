/** Applying a DNS plan and planning again (pkg/provider/dnssync.go). The next plan is empty for every zone exactly when
    repeated desired records of a single-valued type ask for the same (ConvergesIff): only there can a plan put a
    record ahead of those that others of its wish are paired with. */
module DnsConverge {
  import opened DnsSync
  import opened DnsZone
  import opened DnsMatch
  import opened DnsPlan

  // ------------------------------------------------------------------ it converges

  /** Desired records of one wish ask for the same TTL and priority, where a takeover can bring them out of order. */
  predicate RepeatsAgree(ds: seq<Record>) {
    forall d, e :: d in ds && e in ds && WishOf(d) == WishOf(e) && SingleValued(d.typ) ==> SameFields(d, e)
  }

  lemma TakenAgree(ds: seq<Record>, m: Record)
    requires RepeatsAgree(ds) && SingleValued(m.typ)
    ensures Agree(Like(ds, WishOf(m)))
  {
    LikeMembers(ds, WishOf(m));
    var want := Like(ds, WishOf(m));
    forall i, j | 0 <= i < |want| && 0 <= j < |want| ensures SameFields(want[i], want[j]) {
      assert want[i] in want && want[j] in want;
      assert Upper(want[i].typ) == Upper(m.typ);
    }
  }

  lemma {:induction false} WishMet(v: seq<Record>, ds: seq<Record>, news: seq<New>, w: Wish)
    requires UniqueIds(v) && RepeatsAgree(ds) && |news| == |Planned(v, ds)| && NewIds(v, news)
    ensures Fits(Like(ApplyAll(v, Planned(v, ds), news), w), Like(ds, w))
  {
    KeysOfIs(ds);
    if w.key !in KeysOf(ds) {
      NoneLike(ds, w);
    } else if i: nat :| TakesOver(Having(v, w.key), Having(ds, w.key), i) {
      var p := TakenAt(v, ds, w.key, i);
      var m := Lacking(Having(v, w.key), Having(ds, w.key))[0];
      if w == WishOf(m) {
        TakenAgree(ds, m);
        MissingWishFits(v[..p], v[p], v[p + 1..], ds, m, news);
      } else {
        OtherWishFits(v[..p], v[p], v[p + 1..], ds, m, news, w);
      }
    } else {
      FilledFits(v, ds, news, w);
    }
  }

  /** Applying the plan and planning again gives no change, whatever is in the zone. */
  ghost predicate AlwaysConverges(ds: seq<Record>) {
    forall v, news :: UniqueIds(v) && |news| == |Planned(v, ds)| && NewIds(v, news) ==>
      Planned(ApplyAll(v, Planned(v, ds), news), ds) == []
  }

  lemma {:induction false} Converges(v: seq<Record>, ds: seq<Record>, news: seq<New>)
    requires UniqueIds(v) && RepeatsAgree(ds) && |news| == |Planned(v, ds)| && NewIds(v, news)
    ensures Planned(ApplyAll(v, Planned(v, ds), news), ds) == []
  {
    var u := ApplyAll(v, Planned(v, ds), news);
    forall w ensures Fits(Like(u, w), Like(ds, w)) {
      WishMet(v, ds, news, w);
    }
    NothingPlannedIff(u, ds);
  }

  // --------------------------------------------------- a zone where it does not

  /** As many records as these, saying the same. */
  function Copies(rs: seq<Record>): (copies: seq<Record>)
    ensures |copies| == |rs| && forall i :: 0 <= i < |rs| ==> copies[i] == rs[i].(id := i + 1)
  {
    if rs == [] then [] else Copies(rs[..|rs| - 1]) + [rs[|rs| - 1].(id := |rs|)]
  }

  predicate SaySame(es: seq<Record>, ds: seq<Record>) {
    |es| == |ds| && forall j :: 0 <= j < |es| ==> es[j].ttl == ds[j].ttl && es[j].priority == ds[j].priority
  }

  lemma {:induction false} LikeCopies(rs: seq<Record>, w: Wish)
    ensures SaySame(Like(Copies(rs), w), Like(rs, w))
  {
    if rs != [] {
      LikeCopies(rs[..|rs| - 1], w);
      LikeSnoc(Copies(rs[..|rs| - 1]), rs[|rs| - 1].(id := |rs|), w);
    }
  }

  lemma {:induction false} AllLike(rs: seq<Record>, w: Wish)
    requires forall r :: r in rs ==> WishOf(r) == w
    ensures Like(rs, w) == rs
  {
    if rs != [] {
      assert rs == rs[..|rs| - 1] + [rs[|rs| - 1]];
      AllLike(rs[..|rs| - 1], w);
    }
  }

  /** Records of which one wish has only m and the others none are m alone. */
  lemma LikeDecides(rs: seq<Record>, m: Record)
    requires forall w :: Like(rs, w) == if WishOf(m) == w then [m] else []
    ensures rs == [m]
  {
    forall r | r in rs ensures WishOf(r) == WishOf(m) {
      LikeMembers(rs, WishOf(r));
      assert r in Like(rs, WishOf(r));
    }
    AllLike(rs, WishOf(m));
  }

  /** The zone of s and of a copy of each of the records. */
  function ZoneOf(s: Record, rs: seq<Record>): seq<Record> {
    [s] + Copies(rs)
  }

  /** The records of k desired are these, m the last of its wish, and none of the wish of s, which is of k too. */
  ghost predicate Displaces(ds: seq<Record>, k: Key, a: seq<Record>, m: Record, b: seq<Record>, s: Record) {
    && Having(ds, k) == a + [m] + b && SingleValued(m.typ) && Like(b, WishOf(m)) == []
    && KeyOf(s) == k && s.id == 0 && Like(ds, WishOf(s)) == []
  }

  lemma ZoneLike(ds: seq<Record>, k: Key, a: seq<Record>, m: Record, b: seq<Record>, s: Record, w: Wish)
    requires Having(ds, k) == a + [m] + b && w.key == k
    ensures Like(ds, w) == Like(a, w) + (if WishOf(m) == w then [m] else []) + Like(b, w)
    ensures Like(ZoneOf(s, a + b), w) == (if WishOf(s) == w then [s] else []) + Like(Copies(a + b), w)
    ensures SaySame(Like(Copies(a + b), w), Like(a, w) + Like(b, w))
  {
    LikeHaving(ds, k, w);
    LikeAround(a, m, b, w);
    LikeConcat(a, b, w);
    LikeCopies(a + b, w);
    LikeConcat([s], Copies(a + b), w);
    LikeSnoc([], s, w);
    assert [] + [s] == [s];
  }

  /** Of m's wish there is one too few, and of the others none. */
  lemma ZoneCounts(ds: seq<Record>, k: Key, a: seq<Record>, m: Record, b: seq<Record>, s: Record, w: Wish)
    requires Displaces(ds, k, a, m, b, s) && w.key == k
    ensures WishOf(m) == w ==> |Like(ds, w)| == |Like(ZoneOf(s, a + b), w)| + 1 && Like(ds, w)[|Like(ds, w)| - 1] == m
    ensures WishOf(m) != w ==> |Like(ds, w)| <= |Like(ZoneOf(s, a + b), w)|
    ensures WishOf(s) != w ==> |Like(ZoneOf(s, a + b), w)| <= |Like(ds, w)|
  {
    ZoneLike(ds, k, a, m, b, s, w);
  }

  lemma ZoneLacksOf(ds: seq<Record>, k: Key, a: seq<Record>, m: Record, b: seq<Record>, s: Record, w: Wish)
    requires Displaces(ds, k, a, m, b, s) && Having(ZoneOf(s, a + b), k) == ZoneOf(s, a + b) && w.key == k
    ensures Like(Lacking(ZoneOf(s, a + b), Having(ds, k)), w) == if WishOf(m) == w then [m] else []
  {
    var v := ZoneOf(s, a + b);
    ZoneCounts(ds, k, a, m, b, s, w);
    LackingOf(v, ds, w);
    BeyondThere(Like(v, w), Like(ds, w), m, WishOf(m) == w);
  }

  lemma BeyondThere(there: seq<Record>, want: seq<Record>, m: Record, last: bool)
    requires if last then |want| == |there| + 1 && want[|want| - 1] == m else |want| <= |there|
    ensures (if |there| <= |want| then want[|there|..] else []) == if last then [m] else []
  {
  }

  lemma ZoneLacks(ds: seq<Record>, k: Key, a: seq<Record>, m: Record, b: seq<Record>, s: Record)
    requires Displaces(ds, k, a, m, b, s) && Having(ZoneOf(s, a + b), k) == ZoneOf(s, a + b)
    ensures Lacking(ZoneOf(s, a + b), Having(ds, k)) == [m]
  {
    var lacking := Lacking(ZoneOf(s, a + b), Having(ds, k));
    HavingMembers(ds, k);
    assert m in Having(ds, k);
    LackingMembers(ZoneOf(s, a + b), Having(ds, k));
    forall w ensures Like(lacking, w) == if WishOf(m) == w then [m] else [] {
      if w.key == k {
        ZoneLacksOf(ds, k, a, m, b, s, w);
      } else {
        NoneLike(lacking, w);
      }
    }
    LikeDecides(lacking, m);
  }

  lemma {:induction false} HavingAll(rs: seq<Record>, k: Key)
    requires OfKey(rs, k)
    ensures Having(rs, k) == rs
  {
    if rs != [] {
      assert rs == rs[..|rs| - 1] + [rs[|rs| - 1]];
      HavingAll(rs[..|rs| - 1], k);
    }
  }

  lemma ZoneIsOfKey(ds: seq<Record>, k: Key, a: seq<Record>, m: Record, b: seq<Record>, s: Record)
    requires Displaces(ds, k, a, m, b, s)
    ensures OfKey(ZoneOf(s, a + b), k) && UniqueIds(ZoneOf(s, a + b))
    ensures forall e :: e in Copies(a + b) ==> WishOf(e) != WishOf(s)
  {
    HavingMembers(ds, k);
    LikeMembers(ds, WishOf(s));
    forall e | e in Copies(a + b) ensures KeyOf(e) == k && WishOf(e) != WishOf(s) {
      var i :| 0 <= i < |a + b| && Copies(a + b)[i] == e;
      assert (a + b)[i] in a + [m] + b;
      assert WishOf(e) == WishOf((a + b)[i]);
    }
  }

  lemma ZoneWanted(ds: seq<Record>, k: Key, a: seq<Record>, m: Record, b: seq<Record>, s: Record, j: nat)
    requires Displaces(ds, k, a, m, b, s) && OfKey(ZoneOf(s, a + b), k) && j < |ZoneOf(s, a + b)|
    requires forall e :: e in Copies(a + b) ==> WishOf(e) != WishOf(s)
    ensures Wanted(ZoneOf(s, a + b), Having(ds, k), j) <==> j != 0
  {
    var v := ZoneOf(s, a + b);
    var w := WishOf(v[j]);
    assert v[j] in v;
    LikeHaving(ds, k, w);
    if j > 0 {
      assert v[j] == Copies(a + b)[j - 1];
      LikeAt(v, j);
      ZoneCounts(ds, k, a, m, b, s, w);
    }
  }

  /** In that zone m takes over s. */
  lemma ZoneTaken(ds: seq<Record>, k: Key, a: seq<Record>, m: Record, b: seq<Record>, s: Record)
    requires Displaces(ds, k, a, m, b, s)
    ensures Taken([], s, Copies(a + b), ds, m) && ZoneOf(s, a + b) == [] + [s] + Copies(a + b)
  {
    var v := ZoneOf(s, a + b);
    ZoneIsOfKey(ds, k, a, m, b, s);
    HavingAll(v, k);
    ZoneLacks(ds, k, a, m, b, s);
    forall j: nat | j < |v| ensures Wanted(v, Having(ds, k), j) <==> j != 0 {
      ZoneWanted(ds, k, a, m, b, s, j);
    }
    assert TakesOver(v, Having(ds, k), 0);
    KeysOfIs(ds);
    HavingMembers(ds, k);
    assert m in Having(ds, k);
    var p := TakenAt(v, ds, k, 0);
    assert p == 0;
    assert v[..0] == [] && v[1..] == Copies(a + b);
  }

  // --------------------------------------------------------------- what it shows

  /** The numbers from one place to the next in a circle agree, where one is asked for: then all do. */
  lemma {:induction false} Circle(xs: seq<int>, j: nat)
    requires j < |xs| && xs[j] > 0 && forall i :: 0 < i < |xs| && xs[i] > 0 ==> xs[i - 1] == xs[i]
    ensures forall i :: 0 <= i <= j ==> xs[i] == xs[j]
  {
    if j > 0 {
      Circle(xs, j - 1);
    }
  }

  lemma Circled(xs: seq<int>, i: nat, j: nat)
    requires i < |xs| && j < |xs| && forall i :: 0 < i < |xs| && xs[i] > 0 ==> xs[i - 1] == xs[i]
    requires xs[0] > 0 ==> xs[|xs| - 1] == xs[0]
    ensures xs[i] == xs[j] || (xs[i] <= 0 && xs[j] <= 0)
  {
    if xs[i] > 0 {
      Circle(xs, i);
      Circle(xs, |xs| - 1);
    }
    if xs[j] > 0 {
      Circle(xs, j);
      Circle(xs, |xs| - 1);
    }
  }

  /** Records that fit one place further on, in a circle, agree. */
  lemma ShiftedAgree(there: seq<Record>, want: seq<Record>, s: Record)
    requires Fits(there, want) && want != [] && s.ttl <= 0 && s.priority <= 0
    requires there[0] == Updated(s, want[|want| - 1])
    requires SaySame(there[1..|want|], want[..|want| - 1])
    ensures Agree(want)
  {
    var n := |want|;
    var ttls := seq(n, i requires 0 <= i < n => want[i].ttl);
    var priorities := seq(n, i requires 0 <= i < n => want[i].priority);
    forall i | 0 < i < n
      ensures (ttls[i] > 0 ==> ttls[i - 1] == ttls[i]) && (priorities[i] > 0 ==> priorities[i - 1] == priorities[i])
    {
      assert there[1..n][i - 1] == there[i] && want[..n - 1][i - 1] == want[i - 1];
      assert FieldsOk(there[i], want[i]);
    }
    assert FieldsOk(there[0], want[0]);
    forall i, j | 0 <= i < n && 0 <= j < n ensures SameFields(want[i], want[j]) {
      Circled(ttls, i, j);
      Circled(priorities, i, j);
    }
  }

  /** Of m's wish the zone has copies of all but the last. */
  lemma ZoneWish(ds: seq<Record>, k: Key, a: seq<Record>, m: Record, b: seq<Record>, s: Record)
    requires Displaces(ds, k, a, m, b, s)
    ensures Like(ds, WishOf(m)) == Like(a, WishOf(m)) + [m] && WishOf(s) != WishOf(m) && WishOf(m).key == k
    ensures Like(ZoneOf(s, a + b), WishOf(m)) == Like(Copies(a + b), WishOf(m))
    ensures SaySame(Like(Copies(a + b), WishOf(m)), Like(a, WishOf(m)))
  {
    HavingMembers(ds, k);
    assert m in Having(ds, k);
    LikeMembers(ds, WishOf(s));
    ZoneLike(ds, k, a, m, b, s, WishOf(m));
    NothingAfter(Like(a, WishOf(m)), Like(b, WishOf(m)));
  }

  lemma NothingAfter(a: seq<Record>, b: seq<Record>)
    requires b == []
    ensures a + b == a && forall m :: a + [m] + b == a + [m]
  {
  }

  lemma CopyStays(v: seq<Record>, ds: seq<Record>, s: Record, m: Record, w: Wish, j: nat)
    requires v != [] && v[0] == s && UniqueIds(v) && w.key in KeysOf(ds) && WishOf(s) != w
    requires Fills(v, ds, w.key, [Change(m.(id := s.id), true)])
    requires j < |Like(v, w)| && j < |Like(ds, w)| && FieldsOk(Like(v, w)[j], Like(ds, w)[j])
    ensures Patch(Like(v, w)[j], Planned(v, ds)) == Like(v, w)[j]
  {
    assert v[..0] == [];
    LikeAt(v, 0);
    LikeApart(v, w, j, WishOf(s), 0);
    PatchStaying(v, ds, w, j, [Change(m.(id := s.id), true)]);
  }

  lemma CopiesStay(ds: seq<Record>, k: Key, a: seq<Record>, m: Record, b: seq<Record>, s: Record)
    requires Displaces(ds, k, a, m, b, s) && Taken([], s, Copies(a + b), ds, m)
    requires [] + [s] + Copies(a + b) == ZoneOf(s, a + b)
    ensures Patched(Like(Copies(a + b), WishOf(m)), Planned(ZoneOf(s, a + b), ds)) == Like(Copies(a + b), WishOf(m))
  {
    ZoneWish(ds, k, a, m, b, s);
    var there := Like(Copies(a + b), WishOf(m));
    forall j: nat | j < |there| ensures Patch(there[j], Planned(ZoneOf(s, a + b), ds)) == there[j] {
      CopyStays(ZoneOf(s, a + b), ds, s, m, WishOf(m), j);
    }
  }

  lemma ZonePatched(ds: seq<Record>, k: Key, a: seq<Record>, m: Record, b: seq<Record>, s: Record)
    requires Displaces(ds, k, a, m, b, s)
    ensures Like(Patched(ZoneOf(s, a + b), Planned(ZoneOf(s, a + b), ds)), WishOf(m))
         == [Updated(s, m)] + Like(Copies(a + b), WishOf(m))
  {
    ZoneTaken(ds, k, a, m, b, s);
    CopiesStay(ds, k, a, m, b, s);
    TakenFirst(s, Copies(a + b), ds, m);
  }

  lemma TakenFirst(s: Record, c: seq<Record>, ds: seq<Record>, m: Record)
    requires Taken([], s, c, ds, m)
    ensures Like(Patched([] + [s] + c, Planned([] + [s] + c, ds)), WishOf(m))
         == [Updated(s, m)] + Patched(Like(c, WishOf(m)), Planned([] + [s] + c, ds))
  {
    var cs := Planned([] + [s] + c, ds);
    TakenLike([], s, c, ds, m, WishOf(m));
    NothingBefore(Patched(Like([], WishOf(m)), cs), [Updated(s, m.(id := s.id))], Patched(Like(c, WishOf(m)), cs));
    UpdatedAlike(s, m);
  }

  lemma NothingBefore(a: seq<Record>, x: seq<Record>, b: seq<Record>)
    requires a == []
    ensures a + x + b == x + b
  {
  }

  lemma UpdatedAlike(s: Record, m: Record)
    ensures Updated(s, m.(id := s.id)) == Updated(s, m)
  {
  }

  /** After any plan a wish has its records patched first. */
  lemma LikeAfter(v: seq<Record>, ds: seq<Record>, news: seq<New>, w: Wish)
    requires |news| == |Planned(v, ds)| && NewIds(v, news)
    ensures Like(Patched(v, Planned(v, ds)), w) <= Like(ApplyAll(v, Planned(v, ds), news), w)
  {
    PlanIsAimed(v, ds);
    ApplyAllIs(v, Planned(v, ds), news);
    LikeConcat(Patched(v, Planned(v, ds)), Made(Planned(v, ds), news), w);
  }

  /** The takeover has put m first of its wish, and the copies of those before it behind: then the next plan is empty
      only if they agree. */
  lemma {:induction false} ZoneDecides(ds: seq<Record>, k: Key, a: seq<Record>, m: Record, b: seq<Record>, s: Record,
                                       news: seq<New>)
    requires Displaces(ds, k, a, m, b, s) && s.ttl <= 0 && s.priority <= 0
    requires |news| == |Planned(ZoneOf(s, a + b), ds)| && NewIds(ZoneOf(s, a + b), news)
    requires Planned(ApplyAll(ZoneOf(s, a + b), Planned(ZoneOf(s, a + b), ds), news), ds) == []
    ensures Agree(Like(ds, WishOf(m)))
  {
    var v, w := ZoneOf(s, a + b), WishOf(m);
    var u := ApplyAll(v, Planned(v, ds), news);
    ZonePatched(ds, k, a, m, b, s);
    LikeAfter(v, ds, news, w);
    NothingPlannedIff(u, ds);
    ZoneWish(ds, k, a, m, b, s);
    FirstShifted(Like(u, w), Like(Copies(a + b), w), Like(a, w), m, s);
  }

  lemma FirstShifted(there: seq<Record>, copies: seq<Record>, before: seq<Record>, m: Record, s: Record)
    requires Fits(there, before + [m]) && s.ttl <= 0 && s.priority <= 0 && SaySame(copies, before)
    requires [Updated(s, m)] + copies <= there
    ensures Agree(before + [m])
  {
    assert there[1..|before| + 1] == copies && (before + [m])[..|before|] == before;
    assert there[0] == ([Updated(s, m)] + copies)[0];
    ShiftedAgree(there, before + [m], s);
  }

  lemma {:induction false} LowerLength(s: string)
    ensures |Lower(s)| == |s|
  {
    if s != "" {
      LowerLength(s[1..]);
    }
  }

  lemma NormLength(typ: string, v: string)
    ensures |v| - 1 <= |NormValue(typ, v)| <= |v|
  {
    LowerLength(if v != "" && v[|v| - 1] == '.' then v[..|v| - 1] else v);
  }

  /** A value longer than any of these. */
  function Longer(rs: seq<Record>): string {
    if rs == [] then "x" else Longer(rs[..|rs| - 1]) + rs[|rs| - 1].value + "x"
  }

  lemma {:induction false} LongerThanAll(rs: seq<Record>)
    ensures forall r :: r in rs ==> |r.value| + 1 < |Longer(rs)|
  {
    if rs != [] {
      assert rs == rs[..|rs| - 1] + [rs[|rs| - 1]];
      LongerThanAll(rs[..|rs| - 1]);
      assert |Longer(rs)| >= 1;
    }
  }

  /** A record of m's type and name that is of no desired value. */
  lemma Stranger(ds: seq<Record>, m: Record) returns (s: Record)
    ensures KeyOf(s) == KeyOf(m) && s.id == 0 && s.ttl == 0 && s.priority == 0 && Like(ds, WishOf(s)) == []
  {
    s := Record(m.typ, m.name, Longer(ds), 0, 0, 0);
    LongerThanAll(ds);
    forall d | d in ds ensures WishOf(d) != WishOf(s) {
      NormLength(Upper(s.typ), s.value);
      NormLength(Upper(d.typ), d.value);
    }
    NoneLike(ds, WishOf(s));
  }

  function FirstNews(n: nat, id: nat): seq<New> {
    seq(n, i requires 0 <= i < n => New(id + i, 0, 0))
  }

  lemma ExistNews(v: seq<Record>, n: nat) returns (news: seq<New>)
    ensures |news| == n && NewIds(v, news)
  {
    var id := Above(v);
    news := FirstNews(n, id);
    AboveAll(v);
  }

  function Above(v: seq<Record>): nat {
    if v == [] then 0 else
      var before, id := Above(v[..|v| - 1]), v[|v| - 1].id;
      if id < before then before else id + 1
  }

  lemma {:induction false} AboveAll(v: seq<Record>)
    ensures forall i :: 0 <= i < |v| ==> v[i].id < Above(v)
  {
    if v != [] {
      AboveAll(v[..|v| - 1]);
    }
  }

  /** The last of a wish, with those of its key before and after it. */
  lemma LastOfWish(ds: seq<Record>, w: Wish) returns (a: seq<Record>, m: Record, b: seq<Record>)
    requires Like(ds, w) != []
    ensures Having(ds, w.key) == a + [m] + b && WishOf(m) == w && Like(b, w) == []
  {
    LikeHaving(ds, w.key, w);
    var ex := Having(ds, w.key);
    var i := LastLike(ex, w);
    a, m, b := ex[..i], ex[i], ex[i + 1..];
    Around(ex, i);
    NoneLike(b, w);
  }

  lemma {:induction false} LastLike(ex: seq<Record>, w: Wish) returns (i: nat)
    requires Like(ex, w) != []
    ensures i < |ex| && WishOf(ex[i]) == w && forall j :: i < j < |ex| ==> WishOf(ex[j]) != w
  {
    if WishOf(ex[|ex| - 1]) == w {
      i := |ex| - 1;
    } else {
      i := LastLike(ex[..|ex| - 1], w);
    }
  }

  lemma {:induction false} Diverges(ds: seq<Record>, d: Record, e: Record)
    requires d in ds && e in ds && WishOf(d) == WishOf(e) && SingleValued(d.typ) && !SameFields(d, e)
    ensures !AlwaysConverges(ds)
  {
    LikeMembers(ds, WishOf(d));
    assert d in Like(ds, WishOf(d)) && e in Like(ds, WishOf(d));
    var a, m, b := LastOfWish(ds, WishOf(d));
    var s := Stranger(ds, m);
    var v := ZoneOf(s, a + b);
    ZoneIsOfKey(ds, KeyOf(d), a, m, b, s);
    var news := ExistNews(v, |Planned(v, ds)|);
    var want := Like(ds, WishOf(d));
    var i :| 0 <= i < |want| && want[i] == d;
    var j :| 0 <= j < |want| && want[j] == e;
    assert !Agree(want);
    if Planned(ApplyAll(v, Planned(v, ds), news), ds) == [] {
      ZoneDecides(ds, KeyOf(d), a, m, b, s, news);
      assert false;
    }
  }

  /** Applying the plan and planning again gives no change, whatever is in the zone, exactly when the desired records
      that repeat another of a single-valued type ask for the same TTL and priority. */
  lemma {:induction false} ConvergesIff(ds: seq<Record>)
    ensures AlwaysConverges(ds) <==> RepeatsAgree(ds)
  {
    if RepeatsAgree(ds) {
      forall v, news | UniqueIds(v) && |news| == |Planned(v, ds)| && NewIds(v, news)
        ensures Planned(ApplyAll(v, Planned(v, ds), news), ds) == []
      {
        Converges(v, ds, news);
      }
    } else {
      var d, e :| d in ds && e in ds && WishOf(d) == WishOf(e) && SingleValued(d.typ) && !SameFields(d, e);
      Diverges(ds, d, e);
    }
  }

  // -------------------------------------------------------- what is left untouched

  lemma {:induction false} HavingPatched(v: seq<Record>, cs: seq<Change>, k: Key)
    requires forall e :: e in v && KeyOf(e) == k ==> Patch(e, cs) == e
    ensures Having(Patched(v, cs), k) == Having(v, k)
  {
    if v != [] {
      var init, e := v[..|v| - 1], v[|v| - 1];
      assert v == init + [e];
      HavingPatched(init, cs, k);
      KeyKept(e, cs);
      assert Patched(v, cs)[..|init|] == Patched(init, cs);
    }
  }

  lemma {:induction false} HavingNone(v: seq<Record>, rs: seq<Record>, k: Key)
    requires forall r :: r in rs ==> KeyOf(r) != k
    ensures Having(v + rs, k) == Having(v, k)
  {
    if rs == [] {
      assert v + rs == v;
    } else {
      assert rs == rs[..|rs| - 1] + [rs[|rs| - 1]];
      assert (v + rs)[..|v + rs| - 1] == v + rs[..|rs| - 1];
      HavingNone(v, rs[..|rs| - 1], k);
    }
  }

  /** No record is removed, and those whose type and name are not desired are exactly as they were. */
  lemma {:induction false} OthersUntouched(v: seq<Record>, ds: seq<Record>, news: seq<New>, k: Key)
    requires UniqueIds(v) && |news| == |Planned(v, ds)| && NewIds(v, news)
    ensures forall id :: HasId(v, id) ==> HasId(ApplyAll(v, Planned(v, ds), news), id)
    ensures (forall d :: d in ds ==> KeyOf(d) != k) ==> Having(ApplyAll(v, Planned(v, ds), news), k) == Having(v, k)
  {
    var cs := Planned(v, ds);
    PlanIsAimed(v, ds);
    ApplyAllIs(v, cs, news);
    forall id | HasId(v, id) ensures HasId(Patched(v, cs) + Made(cs, news), id) {
      var i :| 0 <= i < |v| && v[i].id == id;
      assert (Patched(v, cs) + Made(cs, news))[i].id == id;
    }
    if forall d :: d in ds ==> KeyOf(d) != k {
      KeysOfIs(ds);
      MadeMembers(cs, news);
      forall r | r in Made(cs, news) ensures KeyOf(r) != k {
        var i :| 0 <= i < |cs| && r == CreatedAs(cs[i].record, news[i]);
        assert cs[i] in cs;
      }
      forall e | e in v && KeyOf(e) == k ensures Patch(e, cs) == e {
        PatchPlan(v, ds, KeysOf(ds), e);
      }
      HavingPatched(v, cs, k);
      HavingNone(Patched(v, cs), Made(cs, news), k);
    }
  }

  // ---------------------------------------------------------------- one plan too few

  /** What is promised fails for two desired records that are the same but for their TTL: a plan applied in full is
      followed by another that is not empty. */
  lemma {:induction false} SameRecordTwice(v: seq<Record>, ds: seq<Record>, n: New)
    requires v == [Record("A", "n", "b", 0, 0, 1), Record("A", "n", "a", 5, 0, 2)]
    requires ds == [Record("A", "n", "a", 5, 0, 0), Record("A", "n", "a", 6, 0, 0)]
    ensures Planned(v, ds) == [Change(ds[1].(id := 1), true)]
    ensures Planned(ApplyAll(v, Planned(v, ds), [n]), ds) != []
  {
    var k := Key("A", "n");
    var c := Change(ds[1].(id := 1), true);
    OneKey(v, ds, k);
    var u := [Record("A", "n", "a", 6, 0, 1), Record("A", "n", "a", 5, 0, 2)];
    OneKey(u, ds, k);
    FirstPlan(v, ds);
    FirstApplied(v, c, n, u);
    SecondPlan(u, ds);
  }

  lemma UpperA()
    ensures Upper("A") == "A" && Lower("n") == "n"
  {
    assert "A"[1..] == "" && "n"[1..] == "";
  }

  lemma OneKey(v: seq<Record>, ds: seq<Record>, k: Key)
    requires k == Key("A", "n") && |v| == 2 && |ds| == 2
    requires forall r :: r in v || r in ds ==> r.typ == "A" && r.name == "n"
    ensures Planned(v, ds) == PlanKey(v, ds)
  {
    UpperA();
    assert v[0] in v && v[1] in v && ds[0] in ds && ds[1] in ds;
    TwoOfKey(v, k);
    TwoOfKey(ds, k);
    assert [k][..0] == [] && PlanKeys(v, ds, []) == [];
    assert PlanKeys(v, ds, [k]) == [] + PlanKey(v, ds);
  }

  lemma TwoOfKey(rs: seq<Record>, k: Key)
    requires |rs| == 2 && KeyOf(rs[0]) == k && KeyOf(rs[1]) == k
    ensures Having(rs, k) == rs && KeysOf(rs) == [k]
  {
    assert rs[..1][..0] == [] && rs[..1] == [rs[0]];
    assert Having(rs[..1], k) == [rs[0]];
    assert KeysOf(rs[..1]) == [k];
  }

  lemma FirstPlan(v: seq<Record>, ds: seq<Record>)
    requires v == [Record("A", "n", "b", 0, 0, 1), Record("A", "n", "a", 5, 0, 2)]
    requires ds == [Record("A", "n", "a", 5, 0, 0), Record("A", "n", "a", 6, 0, 0)]
    ensures PlanKey(v, ds) == [Change(ds[1].(id := 1), true)]
  {
    UpperA();
    assert ds[..1][..0] == [];
    assert !SameValue(v[0], ds[0]) && SameValue(v[1], ds[0]) && !SameValue(v[0], ds[1]);
    assert FirstFree(v, {}, ds[0]) == 1;
    assert MatchAll(v, ds[..1]) == Matching({1}, [], []);
    assert FirstFree(v, {1}, ds[1]) == 2;
    assert MatchAll(v, ds) == Matching({1}, [ds[1]], []);
    assert Spare(v, {1}, 1) == [v[0]];
    assert Spare(v, {1}, 2) == [v[0]];
  }

  lemma FirstApplied(v: seq<Record>, c: Change, n: New, u: seq<Record>)
    requires v == [Record("A", "n", "b", 0, 0, 1), Record("A", "n", "a", 5, 0, 2)]
    requires c == Change(Record("A", "n", "a", 6, 0, 1), true)
    requires u == [Record("A", "n", "a", 6, 0, 1), Record("A", "n", "a", 5, 0, 2)]
    ensures ApplyAll(v, [c], [n]) == u
  {
    assert [c][..0] == [] && [n][..0] == [];
    assert v[..1][..0] == [] && v[..1] == [v[0]];
    assert UpdateIn(v[..1], c.record) == [u[0]];
  }

  lemma SecondPlan(u: seq<Record>, ds: seq<Record>)
    requires u == [Record("A", "n", "a", 6, 0, 1), Record("A", "n", "a", 5, 0, 2)]
    requires ds == [Record("A", "n", "a", 5, 0, 0), Record("A", "n", "a", 6, 0, 0)]
    ensures PlanKey(u, ds) != []
  {
    UpperA();
    assert ds[..1][..0] == [];
    assert FirstFree(u, {}, ds[0]) == 0;
    assert MatchAll(u, ds[..1]) == Matching({0}, [], [Change(ds[0].(id := 1), true)]);
    assert |MatchAll(u, ds).changes| >= 1;
  }
}
