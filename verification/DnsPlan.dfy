/** What a DNS plan makes of a zone (pkg/provider/dnssync.go). Where no record is taken over, each wish keeps its
    records, fixed where they are not as asked, and gets those missing after them (FilledFits). A takeover takes from a
    wish a record beyond those wanted (OtherWishFits), and puts it anywhere among those of the missing record's wish
    (TakenLike). */
module DnsPlan {
  import opened DnsSync
  import opened DnsZone
  import opened DnsMatch

  // ------------------------------------------------- what a group's plan makes of it

  /** What the fixes make of the record that is jth of its wish, of which ws are desired. */
  function Fixed(e: Record, ws: seq<Record>, j: nat): Record {
    if j < |ws| && !FieldsOk(e, ws[j]) then Updated(e, ws[j].(id := e.id)) else e
  }

  lemma {:induction false} PatchFixes(ex: seq<Record>, ds: seq<Record>, w: Wish, j: nat)
    requires UniqueIds(ex) && j < |Like(ex, w)|
    ensures Patch(Like(ex, w)[j], Fixes(ex, ds)) == Fixed(Like(ex, w)[j], Like(ds, w), j)
  {
    if ds != [] {
      var init, d := ds[..|ds| - 1], ds[|ds| - 1];
      assert ds == init + [d];
      PatchFixes(ex, init, w, j);
      LikeSnoc(init, d, w);
      if Paired(ex, init, d) {
        LikeApart(ex, WishOf(d), |Like(init, WishOf(d))|, w, j);
        PatchSnoc(Like(ex, w)[j], Fixes(ex, init), Change(d.(id := Partner(ex, init, d).id), true));
      }
    }
  }

  lemma FixedFits(e: Record, ws: seq<Record>, j: nat, w: Wish)
    requires WishOf(e) == w && forall d :: d in ws ==> WishOf(d) == w
    ensures WishOf(Fixed(e, ws, j)) == w
    ensures j < |ws| ==> FieldsOk(Fixed(e, ws, j), ws[j])
  {
    if j < |ws| {
      assert ws[j] in ws;
      UpdatedWish(e, ws[j].(id := e.id));
    }
  }

  lemma {:induction false} LackingLike(ex: seq<Record>, ds: seq<Record>, w: Wish)
    ensures Like(Lacking(ex, ds), w) == if |Like(ex, w)| <= |Like(ds, w)| then Like(ds, w)[|Like(ex, w)|..] else []
  {
    if ds != [] {
      var init, d := ds[..|ds| - 1], ds[|ds| - 1];
      LackingLike(ex, init, w);
      LikeSnoc(Lacking(ex, init), d, w);
    }
  }

  /** The one missing record takes over the one record that is not wanted, the ith. */
  ghost predicate TakesOver(ex: seq<Record>, ds: seq<Record>, i: nat) {
    && |Lacking(ex, ds)| == 1 && SingleValued(Lacking(ex, ds)[0].typ)
    && i < |ex| && forall j: nat :: j < |ex| ==> (Wanted(ex, ds, j) <==> j != i)
  }

  lemma PlanKeyIs(ex: seq<Record>, ds: seq<Record>, k: Key)
    requires OfKey(ex, k) && OfKey(ds, k)
    ensures forall i: nat :: TakesOver(ex, ds, i) ==>
      PlanKey(ex, ds) == Fixes(ex, ds) + [Change(Lacking(ex, ds)[0].(id := ex[i].id), true)]
    ensures (forall i: nat :: !TakesOver(ex, ds, i)) ==> PlanKey(ex, ds) == Fixes(ex, ds) + Creates(Lacking(ex, ds))
  {
    MatchAllIs(ex, ds, k);
    var used := MatchAll(ex, ds).used;
    forall i: nat | TakesOver(ex, ds, i) ensures Spare(ex, used, |ex|) == [ex[i]] {
      SpareIs(ex, used, |ex|, i);
    }
    if |Spare(ex, used, |ex|)| == 1 && |Lacking(ex, ds)| == 1 && SingleValued(Lacking(ex, ds)[0].typ) {
      var i := SpareOne(ex, used, |ex|);
      assert TakesOver(ex, ds, i);
    }
  }

  lemma FixesAim(ex: seq<Record>, ds: seq<Record>, k: Key)
    requires OfKey(ds, k)
    ensures forall c :: c in Fixes(ex, ds) ==> c.update && HasId(ex, c.record.id) && KeyOf(c.record) == k
  {
    if ds != [] {
      var init, d := ds[..|ds| - 1], ds[|ds| - 1];
      assert ds == init + [d] && d in ds;
      FixesAim(ex, init, k);
      if Paired(ex, init, d) {
        LikeMembers(ex, WishOf(d));
        assert Partner(ex, init, d) in Like(ex, WishOf(d));
      }
    }
  }

  lemma {:induction false} LackingMembers(ex: seq<Record>, ds: seq<Record>)
    ensures forall d :: d in Lacking(ex, ds) ==> d in ds
  {
    if ds != [] {
      LackingMembers(ex, ds[..|ds| - 1]);
    }
  }

  /** A change for k, which updates a record of ex if it updates one. */
  predicate Inside(c: Change, ex: seq<Record>, k: Key) {
    KeyOf(c.record) == k && (c.update ==> HasId(ex, c.record.id))
  }

  lemma GroupInside(ex: seq<Record>, ds: seq<Record>, k: Key)
    requires OfKey(ex, k) && OfKey(ds, k)
    ensures forall c :: c in PlanKey(ex, ds) ==> Inside(c, ex, k)
  {
    PlanKeyIs(ex, ds, k);
    FixesAim(ex, ds, k);
    LackingMembers(ex, ds);
    CreatesAll(Lacking(ex, ds));
    if i: nat :| TakesOver(ex, ds, i) {
      assert Lacking(ex, ds)[0] in Lacking(ex, ds);
    } else {
      forall c | c in Creates(Lacking(ex, ds)) ensures Inside(c, ex, k) {
        var j :| 0 <= j < |Creates(Lacking(ex, ds))| && Creates(Lacking(ex, ds))[j] == c;
        assert Lacking(ex, ds)[j] in Lacking(ex, ds);
      }
    }
  }

  // -------------------------------------------------------------- the whole plan

  /** The group of one key in the plan. */
  function Group(v: seq<Record>, ds: seq<Record>, k: Key): seq<Change> {
    PlanKey(Having(v, k), Having(ds, k))
  }

  lemma GroupIsInside(v: seq<Record>, ds: seq<Record>, k: Key)
    ensures forall c :: c in Group(v, ds, k) ==> Inside(c, Having(v, k), k)
  {
    HavingMembers(v, k);
    HavingMembers(ds, k);
    GroupInside(Having(v, k), Having(ds, k), k);
  }

  predicate InsideZone(c: Change, v: seq<Record>) {
    Inside(c, Having(v, KeyOf(c.record)), KeyOf(c.record))
  }

  lemma {:induction false} PlanInside(v: seq<Record>, ds: seq<Record>, keys: seq<Key>)
    ensures forall c :: c in PlanKeys(v, ds, keys) ==> KeyOf(c.record) in keys && InsideZone(c, v)
  {
    if keys != [] {
      var init, k := keys[..|keys| - 1], keys[|keys| - 1];
      PlanInside(v, ds, init);
      GroupIsInside(v, ds, k);
      forall c | c in PlanKeys(v, ds, keys) ensures KeyOf(c.record) in keys && InsideZone(c, v) {
        if c !in PlanKeys(v, ds, init) {
          assert c in Group(v, ds, k);
        }
      }
    }
  }

  lemma PlanIsAimed(v: seq<Record>, ds: seq<Record>)
    ensures Aimed(v, Planned(v, ds))
    ensures forall c :: c in Planned(v, ds) ==> KeyOf(c.record) in KeysOf(ds)
  {
    PlanInside(v, ds, KeysOf(ds));
    forall c | c in Planned(v, ds) && c.update ensures HasId(v, c.record.id) {
      var k := KeyOf(c.record);
      HavingMembers(v, k);
      assert InsideZone(c, v);
      var i :| 0 <= i < |Having(v, k)| && Having(v, k)[i].id == c.record.id;
      assert Having(v, k)[i] in Having(v, k);
    }
  }

  lemma SameId(v: seq<Record>, e: Record, f: Record)
    requires UniqueIds(v) && e in v && f in v && e.id == f.id
    ensures e == f
  {
  }

  /** A group's changes are aimed at none of another key. */
  lemma GroupAimsInside(v: seq<Record>, ds: seq<Record>, k: Key, e: Record)
    requires UniqueIds(v) && e in v && KeyOf(e) != k
    ensures forall c :: c in Group(v, ds, k) ==> !AimedAt(c, e)
  {
    GroupIsInside(v, ds, k);
    HavingMembers(v, k);
    forall c | c in Group(v, ds, k) ensures !AimedAt(c, e) {
      assert Inside(c, Having(v, k), k);
      if AimedAt(c, e) {
        var i :| 0 <= i < |Having(v, k)| && Having(v, k)[i].id == c.record.id;
        assert Having(v, k)[i] in Having(v, k);
        SameId(v, e, Having(v, k)[i]);
      }
    }
  }

  lemma {:induction false} PatchPlan(v: seq<Record>, ds: seq<Record>, keys: seq<Key>, e: Record)
    requires UniqueIds(v) && e in v && NoRepeats(keys)
    ensures Patch(e, PlanKeys(v, ds, keys)) == if KeyOf(e) in keys then Patch(e, Group(v, ds, KeyOf(e))) else e
  {
    if keys != [] {
      var init, k := keys[..|keys| - 1], keys[|keys| - 1];
      assert keys == init + [k];
      var p := Patch(e, PlanKeys(v, ds, init));
      PatchPlan(v, ds, init, e);
      PatchConcat(e, PlanKeys(v, ds, init), Group(v, ds, k));
      if KeyOf(e) != k {
        GroupAimsInside(v, ds, k, e);
        PatchOther(p, Group(v, ds, k));
      }
    }
  }

  lemma GroupCreatesOwn(v: seq<Record>, ds: seq<Record>, k: Key, w: Wish)
    requires w.key != k
    ensures Like(Created(Group(v, ds, k)), w) == []
  {
    GroupIsInside(v, ds, k);
    CreatedMembers(Group(v, ds, k));
    LikeMembers(Created(Group(v, ds, k)), w);
    forall r | r in Created(Group(v, ds, k)) ensures WishOf(r) != w {
      assert Inside(Change(r, false), Having(v, k), k);
    }
    NoneLike(Created(Group(v, ds, k)), w);
  }

  lemma NoneLike(rs: seq<Record>, w: Wish)
    ensures Like(rs, w) == [] <==> forall r :: r in rs ==> WishOf(r) != w
  {
    LikeMembers(rs, w);
    if Like(rs, w) != [] {
      assert Like(rs, w)[0] in Like(rs, w);
    }
  }

  lemma CreatedTogether(a: seq<Change>, b: seq<Change>, w: Wish)
    ensures Like(Created(a + b), w) == Like(Created(a), w) + Like(Created(b), w)
  {
    CreatedConcat(a, b);
    LikeConcat(Created(a), Created(b), w);
  }

  lemma {:induction false} CreatedPlan(v: seq<Record>, ds: seq<Record>, keys: seq<Key>, w: Wish)
    requires NoRepeats(keys)
    ensures Like(Created(PlanKeys(v, ds, keys)), w)
         == if w.key in keys then Like(Created(Group(v, ds, w.key)), w) else []
  {
    if keys != [] {
      var init, k := keys[..|keys| - 1], keys[|keys| - 1];
      assert keys == init + [k];
      CreatedPlan(v, ds, init, w);
      CreatedTogether(PlanKeys(v, ds, init), Group(v, ds, k), w);
      assert PlanKeys(v, ds, keys) == PlanKeys(v, ds, init) + Group(v, ds, k);
      if w.key != k {
        GroupCreatesOwn(v, ds, k, w);
      }
    }
  }

  /** What a plan makes of a record of a desired key, and what it creates of a wish, its own group does. */
  lemma PlanIs(v: seq<Record>, ds: seq<Record>, k: Key)
    requires UniqueIds(v) && k in KeysOf(ds)
    ensures forall e :: e in v && KeyOf(e) == k ==> Patch(e, Planned(v, ds)) == Patch(e, Group(v, ds, k))
    ensures forall w: Wish :: w.key == k ==> Like(Created(Planned(v, ds)), w) == Like(Created(Group(v, ds, k)), w)
  {
    KeysOfIs(ds);
    forall e | e in v && KeyOf(e) == k ensures Patch(e, Planned(v, ds)) == Patch(e, Group(v, ds, k)) {
      PatchPlan(v, ds, KeysOf(ds), e);
    }
    forall w: Wish | w.key == k ensures Like(Created(Planned(v, ds)), w) == Like(Created(Group(v, ds, k)), w) {
      CreatedPlan(v, ds, KeysOf(ds), w);
    }
  }

  // ------------------------------------------------------------ a wish after the plan

  /** The record of the zone that is the ith of its key. */
  lemma {:induction false} HavingPlace(v: seq<Record>, k: Key, i: nat) returns (p: nat)
    requires i < |Having(v, k)|
    ensures p < |v| && v[p] == Having(v, k)[i] && Having(v[..p], k) == Having(v, k)[..i]
  {
    var init := v[..|v| - 1];
    if i < |Having(init, k)| {
      p := HavingPlace(init, k, i);
      assert init[..p] == v[..p];
    } else {
      p := |v| - 1;
    }
  }

  /** The changes of the group that are no fixes. */
  ghost predicate Fills(v: seq<Record>, ds: seq<Record>, k: Key, fill: seq<Change>) {
    Group(v, ds, k) == Fixes(Having(v, k), Having(ds, k)) + fill
  }

  lemma PatchGroup(v: seq<Record>, ds: seq<Record>, w: Wish, j: nat, fill: seq<Change>)
    requires UniqueIds(v) && w.key in KeysOf(ds) && j < |Like(v, w)| && Fills(v, ds, w.key, fill)
    ensures Patch(Like(v, w)[j], Planned(v, ds)) == Patch(Fixed(Like(v, w)[j], Like(ds, w), j), fill)
  {
    var e, k := Like(v, w)[j], w.key;
    LikeMembers(v, w);
    assert e in Like(v, w);
    PlanIs(v, ds, k);
    LikeHaving(v, k, w);
    LikeHaving(ds, k, w);
    HavingUnique(v, k);
    PatchConcat(e, Fixes(Having(v, k), Having(ds, k)), fill);
    PatchFixes(Having(v, k), Having(ds, k), w, j);
  }

  /** Every record no fill is aimed at is fixed where that is needed, and keeps its wish. */
  lemma PatchStaying(v: seq<Record>, ds: seq<Record>, w: Wish, j: nat, fill: seq<Change>)
    requires UniqueIds(v) && w.key in KeysOf(ds) && j < |Like(v, w)| && Fills(v, ds, w.key, fill)
    requires forall c :: c in fill ==> !AimedAt(c, Like(v, w)[j])
    ensures Patch(Like(v, w)[j], Planned(v, ds)) == Fixed(Like(v, w)[j], Like(ds, w), j)
    ensures WishOf(Patch(Like(v, w)[j], Planned(v, ds))) == w
    ensures j < |Like(ds, w)| ==> FieldsOk(Patch(Like(v, w)[j], Planned(v, ds)), Like(ds, w)[j])
  {
    var e := Like(v, w)[j];
    PatchGroup(v, ds, w, j, fill);
    PatchOther(Fixed(e, Like(ds, w), j), fill);
    LikeMembers(v, w);
    LikeMembers(ds, w);
    assert e in Like(v, w);
    FixedFits(e, Like(ds, w), j, w);
  }

  lemma KeepsWish(v: seq<Record>, ds: seq<Record>, q: nat, fill: seq<Change>)
    requires UniqueIds(v) && q < |v| && KeyOf(v[q]) in KeysOf(ds) && Fills(v, ds, KeyOf(v[q]), fill)
    requires forall c :: c in fill ==> !AimedAt(c, v[q])
    ensures WishOf(Patch(v[q], Planned(v, ds))) == WishOf(v[q])
  {
    LikeAt(v, q);
    PatchStaying(v, ds, WishOf(v[q]), |Like(v[..q], WishOf(v[q]))|, fill);
  }

  predicate FitTo(there: seq<Record>, want: seq<Record>) {
    forall j: nat :: j < |there| && j < |want| ==> FieldsOk(there[j], want[j])
  }

  /** What is asked for is there, or made. */
  lemma AllFits(v: seq<Record>, ds: seq<Record>, news: seq<New>, w: Wish, there: seq<Record>, made: seq<Record>)
    requires UniqueIds(v) && |news| == |Planned(v, ds)| && NewIds(v, news)
    requires Like(Patched(v, Planned(v, ds)), w) == there && Like(Created(Planned(v, ds)), w) == made
    requires FitTo(there, Like(ds, w))
    requires |there| < |Like(ds, w)| ==> made == Like(ds, w)[|there|..]
    ensures Fits(Like(ApplyAll(v, Planned(v, ds), news), w), Like(ds, w))
  {
    var cs := Planned(v, ds);
    PlanIsAimed(v, ds);
    ApplyAllIs(v, cs, news);
    LikeConcat(Patched(v, cs), Made(cs, news), w);
    MadeFits(cs, news, w);
    var all, want := there + Like(Made(cs, news), w), Like(ds, w);
    forall j | 0 <= j < |want| ensures j < |all| && FieldsOk(all[j], want[j]) {
      if j >= |there| {
        assert made[j - |there|] == want[j];
      }
    }
  }

  lemma {:induction false} CreatedFill(ex: seq<Record>, ds: seq<Record>, missing: seq<Record>)
    ensures Created(Fixes(ex, ds)) == [] && Created(Creates(missing)) == missing
  {
    if ds != [] {
      CreatedFill(ex, ds[..|ds| - 1], missing);
    } else if missing != [] {
      CreatedFill(ex, ds, missing[..|missing| - 1]);
    }
  }

  lemma KeyKept(e: Record, cs: seq<Change>)
    ensures KeyOf(Patch(e, cs)) == KeyOf(e)
  {
  }

  lemma CreatedLike(v: seq<Record>, ds: seq<Record>, w: Wish, missing: seq<Record>)
    requires UniqueIds(v) && w.key in KeysOf(ds) && Fills(v, ds, w.key, Creates(missing))
    ensures Like(Created(Planned(v, ds)), w) == Like(missing, w)
  {
    PlanIs(v, ds, w.key);
    CreatedGroup(Having(v, w.key), Having(ds, w.key), missing);
  }

  lemma CreatedGroup(ex: seq<Record>, ds: seq<Record>, missing: seq<Record>)
    ensures Created(Fixes(ex, ds) + Creates(missing)) == missing
  {
    CreatedConcat(Fixes(ex, ds), Creates(missing));
    CreatedFill(ex, ds, missing);
  }

  lemma LackingOf(v: seq<Record>, ds: seq<Record>, w: Wish)
    ensures Like(Lacking(Having(v, w.key), Having(ds, w.key)), w)
         == if |Like(v, w)| <= |Like(ds, w)| then Like(ds, w)[|Like(v, w)|..] else []
  {
    LackingLike(Having(v, w.key), Having(ds, w.key), w);
    LikeHaving(v, w.key, w);
    LikeHaving(ds, w.key, w);
  }

  /** With no takeover every record stays what it is, and what is missing is created. */
  lemma FilledFits(v: seq<Record>, ds: seq<Record>, news: seq<New>, w: Wish)
    requires UniqueIds(v) && |news| == |Planned(v, ds)| && NewIds(v, news) && w.key in KeysOf(ds)
    requires forall i: nat :: !TakesOver(Having(v, w.key), Having(ds, w.key), i)
    ensures Fits(Like(ApplyAll(v, Planned(v, ds), news), w), Like(ds, w))
  {
    var k, cs := w.key, Planned(v, ds);
    var ex, want := Having(v, k), Having(ds, k);
    var fill := Creates(Lacking(ex, want));
    HavingMembers(v, k);
    HavingMembers(ds, k);
    PlanKeyIs(ex, want, k);
    CreatesAll(Lacking(ex, want));
    StayingLike(v, ds, w, fill);
    CreatedLike(v, ds, w, Lacking(ex, want));
    LackingOf(v, ds, w);
    AllFits(v, ds, news, w, Like(Patched(v, cs), w), Like(Created(cs), w));
  }

  lemma StayingLike(v: seq<Record>, ds: seq<Record>, w: Wish, fill: seq<Change>)
    requires UniqueIds(v) && w.key in KeysOf(ds) && Fills(v, ds, w.key, fill) && forall c :: c in fill ==> !c.update
    ensures |Like(Patched(v, Planned(v, ds)), w)| == |Like(v, w)|
    ensures forall j: nat :: j < |Like(v, w)| && j < |Like(ds, w)| ==>
      FieldsOk(Like(Patched(v, Planned(v, ds)), w)[j], Like(ds, w)[j])
  {
    var cs := Planned(v, ds);
    forall e | e in v ensures WishOf(Patch(e, cs)) == w <==> WishOf(e) == w {
      KeyKept(e, cs);
      if KeyOf(e) == w.key {
        var q :| 0 <= q < |v| && v[q] == e;
        KeepsWish(v, ds, q, fill);
      }
    }
    LikePatched(v, cs, w);
    forall j: nat | j < |Like(v, w)| && j < |Like(ds, w)|
      ensures FieldsOk(Like(Patched(v, cs), w)[j], Like(ds, w)[j])
    {
      PatchStaying(v, ds, w, j, fill);
    }
  }

  // ------------------------------------------------------------------- a takeover

  lemma Around(rs: seq<Record>, i: nat)
    requires i < |rs|
    ensures rs == rs[..i] + [rs[i]] + rs[i + 1..]
  {
  }

  lemma LikeAround(a: seq<Record>, s: Record, b: seq<Record>, w: Wish)
    ensures Like(a + [s] + b, w) == Like(a, w) + (if WishOf(s) == w then [s] else []) + Like(b, w)
  {
    LikeConcat(a + [s], b, w);
    LikeSnoc(a, s, w);
  }

  predicate KeepWish(v: seq<Record>, cs: seq<Change>, w: Wish) {
    forall e :: e in v ==> (WishOf(Patch(e, cs)) == w <==> WishOf(e) == w)
  }

  /** The records of a wish after changes that move at most s into it or out of it. */
  lemma MovedLike(a: seq<Record>, s: Record, b: seq<Record>, cs: seq<Change>, w: Wish)
    requires KeepWish(a, cs, w) && KeepWish(b, cs, w)
    ensures Like(Patched(a + [s] + b, cs), w) == Patched(Like(a, w), cs)
      + (if WishOf(Patch(s, cs)) == w then [Patch(s, cs)] else []) + Patched(Like(b, w), cs)
  {
    LikePatched(a, cs, w);
    LikePatched(b, cs, w);
    PatchedAround(a, s, b, cs);
    LikeAround(Patched(a, cs), Patch(s, cs), Patched(b, cs), w);
  }

  lemma PatchedAround(a: seq<Record>, s: Record, b: seq<Record>, cs: seq<Change>)
    ensures Patched(a + [s] + b, cs) == Patched(a, cs) + [Patch(s, cs)] + Patched(b, cs)
  {
  }

  /** The one record that is not wanted, s, in its zone a + [s] + b, and the one that is missing, m. */
  ghost predicate Taken(a: seq<Record>, s: Record, b: seq<Record>, ds: seq<Record>, m: Record) {
    var v, k := a + [s] + b, KeyOf(s);
    && UniqueIds(v) && k in KeysOf(ds) && KeyOf(m) == k && SingleValued(m.typ)
    && Lacking(Having(v, k), Having(ds, k)) == [m]
    && |Like(ds, WishOf(s))| <= |Like(a, WishOf(s))|
    && Fills(v, ds, k, [Change(m.(id := s.id), true)])
  }

  lemma TakenAt(v: seq<Record>, ds: seq<Record>, k: Key, i: nat) returns (p: nat)
    requires UniqueIds(v) && k in KeysOf(ds) && TakesOver(Having(v, k), Having(ds, k), i)
    ensures p < |v| && v[p] == Having(v, k)[i] && KeyOf(v[p]) == k && v == v[..p] + [v[p]] + v[p + 1..]
    ensures Taken(v[..p], v[p], v[p + 1..], ds, Lacking(Having(v, k), Having(ds, k))[0])
  {
    p := HavingPlace(v, k, i);
    HavingMembers(v, k);
    assert Having(v, k)[i] in Having(v, k);
    Unwanted(v, ds, k, i, p);
    TakenFill(v, ds, k, i);
    Around(v, p);
    TakenFrom(v, ds, k, Lacking(Having(v, k), Having(ds, k))[0], v[..p], v[p], v[p + 1..]);
  }

  lemma TakenFrom(v: seq<Record>, ds: seq<Record>, k: Key, m: Record, a: seq<Record>, s: Record, b: seq<Record>)
    requires v == a + [s] + b && UniqueIds(v) && k in KeysOf(ds) && KeyOf(s) == k && KeyOf(m) == k
    requires SingleValued(m.typ) && Lacking(Having(v, k), Having(ds, k)) == [m]
    requires |Like(ds, WishOf(s))| <= |Like(a, WishOf(s))| && Fills(v, ds, k, [Change(m.(id := s.id), true)])
    ensures Taken(a, s, b, ds, m)
  {
  }

  lemma Unwanted(v: seq<Record>, ds: seq<Record>, k: Key, i: nat, p: nat)
    requires TakesOver(Having(v, k), Having(ds, k), i)
    requires p < |v| && KeyOf(v[p]) == k && v[p] == Having(v, k)[i] && Having(v[..p], k) == Having(v, k)[..i]
    ensures |Like(ds, WishOf(v[p]))| <= |Like(v[..p], WishOf(v[p]))|
  {
    assert !Wanted(Having(v, k), Having(ds, k), i);
    LikeHaving(v[..p], k, WishOf(v[p]));
    LikeHaving(ds, k, WishOf(v[p]));
  }

  lemma TakenFill(v: seq<Record>, ds: seq<Record>, k: Key, i: nat)
    requires TakesOver(Having(v, k), Having(ds, k), i)
    ensures var m := Lacking(Having(v, k), Having(ds, k))[0];
      Fills(v, ds, k, [Change(m.(id := Having(v, k)[i].id), true)]) && KeyOf(m) == k
  {
    HavingMembers(v, k);
    HavingMembers(ds, k);
    PlanKeyIs(Having(v, k), Having(ds, k), k);
    LackingMembers(Having(v, k), Having(ds, k));
    assert Lacking(Having(v, k), Having(ds, k))[0] in Lacking(Having(v, k), Having(ds, k));
  }

  lemma TakenPatch(a: seq<Record>, s: Record, b: seq<Record>, ds: seq<Record>, m: Record)
    requires Taken(a, s, b, ds, m)
    ensures Patch(s, Planned(a + [s] + b, ds)) == Updated(s, m.(id := s.id))
  {
    var v, c := a + [s] + b, Change(m.(id := s.id), true);
    var n := |Like(a, WishOf(s))|;
    assert v[|a|] == s && v[..|a|] == a;
    LikeAt(v, |a|);
    PatchGroup(v, ds, WishOf(s), n, [c]);
    PatchSnoc(s, [], c);
    assert [] + [c] == [c];
  }

  /** Each of the others keeps its wish, and fits if it is wanted. */
  lemma TakenKeep(a: seq<Record>, s: Record, b: seq<Record>, ds: seq<Record>, m: Record, w: Wish)
    requires Taken(a, s, b, ds, m) && w.key == KeyOf(s)
    ensures KeepWish(a, Planned(a + [s] + b, ds), w) && KeepWish(b, Planned(a + [s] + b, ds), w)
  {
    forall q: nat | q < |a| + 1 + |b| && q != |a|
      ensures WishOf(Patch((a + [s] + b)[q], Planned(a + [s] + b, ds))) == w <==> WishOf((a + [s] + b)[q]) == w
    {
      assert (a + [s] + b)[|a|] == s;
      OtherKeeps(a + [s] + b, ds, s, m, w, q);
    }
    AroundKeep(a, s, b, Planned(a + [s] + b, ds), w);
  }

  lemma AroundKeep(a: seq<Record>, s: Record, b: seq<Record>, cs: seq<Change>, w: Wish)
    requires forall q: nat :: q < |a| + 1 + |b| && q != |a| ==>
      (WishOf(Patch((a + [s] + b)[q], cs)) == w <==> WishOf((a + [s] + b)[q]) == w)
    ensures KeepWish(a, cs, w) && KeepWish(b, cs, w)
  {
    forall q: nat | q < |a| ensures a[q] == (a + [s] + b)[q] {
    }
    forall q: nat | q < |b| ensures b[q] == (a + [s] + b)[|a| + 1 + q] {
    }
  }

  lemma OtherKeeps(v: seq<Record>, ds: seq<Record>, s: Record, m: Record, w: Wish, q: nat)
    requires UniqueIds(v) && w.key in KeysOf(ds) && Fills(v, ds, w.key, [Change(m.(id := s.id), true)])
    requires q < |v| && v[q].id != s.id
    ensures WishOf(Patch(v[q], Planned(v, ds))) == w <==> WishOf(v[q]) == w
  {
    KeyKept(v[q], Planned(v, ds));
    if KeyOf(v[q]) == w.key {
      KeepsWish(v, ds, q, [Change(m.(id := s.id), true)]);
    }
  }

  lemma TakenFits(a: seq<Record>, s: Record, b: seq<Record>, ds: seq<Record>, m: Record, w: Wish, j: nat)
    requires Taken(a, s, b, ds, m) && w.key == KeyOf(s) && j < |Like(a + [s] + b, w)| && j < |Like(ds, w)|
    ensures FieldsOk(Patch(Like(a + [s] + b, w)[j], Planned(a + [s] + b, ds)), Like(ds, w)[j])
  {
    var v := a + [s] + b;
    assert v[|a|] == s && v[..|a|] == a;
    LikeAt(v, |a|);
    LikeApart(v, w, j, WishOf(s), |Like(a, WishOf(s))|);
    PatchStaying(v, ds, w, j, [Change(m.(id := s.id), true)]);
  }

  /** The missing record is the last desired of its wish, of which there are one too few. */
  lemma TakenWish(a: seq<Record>, s: Record, b: seq<Record>, ds: seq<Record>, m: Record, w: Wish)
    requires Taken(a, s, b, ds, m) && w.key == KeyOf(s)
    ensures WishOf(m) == w ==> |Like(ds, w)| == |Like(a + [s] + b, w)| + 1 && Like(ds, w)[|Like(ds, w)| - 1] == m
    ensures WishOf(m) != w ==> |Like(ds, w)| <= |Like(a + [s] + b, w)|
    ensures WishOf(m) != WishOf(s)
  {
    var v := a + [s] + b;
    LackingOf(v, ds, w);
    LackingOf(v, ds, WishOf(s));
    LikeSnoc([], m, w);
    LikeSnoc([], m, WishOf(s));
    assert [] + [m] == [m];
    LikeAround(a, s, b, WishOf(s));
  }

  lemma TakenLike(a: seq<Record>, s: Record, b: seq<Record>, ds: seq<Record>, m: Record, w: Wish)
    requires Taken(a, s, b, ds, m) && w.key == KeyOf(s)
    ensures Like(Patched(a + [s] + b, Planned(a + [s] + b, ds)), w)
         == Patched(Like(a, w), Planned(a + [s] + b, ds))
            + (if WishOf(m) == w then [Updated(s, m.(id := s.id))] else [])
            + Patched(Like(b, w), Planned(a + [s] + b, ds))
  {
    TakenKeep(a, s, b, ds, m, w);
    MovedLike(a, s, b, Planned(a + [s] + b, ds), w);
    TakenPatch(a, s, b, ds, m);
    UpdatedWish(s, m.(id := s.id));
  }

  lemma TakenFitTo(a: seq<Record>, s: Record, b: seq<Record>, ds: seq<Record>, m: Record, w: Wish)
    requires Taken(a, s, b, ds, m) && w.key == KeyOf(s)
    ensures FitTo(Patched(Like(a + [s] + b, w), Planned(a + [s] + b, ds)), Like(ds, w))
  {
    forall j: nat | j < |Like(a + [s] + b, w)| && j < |Like(ds, w)|
      ensures FieldsOk(Patch(Like(a + [s] + b, w)[j], Planned(a + [s] + b, ds)), Like(ds, w)[j])
    {
      TakenFits(a, s, b, ds, m, w, j);
    }
  }

  lemma FitWithout(la: seq<Record>, mid: seq<Record>, lb: seq<Record>, cs: seq<Change>, want: seq<Record>)
    requires FitTo(Patched(la + mid + lb, cs), want) && (|want| <= |la| || (mid == [] && |want| <= |la + lb|))
    ensures Fits(Patched(la, cs) + Patched(lb, cs), want)
  {
    var all, there := Patched(la + mid + lb, cs), Patched(la, cs) + Patched(lb, cs);
    forall j | 0 <= j < |want| ensures FieldsOk(there[j], want[j]) {
      assert there[j] == all[j];
    }
  }

  /** A wish other than the missing record's loses at most a record beyond those wanted. */
  lemma OtherWishFits(a: seq<Record>, s: Record, b: seq<Record>, ds: seq<Record>, m: Record, news: seq<New>, w: Wish)
    requires Taken(a, s, b, ds, m) && w.key == KeyOf(s) && w != WishOf(m)
    requires |news| == |Planned(a + [s] + b, ds)| && NewIds(a + [s] + b, news)
    ensures Fits(Like(ApplyAll(a + [s] + b, Planned(a + [s] + b, ds), news), w), Like(ds, w))
  {
    var cs := Planned(a + [s] + b, ds);
    TakenLike(a, s, b, ds, m, w);
    TakenFitTo(a, s, b, ds, m, w);
    TakenWish(a, s, b, ds, m, w);
    LikeAround(a, s, b, w);
    FitWithout(Like(a, w), if WishOf(s) == w then [s] else [], Like(b, w), cs, Like(ds, w));
    NoGap(Patched(Like(a, w), cs), Patched(Like(b, w), cs));
    AllFits(a + [s] + b, ds, news, w, Patched(Like(a, w), cs) + Patched(Like(b, w), cs), Like(Created(cs), w));
  }

  lemma NoGap(a: seq<Record>, b: seq<Record>)
    ensures a + [] + b == a + b
  {
  }

  predicate SameFields(d: Record, e: Record) {
    && (d.ttl == e.ttl || (d.ttl <= 0 && e.ttl <= 0))
    && (d.priority == e.priority || (d.priority <= 0 && e.priority <= 0))
  }

  predicate Agree(ds: seq<Record>) {
    forall i, j :: 0 <= i < |ds| && 0 <= j < |ds| ==> SameFields(ds[i], ds[j])
  }

  lemma FitWith(la: seq<Record>, x: Record, lb: seq<Record>, cs: seq<Change>, want: seq<Record>)
    requires FitTo(Patched(la + lb, cs), want) && Agree(want) && |want| == |la + lb| + 1
    requires FieldsOk(x, want[|want| - 1])
    ensures Fits(Patched(la, cs) + [x] + Patched(lb, cs), want)
  {
    var all, there := Patched(la + lb, cs), Patched(la, cs) + [x] + Patched(lb, cs);
    forall j | 0 <= j < |want| ensures FieldsOk(there[j], want[j]) {
      if j < |la| {
        assert there[j] == all[j];
      } else if j > |la| {
        assert there[j] == all[j - 1] && SameFields(want[j - 1], want[j]);
      } else {
        assert SameFields(want[|want| - 1], want[j]);
      }
    }
  }

  /** Any record of the wish fits any desired one, if those agree. */
  lemma MissingWishFits(a: seq<Record>, s: Record, b: seq<Record>, ds: seq<Record>, m: Record, news: seq<New>)
    requires Taken(a, s, b, ds, m) && Agree(Like(ds, WishOf(m)))
    requires |news| == |Planned(a + [s] + b, ds)| && NewIds(a + [s] + b, news)
    ensures Fits(Like(ApplyAll(a + [s] + b, Planned(a + [s] + b, ds), news), WishOf(m)), Like(ds, WishOf(m)))
  {
    var cs, w, x := Planned(a + [s] + b, ds), WishOf(m), Updated(s, m.(id := s.id));
    TakenLike(a, s, b, ds, m, w);
    TakenFitTo(a, s, b, ds, m, w);
    TakenWish(a, s, b, ds, m, w);
    LikeAround(a, s, b, w);
    NoGap(Like(a, w), Like(b, w));
    FitWith(Like(a, w), x, Like(b, w), cs, Like(ds, w));
    AllFits(a + [s] + b, ds, news, w, Patched(Like(a, w), cs) + [x] + Patched(Like(b, w), cs), Like(Created(cs), w));
  }
}
