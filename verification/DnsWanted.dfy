/** The plan for a zone of which no record is wanted twice (pkg/provider/dnssync.go): it fixes, creates or takes over,
    once for each wanted record that is not there as wanted (PlanSound). */
module DnsWanted {
  import opened Text
  import opened DnsSync
  import opened DnsZone
  import opened DnsMatch
  import opened DnsPlan

  /** No record is wanted twice, TTL and priority aside. */
  ghost predicate Distinct(ds: seq<Record>) {
    forall w :: |Like(ds, w)| <= 1
  }

  /** The first record of a wish, the one a plan is about. */
  function Hit(v: seq<Record>, w: Wish): Option<Record> {
    if Like(v, w) == [] then None else Some(Like(v, w)[0])
  }

  predicate HitIs(v: seq<Record>, w: Wish, id: nat) {
    Hit(v, w).Some? && Hit(v, w).value.id == id
  }

  predicate Done(v: seq<Record>, d: Record) {
    Hit(v, WishOf(d)).Some? && FieldsOk(Hit(v, WishOf(d)).value, d)
  }

  /** The change is for the record d. */
  predicate Meant(c: Change, d: Record) {
    c.record.(id := d.id) == d
  }

  predicate IsFix(v: seq<Record>, c: Change) {
    c.update && HitIs(v, WishOf(c.record), c.record.id) && !FieldsOk(Hit(v, WishOf(c.record)).value, c.record)
  }

  predicate IsCreate(v: seq<Record>, c: Change) {
    !c.update && Hit(v, WishOf(c.record)).None?
  }

  ghost predicate HasTarget(v: seq<Record>, c: Change) {
    exists e :: e in v && e.id == c.record.id && KeyOf(e) == KeyOf(c.record)
  }

  /** The change takes over a record that is the hit of none wanted; the others of its type and name are there. */
  ghost predicate IsTake(v: seq<Record>, ds: seq<Record>, c: Change) {
    && c.update && Hit(v, WishOf(c.record)).None? && SingleValued(c.record.typ) && HasTarget(v, c)
    && forall d :: d in ds && KeyOf(d) == KeyOf(c.record) && WishOf(d) != WishOf(c.record) ==>
      Hit(v, WishOf(d)).Some? && !HitIs(v, WishOf(d), c.record.id)
  }

  ghost predicate Sound(v: seq<Record>, ds: seq<Record>, c: Change) {
    && (exists d :: d in ds && Meant(c, d))
    && (IsFix(v, c) || IsCreate(v, c) || IsTake(v, ds, c))
  }

  ghost predicate Served(v: seq<Record>, cs: seq<Change>, d: Record) {
    Done(v, d) || exists c :: c in cs && Meant(c, d)
  }

  lemma DistinctInit(init: seq<Record>, d: Record)
    requires Distinct(init + [d])
    ensures Distinct(init) && Like(init, WishOf(d)) == []
  {
    forall w ensures |Like(init, w)| <= 1 {
      LikeSnoc(init, d, w);
    }
    LikeSnoc(init, d, WishOf(d));
  }

  lemma {:induction false} FixesSound(ex: seq<Record>, ds: seq<Record>)
    requires Distinct(ds)
    ensures forall c :: c in Fixes(ex, ds) ==> IsFix(ex, c) && exists d :: d in ds && Meant(c, d)
    ensures forall d :: d in ds && Hit(ex, WishOf(d)).Some? ==> Served(ex, Fixes(ex, ds), d)
  {
    if ds != [] {
      var init, d := ds[..|ds| - 1], ds[|ds| - 1];
      assert ds == init + [d];
      DistinctInit(init, d);
      FixesSound(ex, init);
      LikeMembers(ex, WishOf(d));
      if Paired(ex, init, d) && !FieldsOk(Partner(ex, init, d), d) {
        var c := Change(d.(id := Partner(ex, init, d).id), true);
        assert Meant(c, d) && IsFix(ex, c);
        assert Fixes(ex, ds) == Fixes(ex, init) + [c];
      }
    }
  }

  lemma {:induction false} LackingAre(ex: seq<Record>, ds: seq<Record>)
    requires Distinct(ds)
    ensures forall d :: d in Lacking(ex, ds) <==> d in ds && Hit(ex, WishOf(d)).None?
  {
    if ds != [] {
      var init, d := ds[..|ds| - 1], ds[|ds| - 1];
      assert ds == init + [d];
      DistinctInit(init, d);
      LackingAre(ex, init);
    }
  }

  lemma HitMember(v: seq<Record>, w: Wish)
    ensures Hit(v, w).Some? ==> Hit(v, w).value in v && WishOf(Hit(v, w).value) == w
    ensures forall e :: e in v && WishOf(e) == w ==> Hit(v, w).Some?
  {
    LikeMembers(v, w);
    if Hit(v, w).Some? {
      assert Like(v, w)[0] in Like(v, w);
    }
  }

  /** A record that is not wanted is the hit of none wanted. */
  lemma NotHit(ex: seq<Record>, ds: seq<Record>, i: nat, d: Record)
    requires UniqueIds(ex) && i < |ex| && !Wanted(ex, ds, i) && d in ds
    ensures !HitIs(ex, WishOf(d), ex[i].id)
  {
    LikeMembers(ds, WishOf(d));
    assert d in Like(ds, WishOf(d));
    LikeAt(ex, i);
    if HitIs(ex, WishOf(d), ex[i].id) {
      LikeApart(ex, WishOf(d), 0, WishOf(ex[i]), |Like(ex[..i], WishOf(ex[i]))|);
    }
  }

  lemma TakeoverSound(ex: seq<Record>, ds: seq<Record>, k: Key, i: nat)
    requires UniqueIds(ex) && Distinct(ds) && OfKey(ex, k) && OfKey(ds, k) && TakesOver(ex, ds, i)
    ensures Sound(ex, ds, Change(Lacking(ex, ds)[0].(id := ex[i].id), true))
  {
    var m := Lacking(ex, ds)[0];
    var c := Change(m.(id := ex[i].id), true);
    LackingAre(ex, ds);
    assert m in Lacking(ex, ds) && ex[i] in ex;
    assert Meant(c, m) && WishOf(c.record) == WishOf(m);
    forall d | d in ds && WishOf(d) != WishOf(m) ensures Hit(ex, WishOf(d)).Some? && !HitIs(ex, WishOf(d), ex[i].id) {
      assert Lacking(ex, ds) == [m] && d !in Lacking(ex, ds);
      NotHit(ex, ds, i, d);
    }
    assert HasTarget(ex, c);
  }

  lemma GroupSound(ex: seq<Record>, ds: seq<Record>, k: Key)
    requires UniqueIds(ex) && Distinct(ds) && OfKey(ex, k) && OfKey(ds, k)
    ensures forall c :: c in PlanKey(ex, ds) ==> Sound(ex, ds, c)
    ensures forall d :: d in ds ==> Served(ex, PlanKey(ex, ds), d)
  {
    FixesSound(ex, ds);
    PlanKeyIs(ex, ds, k);
    if i: nat :| TakesOver(ex, ds, i) {
      var fill := [Change(Lacking(ex, ds)[0].(id := ex[i].id), true)];
      FillSound(ex, ds, k, i, fill);
      GroupServed(ex, ds, Fixes(ex, ds), fill);
    } else {
      LackingAre(ex, ds);
      CreatesSound(ex, ds, Lacking(ex, ds));
      GroupServed(ex, ds, Fixes(ex, ds), Creates(Lacking(ex, ds)));
    }
  }

  lemma FillSound(ex: seq<Record>, ds: seq<Record>, k: Key, i: nat, fill: seq<Change>)
    requires UniqueIds(ex) && Distinct(ds) && OfKey(ex, k) && OfKey(ds, k) && TakesOver(ex, ds, i)
    requires fill == [Change(Lacking(ex, ds)[0].(id := ex[i].id), true)]
    ensures forall c :: c in fill ==> Sound(ex, ds, c)
    ensures forall d :: d in ds && Hit(ex, WishOf(d)).None? ==> exists c :: c in fill && Meant(c, d)
  {
    TakeoverSound(ex, ds, k, i);
    LackingAre(ex, ds);
    forall d | d in ds && Hit(ex, WishOf(d)).None? ensures exists c :: c in fill && Meant(c, d) {
      assert d in Lacking(ex, ds) && Lacking(ex, ds) == [Lacking(ex, ds)[0]];
      assert fill[0] in fill && Meant(fill[0], d);
    }
  }

  lemma CreatesSound(ex: seq<Record>, ds: seq<Record>, missing: seq<Record>)
    requires forall d :: d in missing ==> d in ds && Hit(ex, WishOf(d)).None?
    ensures forall c :: c in Creates(missing) ==> Sound(ex, ds, c)
    ensures forall d :: d in missing ==> exists c :: c in Creates(missing) && Meant(c, d)
  {
    CreatesAll(missing);
    forall c | c in Creates(missing) ensures Sound(ex, ds, c) {
      var j :| 0 <= j < |missing| && Creates(missing)[j] == c;
      assert missing[j] in missing && Meant(c, missing[j]);
    }
    forall d | d in missing ensures exists c :: c in Creates(missing) && Meant(c, d) {
      var j :| 0 <= j < |missing| && missing[j] == d;
      assert Meant(Creates(missing)[j], d);
    }
  }

  lemma GroupServed(ex: seq<Record>, ds: seq<Record>, fixes: seq<Change>, fill: seq<Change>)
    requires forall c :: c in fixes || c in fill ==> Sound(ex, ds, c)
    requires forall d :: d in ds && Hit(ex, WishOf(d)).Some? ==> Served(ex, fixes, d)
    requires forall d :: d in ds && Hit(ex, WishOf(d)).None? ==> exists c :: c in fill && Meant(c, d)
    ensures forall c :: c in fixes + fill ==> Sound(ex, ds, c)
    ensures forall d :: d in ds ==> Served(ex, fixes + fill, d)
  {
    forall d | d in ds ensures Served(ex, fixes + fill, d) {
      if Hit(ex, WishOf(d)).Some? {
        if !Done(ex, d) {
          var c :| c in fixes && Meant(c, d);
          assert c in fixes + fill;
        }
      } else {
        var c :| c in fill && Meant(c, d);
        assert c in fixes + fill;
      }
    }
  }

  lemma HitInGroup(v: seq<Record>, k: Key, w: Wish)
    requires w.key == k
    ensures Hit(Having(v, k), w) == Hit(v, w)
  {
    LikeHaving(v, k, w);
  }

  lemma SoundInZone(v: seq<Record>, ds: seq<Record>, k: Key, c: Change)
    requires Sound(Having(v, k), Having(ds, k), c)
    ensures Sound(v, ds, c) && KeyOf(c.record) == k
  {
    HavingMembers(v, k);
    HavingMembers(ds, k);
    forall w: Wish | w.key == k ensures Hit(Having(v, k), w) == Hit(v, w) {
      HitInGroup(v, k, w);
    }
    var d :| d in Having(ds, k) && Meant(c, d);
    assert d in ds && KeyOf(d) == k && KeyOf(c.record) == k;
  }

  lemma GroupInZone(v: seq<Record>, ds: seq<Record>, k: Key)
    requires UniqueIds(v) && Distinct(ds)
    ensures forall c :: c in Group(v, ds, k) ==> Sound(v, ds, c)
    ensures forall d :: d in ds && KeyOf(d) == k ==> Served(v, Group(v, ds, k), d)
  {
    HavingMembers(v, k);
    HavingMembers(ds, k);
    HavingUnique(v, k);
    forall w ensures |Like(Having(ds, k), w)| <= 1 {
      LikeHaving(ds, k, w);
    }
    GroupSound(Having(v, k), Having(ds, k), k);
    forall c | c in Group(v, ds, k) ensures Sound(v, ds, c) {
      SoundInZone(v, ds, k, c);
    }
    forall d | d in ds && KeyOf(d) == k ensures Served(v, Group(v, ds, k), d) {
      HitInGroup(v, k, WishOf(d));
      assert Served(Having(v, k), Group(v, ds, k), d);
    }
  }

  lemma {:induction false} PlanKeysSound(v: seq<Record>, ds: seq<Record>, keys: seq<Key>)
    requires UniqueIds(v) && Distinct(ds)
    ensures forall c :: c in PlanKeys(v, ds, keys) ==> Sound(v, ds, c)
    ensures forall d :: d in ds && KeyOf(d) in keys ==> Served(v, PlanKeys(v, ds, keys), d)
  {
    if keys != [] {
      var init, k := keys[..|keys| - 1], keys[|keys| - 1];
      assert keys == init + [k];
      PlanKeysSound(v, ds, init);
      GroupInZone(v, ds, k);
      PlansTogether(v, ds, PlanKeys(v, ds, init), Group(v, ds, k));
    }
  }

  lemma PlansTogether(v: seq<Record>, ds: seq<Record>, a: seq<Change>, b: seq<Change>)
    ensures forall d :: Served(v, a, d) || Served(v, b, d) ==> Served(v, a + b, d)
  {
    forall d | Served(v, a, d) || Served(v, b, d) ensures Served(v, a + b, d) {
      if !Done(v, d) {
        if c :| c in a && Meant(c, d) {
          assert c in a + b;
        } else {
          var c :| c in b && Meant(c, d);
          assert c in a + b;
        }
      }
    }
  }

  /** What the changes of a plan are, and that each wanted record is there as wanted or has a change meant for it. */
  lemma {:induction false} PlanSound(v: seq<Record>, ds: seq<Record>)
    requires UniqueIds(v) && Distinct(ds)
    ensures forall c :: c in Planned(v, ds) ==> Sound(v, ds, c)
    ensures forall d :: d in ds ==> Served(v, Planned(v, ds), d)
  {
    KeysOfIs(ds);
    PlanKeysSound(v, ds, KeysOf(ds));
  }

  lemma FitsOne(es: seq<Record>, d: Record)
    ensures Fits(es, [d]) <==> es != [] && FieldsOk(es[0], d)
  {
  }

  lemma DistinctFits(v: seq<Record>, ds: seq<Record>, w: Wish)
    requires |Like(ds, w)| <= 1
    ensures Fits(Like(v, w), Like(ds, w)) <==> forall d :: d in ds && WishOf(d) == w ==> Done(v, d)
  {
    LikeMembers(ds, w);
    if Like(ds, w) == [] {
      NoneLike(ds, w);
    } else {
      var d := Like(ds, w)[0];
      assert Like(ds, w) == [d] && d in Like(ds, w);
      FitsOne(Like(v, w), d);
    }
  }

  /** Nothing is planned exactly when every wanted record is there as wanted. */
  lemma {:induction false} AllDone(v: seq<Record>, ds: seq<Record>)
    requires Distinct(ds)
    ensures Planned(v, ds) == [] <==> forall d :: d in ds ==> Done(v, d)
  {
    NothingPlannedIff(v, ds);
    forall w ensures Fits(Like(v, w), Like(ds, w)) <==> forall d :: d in ds && WishOf(d) == w ==> Done(v, d) {
      DistinctFits(v, ds, w);
    }
  }
}
