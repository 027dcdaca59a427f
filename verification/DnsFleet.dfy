/** Several daemons syncing one zone at once (pkg/engine/network.go). All the changes they have still to make stay sound
    (Core), whoever reads (ReadKeeps) and whoever calls (CallKeeps), although each is planned on a zone that others
    have changed since; so a sync that is done stays done (EveryHostConverges). */
module DnsFleet {
  import opened DnsSync
  import opened DnsZone
  import opened DnsPlan
  import opened DnsWanted

  // ----------------------------------------------------------- what the wants agree on

  /** Whoever wants records of one wish asks for the same TTL and priority. */
  predicate SameAsked(wanted: set<Record>) {
    forall d, e :: d in wanted && e in wanted && WishOf(d) == WishOf(e) ==> SameFields(d, e)
  }

  predicate Has(ds: seq<Record>, w: Wish) {
    exists d :: d in ds && WishOf(d) == w
  }

  /** Of the single-valued types and names it wants, this one wants all that any wants. */
  predicate WantsAll(ds: seq<Record>, wanted: set<Record>) {
    forall d, e :: d in ds && e in wanted && KeyOf(d) == KeyOf(e) && SingleValued(d.typ) ==> Has(ds, WishOf(e))
  }

  // ------------------------------------------------- what keeps pending changes sound

  /** Every record of the wish is as asked. */
  predicate AllFit(v: seq<Record>, r: Record) {
    forall e :: e in v && WishOf(e) == WishOf(r) ==> FieldsOk(e, r)
  }

  /** The other wishes of its type and name are met. */
  ghost predicate OthersThere(v: seq<Record>, wanted: set<Record>, r: Record) {
    forall d :: d in wanted && KeyOf(d) == KeyOf(r) && WishOf(d) != WishOf(r) ==> Hit(v, WishOf(d)).Some?
  }

  /** The change is for its wish's hit, as any pending update of the wish is. */
  ghost predicate Fixing(v: seq<Record>, pending: set<Change>, c: Change) {
    && HitIs(v, WishOf(c.record), c.record.id)
    && forall o :: o in pending && o.update && WishOf(o.record) == WishOf(c.record) ==> o.record.id == c.record.id
  }

  /** The change is for a wish of which all there are as asked; if it takes a record over, the others are met. */
  ghost predicate Adding(v: seq<Record>, wanted: set<Record>, c: Change) {
    AllFit(v, c.record) && (c.update ==> OthersThere(v, wanted, c.record))
  }

  ghost predicate Purposeful(pending: set<Change>, wanted: set<Record>) {
    forall c :: c in pending ==> exists d :: d in wanted && Meant(c, d)
  }

  ghost predicate Targeted(v: seq<Record>, pending: set<Change>) {
    UniqueIds(v) && forall c :: c in pending && c.update ==> HasTarget(v, c)
  }

  /** No update is for the hit of another wish. */
  predicate Harmless(v: seq<Record>, pending: set<Change>, wanted: set<Record>) {
    forall c, d :: c in pending && c.update && d in wanted && WishOf(d) != WishOf(c.record) ==>
      !HitIs(v, WishOf(d), c.record.id)
  }

  predicate NoFight(pending: set<Change>) {
    forall c, o :: c in pending && o in pending && c.update && o.update && c.record.id == o.record.id ==>
      WishOf(c.record) == WishOf(o.record)
  }

  ghost predicate Useful(v: seq<Record>, pending: set<Change>, wanted: set<Record>) {
    forall c :: c in pending ==> (c.update && Fixing(v, pending, c)) || Adding(v, wanted, c)
  }

  /** The pending changes of all the daemons, over the zone as it is now. */
  ghost predicate Core(v: seq<Record>, pending: set<Change>, wanted: set<Record>) {
    && Purposeful(pending, wanted) && Targeted(v, pending) && Harmless(v, pending, wanted) && NoFight(pending)
    && Useful(v, pending, wanted)
  }

  lemma CoreSmaller(v: seq<Record>, pending: set<Change>, fewer: set<Change>, wanted: set<Record>)
    requires Core(v, pending, wanted) && fewer <= pending
    ensures Core(v, fewer, wanted)
  {
  }

  // ---------------------------------------------------------------- reading keeps them

  lemma SameHit(v: seq<Record>, w: Wish, x: Wish, id: nat)
    requires UniqueIds(v) && HitIs(v, w, id) && HitIs(v, x, id)
    ensures w == x
  {
    HitMember(v, w);
    HitMember(v, x);
    SameId(v, Hit(v, w).value, Hit(v, x).value);
  }

  lemma NewHarmless(v: seq<Record>, wanted: set<Record>, ds: seq<Record>, c: Change, d: Record)
    requires UniqueIds(v) && WantsAll(ds, wanted) && Sound(v, ds, c) && c.update
    requires d in wanted && WishOf(d) != WishOf(c.record)
    ensures !HitIs(v, WishOf(d), c.record.id)
  {
    var mine :| mine in ds && Meant(c, mine);
    SoundHasTarget(v, ds, c);
    var e :| e in v && e.id == c.record.id && KeyOf(e) == KeyOf(c.record);
    HitMember(v, WishOf(d));
    if HitIs(v, WishOf(d), c.record.id) {
      SameId(v, e, Hit(v, WishOf(d)).value);
      if IsFix(v, c) {
        SameHit(v, WishOf(d), WishOf(c.record), c.record.id);
      } else {
        WantedKey(ds, wanted, mine, d);
      }
    }
  }

  lemma WantedKey(ds: seq<Record>, wanted: set<Record>, mine: Record, d: Record)
    requires WantsAll(ds, wanted) && mine in ds && d in wanted && KeyOf(mine) == KeyOf(d) && SingleValued(mine.typ)
    ensures Has(ds, WishOf(d))
  {
  }

  lemma SameTargetSameKey(v: seq<Record>, c: Change, o: Change)
    requires UniqueIds(v) && HasTarget(v, c) && HasTarget(v, o) && c.record.id == o.record.id
    ensures KeyOf(c.record) == KeyOf(o.record)
  {
    var e :| e in v && e.id == c.record.id && KeyOf(e) == KeyOf(c.record);
    var f :| f in v && f.id == o.record.id && KeyOf(f) == KeyOf(o.record);
    SameId(v, e, f);
  }

  lemma SoundHasTarget(v: seq<Record>, ds: seq<Record>, c: Change)
    requires Sound(v, ds, c) && c.update
    ensures HasTarget(v, c)
  {
    HitMember(v, WishOf(c.record));
  }

  /** A takeover is at odds with no update for another wish. */
  lemma TakeNoFight(v: seq<Record>, pending: set<Change>, wanted: set<Record>, ds: seq<Record>, c: Change, o: Change)
    requires UniqueIds(v) && Harmless(v, pending, wanted) && Purposeful(pending, wanted)
    requires forall d :: d in ds ==> d in wanted
    requires Sound(v, ds, c) && IsTake(v, ds, c) && o in pending && o.update && HasTarget(v, o)
    requires Sound(v, ds, o) || HitIs(v, WishOf(o.record), o.record.id) || Adding(v, wanted, o)
    requires c.record.id == o.record.id && c in pending
    ensures WishOf(c.record) == WishOf(o.record)
  {
    SameTargetSameKey(v, c, o);
    var d :| d in ds && Meant(c, d);
    var x :| x in wanted && Meant(o, x);
    assert WishOf(d) == WishOf(c.record) && WishOf(x) == WishOf(o.record);
  }

  lemma NewNoFight(v: seq<Record>, pending: set<Change>, wanted: set<Record>, ds: seq<Record>, c: Change, o: Change)
    requires UniqueIds(v) && Harmless(v, pending, wanted) && Purposeful(pending, wanted)
    requires forall d :: d in ds ==> d in wanted
    requires c in pending && Sound(v, ds, c) && o in pending && c.update && o.update && HasTarget(v, o)
    requires Sound(v, ds, o) || HitIs(v, WishOf(o.record), o.record.id) || Adding(v, wanted, o)
    requires c.record.id == o.record.id
    ensures WishOf(c.record) == WishOf(o.record)
  {
    if IsTake(v, ds, c) {
      TakeNoFight(v, pending, wanted, ds, c, o);
    } else {
      var d :| d in ds && Meant(c, d);
      assert WishOf(d) == WishOf(c.record);
    }
  }

  predicate AllIn(ds: seq<Record>, wanted: set<Record>) {
    forall d :: d in ds ==> d in wanted
  }

  /** A new change is useful. */
  lemma NewUseful(v: seq<Record>, pending: set<Change>, wanted: set<Record>, ds: seq<Record>, c: Change)
    requires UniqueIds(v) && SameAsked(wanted) && WantsAll(ds, wanted) && AllIn(ds, wanted)
    requires c in pending && Sound(v, ds, c) && Purposeful(pending, wanted)
    requires forall o :: o in pending ==> Sound(v, ds, o) || (o.update && Fixing(v, {o}, o)) || Adding(v, wanted, o)
    ensures (c.update && Fixing(v, pending, c)) || Adding(v, wanted, c)
  {
    HitMember(v, WishOf(c.record));
    var mine :| mine in ds && Meant(c, mine);
    if IsFix(v, c) {
      forall o | o in pending && o.update && WishOf(o.record) == WishOf(c.record) ensures o.record.id == c.record.id {
        FixAlone(v, wanted, ds, c, o);
      }
    } else if c.update {
      forall d | d in wanted && KeyOf(d) == KeyOf(c.record) && WishOf(d) != WishOf(c.record)
        ensures Hit(v, WishOf(d)).Some?
      {
        WantedKey(ds, wanted, mine, d);
      }
    }
  }

  /** An update of the wish is for the hit, if that is not as asked. */
  lemma FixAlone(v: seq<Record>, wanted: set<Record>, ds: seq<Record>, c: Change, o: Change)
    requires SameAsked(wanted) && AllIn(ds, wanted) && IsFix(v, c) && (exists d :: d in wanted && Meant(c, d))
    requires o.update && WishOf(o.record) == WishOf(c.record) && exists d :: d in wanted && Meant(o, d)
    requires Sound(v, ds, o) || Fixing(v, {o}, o) || Adding(v, wanted, o)
    ensures o.record.id == c.record.id
  {
    HitMember(v, WishOf(c.record));
    var d :| d in wanted && Meant(c, d);
    var e :| e in wanted && Meant(o, e);
    assert SameFields(d, e);
  }

  /** Reading the zone adds sound changes to those pending. */
  lemma {:induction false} ReadKeeps(v: seq<Record>, pending: set<Change>, wanted: set<Record>, ds: seq<Record>,
                                     planned: set<Change>)
    requires Core(v, pending, wanted) && SameAsked(wanted) && WantsAll(ds, wanted) && AllIn(ds, wanted)
    requires forall c :: c in planned ==> Sound(v, ds, c)
    ensures Core(v, pending + planned, wanted)
  {
    var all := pending + planned;
    forall c | c in all && c.update ensures HasTarget(v, c) {
      if c in planned {
        SoundHasTarget(v, ds, c);
      }
    }
    forall c | c in planned ensures exists d :: d in wanted && Meant(c, d) {
      var d :| d in ds && Meant(c, d);
    }
    ReadHarmless(v, pending, wanted, ds, planned);
    ReadNoFight(v, pending, wanted, ds, planned);
    ReadUseful(v, pending, wanted, ds, planned);
  }

  lemma ReadHarmless(v: seq<Record>, pending: set<Change>, wanted: set<Record>, ds: seq<Record>, planned: set<Change>)
    requires UniqueIds(v) && Harmless(v, pending, wanted) && WantsAll(ds, wanted)
    requires forall c :: c in planned ==> Sound(v, ds, c)
    ensures Harmless(v, pending + planned, wanted)
  {
    forall c, d | c in pending + planned && c.update && d in wanted && WishOf(d) != WishOf(c.record)
      ensures !HitIs(v, WishOf(d), c.record.id)
    {
      if c in planned {
        NewHarmless(v, wanted, ds, c, d);
      }
    }
  }

  lemma ReadNoFight(v: seq<Record>, pending: set<Change>, wanted: set<Record>, ds: seq<Record>, planned: set<Change>)
    requires Harmless(v, pending + planned, wanted) && Purposeful(pending + planned, wanted)
    requires Targeted(v, pending + planned) && NoFight(pending) && Useful(v, pending, wanted) && AllIn(ds, wanted)
    requires forall c :: c in planned ==> Sound(v, ds, c)
    ensures NoFight(pending + planned)
  {
    var all := pending + planned;
    forall c, o | c in all && o in all && c.update && o.update && c.record.id == o.record.id
      ensures WishOf(c.record) == WishOf(o.record)
    {
      if c in planned {
        NewNoFight(v, all, wanted, ds, c, o);
      } else if o in planned {
        NewNoFight(v, all, wanted, ds, o, c);
      }
    }
  }

  lemma ReadUseful(v: seq<Record>, pending: set<Change>, wanted: set<Record>, ds: seq<Record>, planned: set<Change>)
    requires UniqueIds(v) && SameAsked(wanted) && WantsAll(ds, wanted) && AllIn(ds, wanted)
    requires Useful(v, pending, wanted) && Purposeful(pending + planned, wanted)
    requires forall c :: c in planned ==> Sound(v, ds, c)
    ensures Useful(v, pending + planned, wanted)
  {
    var all := pending + planned;
    forall c | c in all ensures (c.update && Fixing(v, all, c)) || Adding(v, wanted, c) {
      if c in planned {
        NewUseful(v, all, wanted, ds, c);
      } else if c.update && Fixing(v, pending, c) {
        forall o | o in planned && o.update && WishOf(o.record) == WishOf(c.record) ensures o.record.id == c.record.id {
          assert Sound(v, ds, o) && Hit(v, WishOf(o.record)).Some?;
        }
      }
    }
  }

  // ---------------------------------------------------------------- a call keeps them

  /** A call makes nothing but a record as asked. */
  predicate StepMakes(v: seq<Record>, c: Change, u: seq<Record>) {
    && (forall e :: e in u ==> e in v || (WishOf(e) == WishOf(c.record) && FieldsOk(e, c.record)))
    && (c.update ==> forall e :: e in u && e.id == c.record.id ==> FieldsOk(e, c.record))
  }

  /** Another wish keeps its hit, if that is not taken over. */
  ghost predicate StepSpares(v: seq<Record>, c: Change, u: seq<Record>) {
    forall x :: x != WishOf(c.record) && Hit(v, x).Some? && !(c.update && HitIs(v, x, c.record.id)) ==>
      Hit(u, x) == Hit(v, x)
  }

  /** Its own wish has a hit: the one it had or the record made, and the same if there was one and it is updated or
      none is. */
  ghost predicate StepHits(v: seq<Record>, c: Change, u: seq<Record>) {
    var w := WishOf(c.record);
    && Hit(u, w).Some?
    && (HitIs(v, w, Hit(u, w).value.id)
        || (if c.update then Hit(u, w).value.id == c.record.id else !HasId(v, Hit(u, w).value.id)))
    && (Hit(v, w).Some? && (c.update ==> HitIs(v, w, c.record.id)) ==> Hit(u, w).value.id == Hit(v, w).value.id)
  }

  ghost predicate Step(v: seq<Record>, c: Change, u: seq<Record>) {
    StepMakes(v, c, u) && StepSpares(v, c, u) && StepHits(v, c, u)
  }

  lemma CreateStep(v: seq<Record>, c: Change, n: New)
    requires !c.update && !HasId(v, n.id)
    ensures Step(v, c, Apply(v, c, n))
  {
    var x := CreatedAs(c.record, n);
    forall w ensures Like(v + [x], w) == Like(v, w) + if WishOf(x) == w then [x] else [] {
      LikeSnoc(v, x, w);
    }
  }

  lemma UpdateAt(v: seq<Record>, r: Record, p: nat)
    requires UniqueIds(v) && p < |v| && v[p].id == r.id
    ensures UpdateIn(v, r) == v[..p] + [Updated(v[p], r)] + v[p + 1..]
  {
  }

  lemma UpdateStep(v: seq<Record>, c: Change, a: seq<Record>, e: Record, b: seq<Record>)
    requires c.update && UniqueIds(v) && v == a + [e] + b && e.id == c.record.id && KeyOf(e) == KeyOf(c.record)
    ensures Step(v, c, a + [Updated(e, c.record)] + b)
  {
    var u := a + [Updated(e, c.record)] + b;
    UpdatedWish(e, c.record);
    UpdateMakes(v, c, a, e, b);
    forall x | x != WishOf(c.record) && Hit(v, x).Some? && !HitIs(v, x, c.record.id) ensures Hit(u, x) == Hit(v, x) {
      LikeAround(a, e, b, x);
      LikeAround(a, Updated(e, c.record), b, x);
      FirstKept(Like(a, x), if WishOf(e) == x then [e] else [], Like(b, x), Like(v, x), Like(u, x));
    }
    UpdateHits(v, c, a, e, b);
  }

  lemma UpdateMakes(v: seq<Record>, c: Change, a: seq<Record>, e: Record, b: seq<Record>)
    requires c.update && UniqueIds(v) && v == a + [e] + b && e.id == c.record.id && KeyOf(e) == KeyOf(c.record)
    ensures StepMakes(v, c, a + [Updated(e, c.record)] + b)
  {
    UpdatedWish(e, c.record);
    assert v[|a|] == e;
    forall f | f in a || f in b ensures f in v && f.id != e.id {
      if f in a {
        var i :| 0 <= i < |a| && a[i] == f;
        assert v[i] == f;
      } else {
        var i :| 0 <= i < |b| && b[i] == f;
        assert v[|a| + 1 + i] == f;
      }
    }
  }

  lemma FirstKept(la: seq<Record>, mid: seq<Record>, lb: seq<Record>, before: seq<Record>, after: seq<Record>)
    requires before == la + mid + lb && after == la + [] + lb && before != []
    requires mid == [] || before[0] != mid[0]
    ensures after != [] && after[0] == before[0]
  {
  }

  lemma UpdateHits(v: seq<Record>, c: Change, a: seq<Record>, e: Record, b: seq<Record>)
    requires c.update && v == a + [e] + b && e.id == c.record.id && KeyOf(e) == KeyOf(c.record)
    ensures StepHits(v, c, a + [Updated(e, c.record)] + b)
  {
    var w, f := WishOf(c.record), Updated(e, c.record);
    UpdatedWish(e, c.record);
    LikeAround(a, e, b, w);
    LikeAround(a, f, b, w);
    FirstOf(Like(a, w), if WishOf(e) == w then [e] else [], f, Like(b, w), Like(v, w), Like(a + [f] + b, w));
  }

  lemma FirstOf(la: seq<Record>, mid: seq<Record>, f: Record, lb: seq<Record>, before: seq<Record>, after: seq<Record>)
    requires before == la + mid + lb && after == la + [f] + lb && |mid| <= 1
    ensures after != []
    ensures if la != [] then before != [] && after[0] == before[0] else after[0] == f
    ensures la == [] && mid != [] ==> before != [] && before[0] == mid[0]
    ensures la == [] && mid == [] && before != [] ==> before[0] == lb[0] && lb != []
  {
  }

  lemma CallUnique(v: seq<Record>, c: Change, n: New)
    requires UniqueIds(v) && !HasId(v, n.id)
    ensures UniqueIds(Apply(v, c, n))
  {
    assert forall i :: 0 <= i < |v| ==> v[i].id != n.id;
  }

  lemma CallStep(v: seq<Record>, c: Change, n: New)
    requires UniqueIds(v) && !HasId(v, n.id) && (c.update ==> HasTarget(v, c))
    ensures Step(v, c, Apply(v, c, n))
  {
    if c.update {
      var e :| e in v && e.id == c.record.id && KeyOf(e) == KeyOf(c.record);
      var p :| 0 <= p < |v| && v[p] == e;
      UpdateAt(v, c.record, p);
      Around(v, p);
      UpdateStep(v, c, v[..p], e, v[p + 1..]);
    } else {
      CreateStep(v, c, n);
    }
  }

  /** A change's target stays. */
  lemma TargetStays(v: seq<Record>, c: Change, n: New, o: Change)
    requires UniqueIds(v) && (c.update ==> HasTarget(v, c)) && HasTarget(v, o)
    ensures HasTarget(Apply(v, c, n), o)
  {
    var e :| e in v && e.id == o.record.id && KeyOf(e) == KeyOf(o.record);
    var p :| 0 <= p < |v| && v[p] == e;
    assert Apply(v, c, n)[p] in Apply(v, c, n);
  }

  lemma MeantSame(wanted: set<Record>, c: Change, o: Change, e: Record)
    requires SameAsked(wanted) && (exists d :: d in wanted && Meant(c, d)) && exists d :: d in wanted && Meant(o, d)
    requires WishOf(c.record) == WishOf(o.record) && FieldsOk(e, c.record)
    ensures FieldsOk(e, o.record)
  {
    var d :| d in wanted && Meant(c, d);
    var f :| f in wanted && Meant(o, f);
    assert SameFields(d, f);
  }

  /** The hit of another wish that is wanted stays. */
  lemma HitStays(v: seq<Record>, pending: set<Change>, wanted: set<Record>, c: Change, u: seq<Record>, d: Record)
    requires Harmless(v, pending, wanted) && c in pending && Step(v, c, u) && d in wanted
    requires WishOf(d) != WishOf(c.record)
    ensures Hit(u, WishOf(d)) == Hit(v, WishOf(d))
  {
    HitMember(v, WishOf(d));
    HitMember(u, WishOf(d));
  }

  lemma CallHarmless(v: seq<Record>, pending: set<Change>, wanted: set<Record>, c: Change, u: seq<Record>, o: Change,
                     d: Record)
    requires Core(v, pending, wanted) && c in pending && Step(v, c, u)
    requires o in pending && o.update && d in wanted && WishOf(d) != WishOf(o.record)
    ensures !HitIs(u, WishOf(d), o.record.id)
  {
    if WishOf(d) != WishOf(c.record) {
      HitStays(v, pending, wanted, c, u, d);
    } else {
      assert HasTarget(v, o);
      var e :| e in v && e.id == o.record.id;
      var p :| 0 <= p < |v| && v[p] == e;
      assert HasId(v, o.record.id);
    }
  }

  lemma CallAdding(v: seq<Record>, pending: set<Change>, wanted: set<Record>, c: Change, u: seq<Record>, o: Change)
    requires Core(v, pending, wanted) && SameAsked(wanted) && c in pending && Step(v, c, u)
    requires o in pending && Adding(v, wanted, o)
    ensures Adding(u, wanted, o)
  {
    forall e | e in u && WishOf(e) == WishOf(o.record) ensures FieldsOk(e, o.record) {
      if e !in v {
        MeantSame(wanted, c, o, e);
      }
    }
    forall d | d in wanted && KeyOf(d) == KeyOf(o.record) && WishOf(d) != WishOf(o.record) && o.update
      ensures Hit(u, WishOf(d)).Some?
    {
      if WishOf(d) != WishOf(c.record) {
        HitStays(v, pending, wanted, c, u, d);
      }
    }
  }

  lemma CallFixing(v: seq<Record>, pending: set<Change>, wanted: set<Record>, c: Change, u: seq<Record>, o: Change)
    requires Core(v, pending, wanted) && c in pending && Step(v, c, u)
    requires o in pending && o.update && Fixing(v, pending, o)
    ensures Fixing(u, pending, o)
  {
    if WishOf(o.record) != WishOf(c.record) {
      var d :| d in wanted && Meant(o, d);
      assert WishOf(d) == WishOf(o.record);
      HitStays(v, pending, wanted, c, u, d);
    }
  }

  /** A pending change may be made at any time: those pending stay sound. */
  lemma {:induction false} CallKeeps(v: seq<Record>, pending: set<Change>, wanted: set<Record>, c: Change, n: New)
    requires Core(v, pending, wanted) && SameAsked(wanted) && c in pending && !HasId(v, n.id)
    ensures Core(Apply(v, c, n), pending, wanted)
  {
    var u := Apply(v, c, n);
    CallStep(v, c, n);
    CallUnique(v, c, n);
    forall o | o in pending && o.update ensures HasTarget(u, o) {
      TargetStays(v, c, n, o);
    }
    forall o, d | o in pending && o.update && d in wanted && WishOf(d) != WishOf(o.record)
      ensures !HitIs(u, WishOf(d), o.record.id)
    {
      CallHarmless(v, pending, wanted, c, u, o, d);
    }
    forall o | o in pending ensures (o.update && Fixing(u, pending, o)) || Adding(u, wanted, o) {
      if Adding(v, wanted, o) {
        CallAdding(v, pending, wanted, c, u, o);
      } else {
        CallFixing(v, pending, wanted, c, u, o);
      }
    }
  }

  /** What is done stays done, and a change does what it is meant for, stale though the reading is it was planned on. */
  lemma {:induction false} CallDoes(v: seq<Record>, pending: set<Change>, wanted: set<Record>, c: Change, n: New,
                                    d: Record)
    requires Core(v, pending, wanted) && SameAsked(wanted) && c in pending && !HasId(v, n.id) && d in wanted
    requires Done(v, d) || Meant(c, d)
    ensures Done(Apply(v, c, n), d)
  {
    var u := Apply(v, c, n);
    CallStep(v, c, n);
    if WishOf(d) != WishOf(c.record) {
      HitStays(v, pending, wanted, c, u, d);
    } else {
      HitMember(u, WishOf(d));
      assert FieldsOk(Hit(u, WishOf(d)).value, c.record);
      MeantSame(wanted, c, Change(d, false), Hit(u, WishOf(d)).value);
    }
  }

  // ------------------------------------------------------------------- the daemons

  // Each reads the zone, plans its own host's records and makes its calls one by one, while the others read and call
  // as they please.

  /** A daemon that has not read the zone yet, or one with calls left to make; none left: its sync is over. */
  datatype Daemon = Waiting | Calling(left: seq<Change>)

  datatype World = World(zone: seq<Record>, daemons: seq<Daemon>)

  /** Read: a daemon reads the zone and plans; whatever it read before and had not done is dropped. Call: it makes its
      next call; a record that it creates is named as given. */
  datatype Event = Read(host: nat) | Call(host: nat, made: New)

  predicate Enabled(w: World, e: Event) {
    && e.host < |w.daemons|
    && (e.Call? ==> w.daemons[e.host].Calling? && w.daemons[e.host].left != [] && !HasId(w.zone, e.made.id))
  }

  function Next(w: World, wants: seq<seq<Record>>, e: Event): World
    requires Enabled(w, e) && |wants| == |w.daemons|
  {
    match e
    case Read(h) => w.(daemons := w.daemons[h := Calling(Planned(w.zone, wants[h]))])
    case Call(h, n) =>
      var left := w.daemons[h].left;
      World(Apply(w.zone, left[0], n), w.daemons[h := Calling(left[1..])])
  }

  ghost function PendingOf(daemons: seq<Daemon>): set<Change> {
    set h: nat, c | h < |daemons| && daemons[h].Calling? && c in daemons[h].left :: c
  }

  ghost function WantedOf(wants: seq<seq<Record>>): set<Record> {
    set h: nat, d | h < |wants| && d in wants[h] :: d
  }

  ghost predicate EachDistinct(wants: seq<seq<Record>>) {
    forall h :: 0 <= h < |wants| ==> Distinct(wants[h])
  }

  /** Who wants the same record asks the same of it, and who want addresses or an alias of one name want the same. */
  ghost predicate Agreed(wants: seq<seq<Record>>) {
    && SameAsked(WantedOf(wants))
    && forall h :: 0 <= h < |wants| ==> WantsAll(wants[h], WantedOf(wants))
  }

  /** The pending changes are sound, and each record a daemon wants is there as wanted or among its calls to make. */
  ghost predicate Inv(w: World, wants: seq<seq<Record>>) {
    && |wants| == |w.daemons| && Core(w.zone, PendingOf(w.daemons), WantedOf(wants))
    && forall h, d :: 0 <= h < |wants| && w.daemons[h].Calling? && d in wants[h] ==>
      Served(w.zone, w.daemons[h].left, d)
  }

  lemma {:induction false} InvRead(w: World, wants: seq<seq<Record>>, h: nat)
    requires Inv(w, wants) && EachDistinct(wants) && Agreed(wants) && h < |wants|
    ensures Inv(Next(w, wants, Read(h)), wants)
  {
    var cs := Planned(w.zone, wants[h]);
    var planned := set c | c in cs;
    PlanSound(w.zone, wants[h]);
    ReadKeeps(w.zone, PendingOf(w.daemons), WantedOf(wants), wants[h], planned);
    var after := w.daemons[h := Calling(cs)];
    CoreSmaller(w.zone, PendingOf(w.daemons) + planned, PendingOf(after), WantedOf(wants));
  }

  lemma {:induction false} InvCall(w: World, wants: seq<seq<Record>>, h: nat, n: New)
    requires Inv(w, wants) && Agreed(wants) && Enabled(w, Call(h, n))
    ensures Inv(Next(w, wants, Call(h, n)), wants)
  {
    var left, pending := w.daemons[h].left, PendingOf(w.daemons);
    var c := left[0];
    assert c in left && c in pending;
    CallKeeps(w.zone, pending, WantedOf(wants), c, n);
    var u, after := Apply(w.zone, c, n), w.daemons[h := Calling(left[1..])];
    assert forall o :: o in left[1..] ==> o in left;
    CoreSmaller(u, pending, PendingOf(after), WantedOf(wants));
    forall g, d | 0 <= g < |wants| && after[g].Calling? && d in wants[g] ensures Served(u, after[g].left, d) {
      assert Served(w.zone, w.daemons[g].left, d) && d in WantedOf(wants);
      if Done(w.zone, d) || Meant(c, d) {
        CallDoes(w.zone, pending, WantedOf(wants), c, n, d);
      } else {
        var o :| o in w.daemons[g].left && Meant(o, d);
        assert o in after[g].left;
      }
    }
  }

  ghost predicate IsRun(worlds: seq<World>, wants: seq<seq<Record>>, events: seq<Event>) {
    && |worlds| == |events| + 1
    && |worlds[0].daemons| == |wants| && UniqueIds(worlds[0].zone)
    && (forall h :: 0 <= h < |wants| ==> worlds[0].daemons[h] == Waiting)
    && (forall k :: 0 <= k < |worlds| ==> |worlds[k].daemons| == |wants|)
    && forall k :: 0 <= k < |events| ==>
      Enabled(worlds[k], events[k]) && worlds[k + 1] == Next(worlds[k], wants, events[k])
  }

  lemma {:induction false} InvRun(worlds: seq<World>, wants: seq<seq<Record>>, events: seq<Event>, k: nat)
    requires EachDistinct(wants) && Agreed(wants) && IsRun(worlds, wants, events) && k < |worlds|
    ensures Inv(worlds[k], wants)
  {
    if k > 0 {
      InvRun(worlds, wants, events, k - 1);
      assert Enabled(worlds[k - 1], events[k - 1]) && worlds[k] == Next(worlds[k - 1], wants, events[k - 1]);
      match events[k - 1]
      case Read(h) => InvRead(worlds[k - 1], wants, h);
      case Call(h, n) => InvCall(worlds[k - 1], wants, h, n);
    }
  }

  lemma RunStep(worlds: seq<World>, wants: seq<seq<Record>>, events: seq<Event>, k: nat)
    requires IsRun(worlds, wants, events) && k < |events|
    ensures |worlds[k].daemons| == |wants| && Enabled(worlds[k], events[k])
    ensures worlds[k + 1] == Next(worlds[k], wants, events[k])
  {
  }

  lemma DoneInWorld(w: World, wants: seq<seq<Record>>, h: nat)
    requires EachDistinct(wants) && Inv(w, wants) && h < |wants| && w.daemons[h] == Calling([])
    ensures Planned(w.zone, wants[h]) == []
  {
    AllDone(w.zone, wants[h]);
    forall d | d in wants[h] ensures Done(w.zone, d) {
      assert Served(w.zone, w.daemons[h].left, d);
    }
  }

  lemma StaysDone(w: World, wants: seq<seq<Record>>, e: Event, h: nat)
    requires |wants| == |w.daemons| && h < |wants| && Enabled(w, e)
    requires w.daemons[h] == Calling([]) && Planned(w.zone, wants[h]) == []
    ensures Next(w, wants, e).daemons[h] == Calling([])
  {
  }

  /** However the daemons' reads and calls interleave, once a daemon has made its last call its plan is empty, and it
      stays so whatever the others do and however often it syncs again. */
  lemma {:induction false} EveryHostConverges(worlds: seq<World>, wants: seq<seq<Record>>, events: seq<Event>,
                                              k: nat, l: nat, h: nat)
    requires EachDistinct(wants) && Agreed(wants)
    requires IsRun(worlds, wants, events) && k <= l < |worlds| && h < |wants|
    requires worlds[k].daemons[h] == Calling([])
    ensures worlds[l].daemons[h] == Calling([]) && Planned(worlds[l].zone, wants[h]) == []
    decreases l
  {
    if k < l {
      EveryHostConverges(worlds, wants, events, k, l - 1, h);
      RunStep(worlds, wants, events, l - 1);
      StaysDone(worlds[l - 1], wants, events[l - 1], h);
    }
    InvRun(worlds, wants, events, l);
    DoneInWorld(worlds[l], wants, h);
  }
}
