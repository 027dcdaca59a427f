/** When daemons syncing one zone leave each other's records alone in every run (pkg/engine/network.go): exactly when
    what they want agrees (ConvergeIff). Where it does not, two of them make the run: both read, then one makes its
    calls, then the other. */
module DnsClash {
  import opened Text
  import opened DnsSync
  import opened DnsZone
  import opened DnsPlan
  import opened DnsConverge
  import opened DnsWanted
  import opened DnsFleet

  predicate Over(w: World, h: nat) {
    h < |w.daemons| && w.daemons[h] == Calling([])
  }

  /** In every run, a daemon that has made its last call has nothing to plan, then and ever after. */
  ghost predicate AlwaysSettle(wants: seq<seq<Record>>) {
    forall worlds: seq<World>, events, k: nat, l: nat, h: nat ::
      IsRun(worlds, wants, events) && k <= l < |worlds| && h < |wants| && Over(worlds[k], h) ==>
      Planned(worlds[l].zone, wants[h]) == []
  }

  lemma Extend(worlds: seq<World>, wants: seq<seq<Record>>, events: seq<Event>, e: Event, w: World)
    requires IsRun(worlds, wants, events) && Enabled(worlds[|events|], e) && w == Next(worlds[|events|], wants, e)
    ensures IsRun(worlds + [w], wants, events + [e])
  {
    var ws, es := worlds + [w], events + [e];
    forall k | 0 <= k < |es| ensures Enabled(ws[k], es[k]) && ws[k + 1] == Next(ws[k], wants, es[k]) {
      if k < |events| {
        RunStep(worlds, wants, events, k);
      }
    }
  }

  lemma {:induction false} IdsAfter(v: seq<Record>, cs: seq<Change>, news: seq<New>)
    requires |news| == |cs|
    ensures forall e :: e in ApplyAll(v, cs, news) ==>
      HasId(v, e.id) || exists i :: 0 <= i < |news| && news[i].id == e.id
  {
    if cs != [] {
      var n := |cs| - 1;
      IdsAfter(v, cs[..n], news[..n]);
      var u := ApplyAll(v, cs[..n], news[..n]);
      forall e | e in ApplyAll(v, cs, news)
        ensures HasId(v, e.id) || exists i :: 0 <= i < |news| && news[i].id == e.id
      {
        var p :| 0 <= p < |ApplyAll(v, cs, news)| && ApplyAll(v, cs, news)[p] == e;
        if p < |u| {
          assert u[p] in u && u[p].id == e.id;
          if !HasId(v, e.id) {
            var i :| 0 <= i < n && news[..n][i].id == e.id;
            assert news[i].id == e.id;
          }
        } else {
          assert news[n].id == e.id;
        }
      }
    }
  }

  /** A daemon makes n of its calls with no other between. */
  lemma {:induction false} MakeCalls(worlds: seq<World>, wants: seq<seq<Record>>, events: seq<Event>, h: nat,
                                     cs: seq<Change>, news: seq<New>, n: nat)
      returns (ws: seq<World>, es: seq<Event>)
    requires IsRun(worlds, wants, events) && h < |wants| && worlds[|events|].daemons[h] == Calling(cs)
    requires |news| == |cs| && NewIds(worlds[|events|].zone, news) && n <= |cs|
    ensures IsRun(ws, wants, es)
    ensures ws[|es|] == World(ApplyAll(worlds[|events|].zone, cs[..n], news[..n]),
                              worlds[|events|].daemons[h := Calling(cs[n..])])
  {
    var w := worlds[|events|];
    if n == 0 {
      ws, es := worlds, events;
      assert cs[0..] == cs && w.daemons[h := w.daemons[h]] == w.daemons;
    } else {
      ws, es := MakeCalls(worlds, wants, events, h, cs, news, n - 1);
      var before := ApplyAll(w.zone, cs[..n - 1], news[..n - 1]);
      FreshAfter(w.zone, cs, news, n - 1);
      var u := World(Apply(before, cs[n - 1], news[n - 1]), w.daemons[h := Calling(cs[n..])]);
      assert cs[n - 1..][1..] == cs[n..] && cs[n - 1..][0] == cs[n - 1];
      assert cs[..n][..n - 1] == cs[..n - 1] && news[..n][..n - 1] == news[..n - 1];
      Extend(ws, wants, es, Call(h, news[n - 1]), u);
      ws, es := ws + [u], es + [Call(h, news[n - 1])];
    }
  }

  lemma FreshAfter(v: seq<Record>, cs: seq<Change>, news: seq<New>, n: nat)
    requires n < |cs| == |news| && NewIds(v, news)
    ensures !HasId(ApplyAll(v, cs[..n], news[..n]), news[n].id)
  {
    var u := ApplyAll(v, cs[..n], news[..n]);
    IdsAfter(v, cs[..n], news[..n]);
    forall e | e in u ensures e.id != news[n].id {
      if !HasId(v, e.id) {
        var j :| 0 <= j < n && news[..n][j].id == e.id;
        assert news[j].id == e.id;
      }
    }
  }

  lemma MakeAllCalls(worlds: seq<World>, wants: seq<seq<Record>>, events: seq<Event>, h: nat, cs: seq<Change>,
                     news: seq<New>)
      returns (ws: seq<World>, es: seq<Event>)
    requires IsRun(worlds, wants, events) && h < |wants| && worlds[|events|].daemons[h] == Calling(cs)
    requires |news| == |cs| && NewIds(worlds[|events|].zone, news)
    ensures IsRun(ws, wants, es)
    ensures ws[|es|] == World(ApplyAll(worlds[|events|].zone, cs, news), worlds[|events|].daemons[h := Calling([])])
  {
    ws, es := MakeCalls(worlds, wants, events, h, cs, news, |cs|);
    assert cs[..|cs|] == cs && news[..|cs|] == news && cs[|cs|..] == [];
  }

  lemma ReadBoth(v: seq<Record>, wants: seq<seq<Record>>, g: nat, h: nat)
      returns (worlds: seq<World>, events: seq<Event>)
    requires UniqueIds(v) && g < |wants| && h < |wants| && g != h
    ensures IsRun(worlds, wants, events) && worlds[|events|].zone == v
    ensures worlds[|events|].daemons[g] == Calling(Planned(v, wants[g]))
    ensures worlds[|events|].daemons[h] == Calling(Planned(v, wants[h]))
  {
    var none := seq(|wants|, i requires 0 <= i < |wants| => Waiting);
    var first := World(v, none);
    var second := Next(first, wants, Read(g));
    var third := Next(second, wants, Read(h));
    assert IsRun([first], wants, []);
    Extend([first], wants, [], Read(g), second);
    Extend([first] + [second], wants, [] + [Read(g)], Read(h), third);
    worlds, events := [first] + [second] + [third], [] + [Read(g)] + [Read(h)];
  }

  /** Both read; then g makes its calls, and then h, what it planned being old by then. */
  lemma {:induction false} TwoSyncs(v: seq<Record>, wants: seq<seq<Record>>, g: nat, h: nat, gs: seq<New>, hs: seq<New>)
    requires UniqueIds(v) && g < |wants| && h < |wants| && g != h && AlwaysSettle(wants)
    requires |gs| == |Planned(v, wants[g])| && NewIds(v, gs)
    requires |hs| == |Planned(v, wants[h])| && NewIds(ApplyAll(v, Planned(v, wants[g]), gs), hs)
    ensures var u := ApplyAll(ApplyAll(v, Planned(v, wants[g]), gs), Planned(v, wants[h]), hs);
      Planned(u, wants[g]) == [] && Planned(u, wants[h]) == []
  {
    var worlds, events := ReadBoth(v, wants, g, h);
    worlds, events := MakeAllCalls(worlds, wants, events, g, Planned(v, wants[g]), gs);
    worlds, events := MakeAllCalls(worlds, wants, events, h, Planned(v, wants[h]), hs);
    var k := |events|;
    assert Over(worlds[k], g) && Over(worlds[k], h);
  }

  // ------------------------------------- two ask for one record, and not for the same

  /** A change that creates, of a plan for an empty zone. */
  lemma EmptyPlanCreates(ds: seq<Record>, c: Change)
    requires c in Planned([], ds)
    ensures !c.update
  {
    PlanIsAimed([], ds);
  }

  /** Names with one TTL and priority, which the provider gives where nothing is asked. */
  function Given(n: nat, ttl: int, priority: int): (news: seq<New>)
    ensures |news| == n && forall i :: 0 <= i < n ==> news[i] == New(i, ttl, priority)
  {
    seq(n, i requires 0 <= i < n => New(i, ttl, priority))
  }

  lemma PatchedNothing(v: seq<Record>, cs: seq<Change>)
    requires forall c :: c in cs ==> !c.update
    ensures Patched(v, cs) == v
  {
    forall i | 0 <= i < |v| ensures Patch(v[i], cs) == v[i] {
      PatchOther(v[i], cs);
    }
  }

  lemma OnlyCreates(v: seq<Record>, cs: seq<Change>, news: seq<New>)
    requires |news| == |cs| && NewIds(v, news) && forall c :: c in cs ==> !c.update
    ensures ApplyAll(v, cs, news) == v + Made(cs, news)
  {
    ApplyAllIs(v, cs, news);
    PatchedNothing(v, cs);
  }

  lemma DistinctRepeatsAgree(ds: seq<Record>)
    requires Distinct(ds)
    ensures RepeatsAgree(ds)
  {
    forall d, e | d in ds && e in ds && WishOf(d) == WishOf(e) ensures d == e {
      OnlyWanted(ds, d, e);
    }
  }

  /** In an empty zone the plan creates the wanted record with what it asks for, or else with what is given. */
  lemma CreatedFirst(ds: seq<Record>, d: Record, news: seq<New>, ttl: int, priority: int)
    requires Distinct(ds) && d in ds && news == Given(|Planned([], ds)|, ttl, priority)
    ensures NewIds([], news)
    ensures Hit(ApplyAll([], Planned([], ds), news), WishOf(d)).Some?
    ensures FieldsAre(Hit(ApplyAll([], Planned([], ds), news), WishOf(d)).value, d, ttl, priority)
  {
    var cs := Planned([], ds);
    var u := ApplyAll([], cs, news);
    forall c | c in cs ensures !c.update {
      EmptyPlanCreates(ds, c);
    }
    OnlyCreates([], cs, news);
    assert [] + Made(cs, news) == Made(cs, news);
    DistinctRepeatsAgree(ds);
    Converges([], ds, news);
    AllDone(u, ds);
    assert Done(u, d);
    HitMember(u, WishOf(d));
    MadeIsAsked(ds, d, news, ttl, priority, Hit(u, WishOf(d)).value);
  }

  lemma MadeIsAsked(ds: seq<Record>, d: Record, news: seq<New>, ttl: int, priority: int, x: Record)
    requires Distinct(ds) && d in ds && news == Given(|Planned([], ds)|, ttl, priority)
    requires x in Made(Planned([], ds), news) && WishOf(x) == WishOf(d)
    ensures FieldsAre(x, d, ttl, priority)
  {
    var cs := Planned([], ds);
    MadeMembers(cs, news);
    var i :| 0 <= i < |cs| && x == CreatedAs(cs[i].record, news[i]);
    PlanSound([], ds);
    assert cs[i] in cs;
    var mine :| mine in ds && Meant(cs[i], mine);
    OnlyWanted(ds, d, mine);
  }

  /** As asked, and as given where nothing is. */
  predicate FieldsAre(x: Record, d: Record, ttl: int, priority: int) {
    x.ttl == (if d.ttl > 0 then d.ttl else ttl) && x.priority == if d.priority > 0 then d.priority else priority
  }

  lemma OnlyWanted(ds: seq<Record>, d: Record, e: Record)
    requires Distinct(ds) && d in ds && e in ds && WishOf(d) == WishOf(e)
    ensures d == e
  {
    LikeMembers(ds, WishOf(d));
    assert d in Like(ds, WishOf(d)) && e in Like(ds, WishOf(d));
  }

  lemma HitExtends(v: seq<Record>, more: seq<Record>, w: Wish)
    requires Hit(v, w).Some?
    ensures Hit(v + more, w) == Hit(v, w)
  {
    LikeConcat(v, more, w);
  }

  /** e asks for a TTL or a priority that d does not ask for. */
  predicate AsksMore(d: Record, e: Record) {
    (e.ttl > 0 && d.ttl != e.ttl) || (e.priority > 0 && d.priority != e.priority)
  }

  /** From an empty zone both create their record, the one that wants the other fields last. */
  lemma {:induction false} FieldsClash(wants: seq<seq<Record>>, g: nat, h: nat, d: Record, e: Record)
    requires EachDistinct(wants) && g < |wants| && h < |wants| && g != h && d in wants[g] && e in wants[h]
    requires WishOf(d) == WishOf(e) && AsksMore(d, e)
    ensures !AlwaysSettle(wants)
  {
    var gs := Given(|Planned([], wants[g])|, e.ttl + 1, e.priority + 1);
    CreatedFirst(wants[g], d, gs, e.ttl + 1, e.priority + 1);
    var v := ApplyAll([], Planned([], wants[g]), gs);
    var hs := ExistNews(v, |Planned([], wants[h])|);
    forall c | c in Planned([], wants[h]) ensures !c.update {
      EmptyPlanCreates(wants[h], c);
    }
    OnlyCreates(v, Planned([], wants[h]), hs);
    HitExtends(v, Made(Planned([], wants[h]), hs), WishOf(d));
    AllDone(ApplyAll(v, Planned([], wants[h]), hs), wants[h]);
    if AlwaysSettle(wants) {
      TwoSyncs([], wants, g, h, gs, hs);
    }
  }

  // -------------------------------------- one wants of a name what the other does not

  ghost predicate MadeFor(e: Record, cs: seq<Change>) {
    exists c :: c in cs && WishOf(c.record) == WishOf(e)
  }

  /** Calls keep the targets of all that is pending, and make nothing but what they are for. */
  lemma {:induction false} CallsKeep(v: seq<Record>, cs: seq<Change>, news: seq<New>, pending: set<Change>)
    requires |news| == |cs| && NewIds(v, news) && Targeted(v, pending) && forall c :: c in cs ==> c in pending
    ensures Targeted(ApplyAll(v, cs, news), pending)
    ensures forall e :: e in ApplyAll(v, cs, news) ==> e in v || MadeFor(e, cs)
  {
    if cs != [] {
      var n := |cs| - 1;
      var u := ApplyAll(v, cs[..n], news[..n]);
      assert cs == cs[..n] + [cs[n]] && cs[n] in cs;
      CallsKeep(v, cs[..n], news[..n], pending);
      FreshAfter(v, cs, news, n);
      CallStep(u, cs[n], news[n]);
      CallUnique(u, cs[n], news[n]);
      forall o | o in pending && o.update ensures HasTarget(Apply(u, cs[n], news[n]), o) {
        TargetStays(u, cs[n], news[n], o);
      }
      forall e | e in ApplyAll(v, cs, news) ensures e in v || MadeFor(e, cs) {
        MadeForMore(v, u, cs, e);
      }
    }
  }

  lemma MadeForMore(v: seq<Record>, u: seq<Record>, cs: seq<Change>, e: Record)
    requires cs != [] && (forall f :: f in u ==> f in v || MadeFor(f, cs[..|cs| - 1]))
    requires e in u || WishOf(e) == WishOf(cs[|cs| - 1].record)
    ensures e in v || MadeFor(e, cs)
  {
    if e in u && e !in v {
      var c :| c in cs[..|cs| - 1] && WishOf(c.record) == WishOf(e);
      assert c in cs;
    } else if e !in u {
      assert cs[|cs| - 1] in cs;
    }
  }

  lemma SoundTargets(v: seq<Record>, ds: seq<Record>)
    requires UniqueIds(v) && Distinct(ds)
    ensures forall c :: c in Planned(v, ds) && c.update ==> HasTarget(v, c)
    ensures forall c :: c in Planned(v, ds) ==> exists d :: d in ds && Meant(c, d)
  {
    PlanSound(v, ds);
    forall c | c in Planned(v, ds) && c.update ensures HasTarget(v, c) {
      SoundHasTarget(v, ds, c);
    }
  }

  lemma ZoneHit(ds: seq<Record>, k: Key, a: seq<Record>, m: Record, b: seq<Record>, s: Record)
    requires Displaces(ds, k, a, m, b, s)
    ensures Like(Copies(a + b), WishOf(s)) == [] && Hit(ZoneOf(s, a + b), WishOf(s)) == Some(s)
  {
    ZoneIsOfKey(ds, k, a, m, b, s);
    NoneLike(Copies(a + b), WishOf(s));
    LikeConcat([s], Copies(a + b), WishOf(s));
    LikeSnoc([], s, WishOf(s));
    assert [] + [s] == [s];
  }

  /** Once m has taken over s there is no record of its wish. */
  lemma ZoneVanishes(ds: seq<Record>, k: Key, a: seq<Record>, m: Record, b: seq<Record>, s: Record, news: seq<New>)
    requires Displaces(ds, k, a, m, b, s) && Distinct(ds) && UniqueIds(ZoneOf(s, a + b))
    requires |news| == |Planned(ZoneOf(s, a + b), ds)| && NewIds(ZoneOf(s, a + b), news)
    ensures Like(ApplyAll(ZoneOf(s, a + b), Planned(ZoneOf(s, a + b), ds), news), WishOf(s)) == []
  {
    var v := ZoneOf(s, a + b);
    var cs, w := Planned(v, ds), WishOf(s);
    ZonePatchedOther(ds, k, a, m, b, s);
    PlanIsAimed(v, ds);
    ApplyAllIs(v, cs, news);
    LikeConcat(Patched(v, cs), Made(cs, news), w);
    SoundTargets(v, ds);
    MadeMembers(cs, news);
    NoneLike(ds, w);
    forall r | r in Made(cs, news) ensures WishOf(r) != w {
      var i :| 0 <= i < |cs| && r == CreatedAs(cs[i].record, news[i]);
      assert cs[i] in cs;
      var d :| d in ds && Meant(cs[i], d);
      assert WishOf(d) == WishOf(r);
    }
    NoneLike(Made(cs, news), w);
  }

  lemma ZonePatchedOther(ds: seq<Record>, k: Key, a: seq<Record>, m: Record, b: seq<Record>, s: Record)
    requires Displaces(ds, k, a, m, b, s)
    ensures Like(Patched(ZoneOf(s, a + b), Planned(ZoneOf(s, a + b), ds)), WishOf(s)) == []
  {
    ZoneTaken(ds, k, a, m, b, s);
    ZoneHit(ds, k, a, m, b, s);
    ZoneWish(ds, k, a, m, b, s);
    TakenLike([], s, Copies(a + b), ds, m, WishOf(s));
    NothingLeft(Like([], WishOf(s)), Like(Copies(a + b), WishOf(s)), Planned(ZoneOf(s, a + b), ds));
  }

  lemma NothingLeft(a: seq<Record>, b: seq<Record>, cs: seq<Change>)
    requires a == [] && b == []
    ensures Patched(a, cs) + [] + Patched(b, cs) == []
  {
  }

  /** A plan that finds the record as wanted has no change for its wish. */
  lemma NoChangeFor(v: seq<Record>, ds: seq<Record>, e: Record, c: Change)
    requires UniqueIds(v) && Distinct(ds) && e in ds && Done(v, e) && c in Planned(v, ds)
    ensures WishOf(c.record) != WishOf(e)
  {
    PlanSound(v, ds);
    var d :| d in ds && Meant(c, d);
    if WishOf(c.record) == WishOf(e) {
      OnlyWanted(ds, d, e);
    }
  }

  /** One has read and is to take over a record of the other, which has it and finds nothing to do for it. */
  lemma {:induction false} ValuesClash(wants: seq<seq<Record>>, g: nat, h: nat, d: Record, e: Record)
    requires EachDistinct(wants) && g < |wants| && h < |wants| && g != h && d in wants[h] && e in wants[g]
    requires KeyOf(d) == KeyOf(e) && SingleValued(d.typ) && !Has(wants[h], WishOf(e))
    ensures !AlwaysSettle(wants)
  {
    LikeMembers(wants[h], WishOf(d));
    assert d in Like(wants[h], WishOf(d));
    var a, m, b := LastOfWish(wants[h], WishOf(d));
    var s := e.(id := 0);
    NoneLike(wants[h], WishOf(s));
    ZoneIsOfKey(wants[h], KeyOf(d), a, m, b, s);
    ZoneHit(wants[h], KeyOf(d), a, m, b, s);
    var v := ZoneOf(s, a + b);
    var hs := ExistNews(v, |Planned(v, wants[h])|);
    var u := ApplyAll(v, Planned(v, wants[h]), hs);
    var gs := ExistNews(u, |Planned(v, wants[g])|);
    ZoneVanishes(wants[h], KeyOf(d), a, m, b, s, hs);
    StaysGone(v, u, wants[h], wants[g], hs, gs, e);
    AllDone(ApplyAll(u, Planned(v, wants[g]), gs), wants[g]);
    if AlwaysSettle(wants) {
      TwoSyncs(v, wants, h, g, hs, gs);
    }
  }

  lemma {:induction false} StaysGone(v: seq<Record>, u: seq<Record>, first: seq<Record>, second: seq<Record>,
                                     hs: seq<New>, gs: seq<New>, e: Record)
    requires UniqueIds(v) && Distinct(first) && Distinct(second) && e in second && Done(v, e)
    requires |hs| == |Planned(v, first)| && NewIds(v, hs) && u == ApplyAll(v, Planned(v, first), hs)
    requires |gs| == |Planned(v, second)| && NewIds(u, gs) && Like(u, WishOf(e)) == []
    ensures !Done(ApplyAll(u, Planned(v, second), gs), e)
  {
    var pending := (set c | c in Planned(v, first)) + set c | c in Planned(v, second);
    SoundTargets(v, first);
    SoundTargets(v, second);
    CallsKeep(v, Planned(v, first), hs, pending);
    CallsKeep(u, Planned(v, second), gs, pending);
    NoneLike(u, WishOf(e));
    forall f | f in ApplyAll(u, Planned(v, second), gs) ensures WishOf(f) != WishOf(e) {
      if f !in u {
        var c :| c in Planned(v, second) && WishOf(c.record) == WishOf(f);
        NoChangeFor(v, second, e, c);
      }
    }
    NoneLike(ApplyAll(u, Planned(v, second), gs), WishOf(e));
  }

  /** Where no daemon wants a record twice: in every run of reads and calls a daemon that is done stays so, exactly
      when who wants the same record asks the same of it, and who want single-valued records of one name want the
      same. */
  lemma {:induction false} ConvergeIff(wants: seq<seq<Record>>)
    requires EachDistinct(wants)
    ensures AlwaysSettle(wants) <==> Agreed(wants)
  {
    if Agreed(wants) {
      forall worlds: seq<World>, events, k: nat, l: nat, h: nat
        | IsRun(worlds, wants, events) && k <= l < |worlds| && h < |wants| && Over(worlds[k], h)
        ensures Planned(worlds[l].zone, wants[h]) == []
      {
        EveryHostConverges(worlds, wants, events, k, l, h);
      }
    } else if !SameAsked(WantedOf(wants)) {
      FieldsNeeded(wants);
    } else {
      ValuesNeeded(wants);
    }
  }

  lemma FieldsNeeded(wants: seq<seq<Record>>)
    requires EachDistinct(wants) && !SameAsked(WantedOf(wants))
    ensures !AlwaysSettle(wants)
  {
    var wanted := WantedOf(wants);
    var d, e :| d in wanted && e in wanted && WishOf(d) == WishOf(e) && !SameFields(d, e);
    var g: nat :| g < |wants| && d in wants[g];
    var h: nat :| h < |wants| && e in wants[h];
    if g == h {
      OnlyWanted(wants[g], d, e);
    }
    if AsksMore(d, e) {
      FieldsClash(wants, g, h, d, e);
    } else {
      FieldsClash(wants, h, g, e, d);
    }
  }

  lemma ValuesNeeded(wants: seq<seq<Record>>)
    requires EachDistinct(wants) && exists h :: 0 <= h < |wants| && !WantsAll(wants[h], WantedOf(wants))
    ensures !AlwaysSettle(wants)
  {
    var h: nat :| h < |wants| && !WantsAll(wants[h], WantedOf(wants));
    var d, e :| d in wants[h] && e in WantedOf(wants) && KeyOf(d) == KeyOf(e) && SingleValued(d.typ)
                && !Has(wants[h], WishOf(e));
    var g: nat :| g < |wants| && e in wants[g];
    ValuesClash(wants, g, h, d, e);
  }
}
