/** Which daemons sync a zone, and when their syncs agree (pkg/engine/network.go, pkg/config/dns.go). Each daemon syncs
    its own host's records, those that spell the zone alike together. */
module DnsSpellings {
  import opened Text
  import opened DnsSync
  import opened DnsZone
  import opened DnsPlan
  import opened DnsConverge
  import opened DnsWanted
  import opened DnsFleet
  import opened DnsClash
  import DnsHosts

  /** One daemon's sync of the records that give the zone one spelling: a daemon groups its records by it. */
  datatype Sync = Sync(host: string, zone: string)

  function RecordOf(r: DnsHosts.HostRecord): Record {
    Record(r.typ, r.name, r.value, r.ttl, r.priority, 0)
  }

  predicate In(r: DnsHosts.HostRecord, s: Sync) {
    r.host == s.host && r.zone == s.zone
  }

  /** What a sync wants of the zone, of the records placed. */
  function WantsOf(rs: seq<DnsHosts.HostRecord>, s: Sync): seq<Record> {
    if rs == [] then [] else
      var before, r := WantsOf(rs[..|rs| - 1], s), rs[|rs| - 1];
      if In(r, s) then before + [RecordOf(r)] else before
  }

  function AllWants(rs: seq<DnsHosts.HostRecord>, syncs: seq<Sync>): (wants: seq<seq<Record>>)
    ensures |wants| == |syncs| && forall i :: 0 <= i < |syncs| ==> wants[i] == WantsOf(rs, syncs[i])
  {
    if syncs == [] then [] else AllWants(rs, syncs[..|syncs| - 1]) + [WantsOf(rs, syncs[|syncs| - 1])]
  }

  /** Different syncs, all of one zone. */
  predicate SyncsOf(syncs: seq<Sync>, zone: string) {
    && (forall i :: 0 <= i < |syncs| ==> Lower(syncs[i].zone) == zone)
    && forall i, j :: 0 <= i < j < |syncs| ==> syncs[i] != syncs[j]
  }

  /** No host declares a record twice, TTL and priority aside. */
  predicate NoRepeats(rs: seq<DnsHosts.HostRecord>) {
    forall i, j :: 0 <= i < j < |rs| && rs[i].host == rs[j].host && rs[i].zone == rs[j].zone ==>
      WishOf(RecordOf(rs[i])) != WishOf(RecordOf(rs[j]))
  }

  /** Where a host has a type and name in two spellings of a zone: one value is asked for alike, and of addresses and
      aliases every value there is in both. */
  predicate SpellingsAgree(rs: seq<DnsHosts.HostRecord>) {
    forall r, o :: r in rs && o in rs && Respelled(r, o) ==>
      && (WishOf(RecordOf(r)) == WishOf(RecordOf(o)) ==> SameFields(RecordOf(r), RecordOf(o)))
      && (SingleValued(r.typ) ==> AlsoIn(rs, Sync(o.host, o.zone), WishOf(RecordOf(r))))
  }

  predicate Respelled(r: DnsHosts.HostRecord, o: DnsHosts.HostRecord) {
    r.host == o.host && r.zone != o.zone && DnsHosts.KeyOf(r) == DnsHosts.KeyOf(o)
  }

  predicate AlsoIn(rs: seq<DnsHosts.HostRecord>, s: Sync, w: Wish) {
    exists r :: r in rs && In(r, s) && WishOf(RecordOf(r)) == w
  }

  lemma {:induction false} WantsAre(rs: seq<DnsHosts.HostRecord>, s: Sync)
    ensures forall d :: d in WantsOf(rs, s) <==> exists r :: r in rs && In(r, s) && RecordOf(r) == d
  {
    if rs != [] {
      var init, last := rs[..|rs| - 1], rs[|rs| - 1];
      assert rs == init + [last];
      WantsAre(init, s);
      forall d ensures d in WantsOf(rs, s) <==> exists r :: r in rs && In(r, s) && RecordOf(r) == d {
        if d in WantsOf(init, s) {
          var r :| r in init && In(r, s) && RecordOf(r) == d;
          assert r in rs;
        } else if In(last, s) && RecordOf(last) == d {
          assert last in rs;
        }
      }
    }
  }

  lemma {:induction false} WantsDistinct(rs: seq<DnsHosts.HostRecord>, s: Sync)
    requires NoRepeats(rs)
    ensures Distinct(WantsOf(rs, s))
  {
    if rs != [] {
      var init, last := rs[..|rs| - 1], rs[|rs| - 1];
      WantsDistinct(init, s);
      WantsAre(init, s);
      forall w ensures |Like(WantsOf(rs, s), w)| <= 1 {
        LikeSnoc(WantsOf(init, s), RecordOf(last), w);
        if In(last, s) && WishOf(RecordOf(last)) == w {
          NotBefore(rs, s, w);
        }
      }
    }
  }

  lemma NotBefore(rs: seq<DnsHosts.HostRecord>, s: Sync, w: Wish)
    requires rs != [] && NoRepeats(rs) && In(rs[|rs| - 1], s) && WishOf(RecordOf(rs[|rs| - 1])) == w
    ensures Like(WantsOf(rs[..|rs| - 1], s), w) == []
  {
    var init := rs[..|rs| - 1];
    WantsAre(init, s);
    forall d | d in WantsOf(init, s) ensures WishOf(d) != w {
      var r :| r in init && In(r, s) && RecordOf(r) == d;
      var k :| 0 <= k < |init| && init[k] == r;
      assert rs[k] == r;
    }
    NoneLike(WantsOf(init, s), w);
  }

  lemma AllDistinct(rs: seq<DnsHosts.HostRecord>, syncs: seq<Sync>)
    requires NoRepeats(rs)
    ensures EachDistinct(AllWants(rs, syncs))
  {
    forall h | 0 <= h < |syncs| ensures Distinct(AllWants(rs, syncs)[h]) {
      WantsDistinct(rs, syncs[h]);
    }
  }

  /** Two syncs of one zone that want the same type and name are of one host, in two spellings. */
  lemma SameHost(rs: seq<DnsHosts.HostRecord>, r: DnsHosts.HostRecord, o: DnsHosts.HostRecord)
    requires DnsHosts.InAgreement(rs) && r in rs && o in rs && Lower(r.zone) == Lower(o.zone)
    requires KeyOf(RecordOf(r)) == KeyOf(RecordOf(o)) && (r.host != o.host || r.zone != o.zone)
    ensures Respelled(r, o)
  {
    assert !DnsHosts.AtOdds(r, o);
  }

  /** Two wants of one zone's syncs, of the same type and name: one want, or a host's in two spellings. */
  lemma WantsMeet(rs: seq<DnsHosts.HostRecord>, syncs: seq<Sync>, zone: string, g: nat, h: nat, d: Record, e: Record)
      returns (r: DnsHosts.HostRecord, o: DnsHosts.HostRecord)
    requires DnsHosts.InAgreement(rs) && SyncsOf(syncs, zone) && g < |syncs| && h < |syncs| && KeyOf(d) == KeyOf(e)
    requires d in WantsOf(rs, syncs[g]) && e in WantsOf(rs, syncs[h])
    ensures r in rs && In(r, syncs[g]) && RecordOf(r) == d && o in rs && In(o, syncs[h]) && RecordOf(o) == e
    ensures g != h ==> Respelled(r, o)
  {
    WantsAre(rs, syncs[g]);
    WantsAre(rs, syncs[h]);
    r :| r in rs && In(r, syncs[g]) && RecordOf(r) == d;
    o :| o in rs && In(o, syncs[h]) && RecordOf(o) == e;
    if g != h {
      assert syncs[g] != syncs[h];
      SameHost(rs, r, o);
    }
  }

  lemma SyncsAgree(rs: seq<DnsHosts.HostRecord>, syncs: seq<Sync>, zone: string)
    requires DnsHosts.InAgreement(rs) && NoRepeats(rs) && SpellingsAgree(rs) && SyncsOf(syncs, zone)
    ensures Agreed(AllWants(rs, syncs))
  {
    var wants := AllWants(rs, syncs);
    AllDistinct(rs, syncs);
    forall d, e | d in WantedOf(wants) && e in WantedOf(wants) && WishOf(d) == WishOf(e) ensures SameFields(d, e) {
      var g: nat :| g < |wants| && d in wants[g];
      var h: nat :| h < |wants| && e in wants[h];
      var r, o := WantsMeet(rs, syncs, zone, g, h, d, e);
      if g == h {
        OnlyWanted(wants[g], d, e);
      }
    }
    forall h: nat, d, e | h < |wants| && d in wants[h] && e in WantedOf(wants) && KeyOf(d) == KeyOf(e)
      && SingleValued(d.typ)
      ensures Has(wants[h], WishOf(e))
    {
      var g: nat :| g < |wants| && e in wants[g];
      var r, o := WantsMeet(rs, syncs, zone, g, h, e, d);
      if g != h {
        assert Upper(r.typ) == Upper(o.typ) && AlsoIn(rs, Sync(o.host, o.zone), WishOf(e));
        HasIt(rs, syncs[h], WishOf(e));
      }
    }
  }

  lemma HasIt(rs: seq<DnsHosts.HostRecord>, s: Sync, w: Wish)
    ensures AlsoIn(rs, s, w) <==> Has(WantsOf(rs, s), w)
  {
    WantsAre(rs, s);
    if AlsoIn(rs, s, w) {
      var r :| r in rs && In(r, s) && WishOf(RecordOf(r)) == w;
      assert RecordOf(r) in WantsOf(rs, s);
    }
  }

  /** The two syncs of a host that has a type and name in two spellings agree only if those do. */
  lemma SpellingsNeeded(rs: seq<DnsHosts.HostRecord>, r: DnsHosts.HostRecord, o: DnsHosts.HostRecord)
    requires r in rs && o in rs && Respelled(r, o)
    requires Agreed(AllWants(rs, [Sync(r.host, r.zone), Sync(o.host, o.zone)]))
    ensures WishOf(RecordOf(r)) == WishOf(RecordOf(o)) ==> SameFields(RecordOf(r), RecordOf(o))
    ensures SingleValued(r.typ) ==> AlsoIn(rs, Sync(o.host, o.zone), WishOf(RecordOf(r)))
  {
    var syncs := [Sync(r.host, r.zone), Sync(o.host, o.zone)];
    var wants := AllWants(rs, syncs);
    WantsAre(rs, syncs[0]);
    WantsAre(rs, syncs[1]);
    assert RecordOf(r) in wants[0] && RecordOf(o) in wants[1];
    assert RecordOf(r) in WantedOf(wants) && RecordOf(o) in WantedOf(wants);
    assert WantsAll(wants[1], WantedOf(wants)) && Upper(r.typ) == Upper(o.typ);
    HasIt(rs, syncs[1], WishOf(RecordOf(r)));
  }

  /** What a fleet is promised: for every zone and any of its syncs, however the daemons' reads and calls interleave, a
      sync that is done stays so. */
  ghost predicate FleetSettles(rs: seq<DnsHosts.HostRecord>) {
    forall syncs, zone :: SyncsOf(syncs, zone) ==> AlwaysSettle(AllWants(rs, syncs))
  }

  lemma SyncsSettleIff(rs: seq<DnsHosts.HostRecord>, syncs: seq<Sync>)
    requires NoRepeats(rs)
    ensures AlwaysSettle(AllWants(rs, syncs)) <==> Agreed(AllWants(rs, syncs))
  {
    AllDistinct(rs, syncs);
    ConvergeIff(AllWants(rs, syncs));
  }

  lemma AgreeIfSettles(rs: seq<DnsHosts.HostRecord>, r: DnsHosts.HostRecord, o: DnsHosts.HostRecord)
    requires NoRepeats(rs) && FleetSettles(rs) && r in rs && o in rs && Respelled(r, o)
    ensures WishOf(RecordOf(r)) == WishOf(RecordOf(o)) ==> SameFields(RecordOf(r), RecordOf(o))
    ensures SingleValued(r.typ) ==> AlsoIn(rs, Sync(o.host, o.zone), WishOf(RecordOf(r)))
  {
    var syncs := [Sync(r.host, r.zone), Sync(o.host, o.zone)];
    assert SyncsOf(syncs, Lower(r.zone));
    SyncsSettleIff(rs, syncs);
    SpellingsNeeded(rs, r, o);
  }

  /** It is kept, where the records are accepted and no host repeats one, exactly when a host's spellings agree. */
  lemma {:induction false} FleetConvergesIff(f: DnsHosts.Fleet, services: seq<DnsHosts.Service>,
                                             rs: seq<DnsHosts.HostRecord>)
    requires DnsHosts.Answers(f, services, rs) && NoRepeats(rs)
    ensures FleetSettles(rs) <==> SpellingsAgree(rs)
  {
    AgreementOfAll(rs, DnsHosts.Reserved(f));
    if SpellingsAgree(rs) {
      forall syncs, zone | SyncsOf(syncs, zone) ensures AlwaysSettle(AllWants(rs, syncs)) {
        SyncsAgree(rs, syncs, zone);
        SyncsSettleIff(rs, syncs);
      }
    }
    if FleetSettles(rs) {
      forall r, o | r in rs && o in rs && Respelled(r, o)
        ensures WishOf(RecordOf(r)) == WishOf(RecordOf(o)) ==> SameFields(RecordOf(r), RecordOf(o))
        ensures SingleValued(r.typ) ==> AlsoIn(rs, Sync(o.host, o.zone), WishOf(RecordOf(r)))
      {
        AgreeIfSettles(rs, r, o);
      }
    }
  }

  lemma AgreementOfAll(rs: seq<DnsHosts.HostRecord>, more: seq<DnsHosts.HostRecord>)
    requires DnsHosts.InAgreement(rs + more)
    ensures DnsHosts.InAgreement(rs)
  {
    assert forall r :: r in rs ==> r in rs + more;
  }

  /** No host wants a CNAME of a name another host has a record of (section 3.6.2 of RFC 1034). */
  lemma CnameStandsAlone(rs: seq<DnsHosts.HostRecord>, s: Sync, t: Sync, d: Record, e: Record)
    requires DnsHosts.InAgreement(rs) && s.host != t.host && Lower(s.zone) == Lower(t.zone)
    requires d in WantsOf(rs, s) && e in WantsOf(rs, t) && Lower(d.name) == Lower(e.name)
    ensures Upper(d.typ) != "CNAME" && Upper(e.typ) != "CNAME"
  {
    WantsAre(rs, s);
    WantsAre(rs, t);
    var r :| r in rs && In(r, s) && RecordOf(r) == d;
    var o :| o in rs && In(o, t) && RecordOf(o) == e;
    assert !DnsHosts.AtOdds(r, o);
  }

  // -------------------------------------------------------- two spellings of a zone

  function Www(zone: string, value: string): DnsHosts.HostRecord {
    DnsHosts.HostRecord("A", "www", value, 0, 0, zone, "h")
  }

  function WwwEntry(zone: string, value: string): DnsHosts.Entry {
    DnsHosts.Entry("A", "www", zone, value, 0, 0, "")
  }

  function SpelledTwice(): DnsHosts.Fleet {
    DnsHosts.Fleet("", "h", {"h"}, map[], [WwwEntry("Example", "1"), WwwEntry("example", "2")])
  }

  function WwwIn(value: string, id: nat): seq<Record> {
    [Record("A", "www", value, 0, 0, id)]
  }

  lemma PlansOneKey(ex: seq<Record>, ds: seq<Record>)
    requires |ex| == |ds| == 1 && KeyOf(ex[0]) == KeyOf(ds[0])
    ensures Planned(ex, ds) == PlanKey(ex, ds)
  {
    var k := KeyOf(ds[0]);
    assert ex[..0] == [] && ds[..0] == [];
    assert Having(ex, k) == ex && Having(ds, k) == ds && KeysOf(ds) == [k];
    assert [k][..0] == [] && PlanKeys(ex, ds, []) == [] && PlanKeys(ex, ds, [k]) == [] + PlanKey(ex, ds);
  }

  lemma PlansOneUpdate(have: string, want: string, id: nat)
    requires have != want
    ensures PlanKey(WwwIn(have, id), WwwIn(want, 0)) == [Change(WwwIn(want, id)[0], true)]
  {
    var ex, ds := WwwIn(have, id), WwwIn(want, 0);
    UpperA();
    assert ds[..0] == [] && MatchAll(ex, []) == Matching({}, [], []);
    assert !SameValue(ex[0], ds[0]) && FirstFree(ex, {}, ds[0]) == 1;
    assert MatchAll(ex, ds) == Matching({}, [ds[0]], []);
    assert Spare(ex, {}, 1) == ex;
  }

  lemma OneOverwrites(have: string, want: string, id: nat, n: New)
    requires have != want
    ensures Overwrites(WwwIn(want, 0), WwwIn(have, id), WwwIn(want, id), n)
  {
    var c := Change(WwwIn(want, id)[0], true);
    PlansOneKey(WwwIn(have, id), WwwIn(want, 0));
    PlansOneUpdate(have, want, id);
    assert [c][..0] == [] && [n][..0] == [] && WwwIn(have, id)[..0] == [];
    assert UpdateIn(WwwIn(have, id), c.record) == WwwIn(want, id);
  }

  lemma Spelled()
    ensures Trim("Example") == "Example" && Trim("example") == "example" && Trim("") == ""
  {
    TrimProperties("Example");
    TrimProperties("example");
  }

  lemma SpelledTwicePlaced()
    ensures DnsHosts.Placed(SpelledTwice(), []) == DnsHosts.Ok([Www("Example", "1"), Www("example", "2")])
  {
    var f := SpelledTwice();
    var es := f.records;
    Spelled();
    assert DnsHosts.EntryRecord(f, map[], es[0]) == DnsHosts.Ok(Www("Example", "1"));
    assert DnsHosts.EntryRecord(f, map[], es[1]) == DnsHosts.Ok(Www("example", "2"));
    assert es[..0] == [] && es[..2] == es;
    DnsHosts.EntryStep(f, map[], es, 0);
    DnsHosts.EntryStep(f, map[], es, 1);
    assert DnsHosts.EntryRecords(f, map[], es).Ok?;
    assert DnsHosts.EntryRecords(f, map[], es).value == [Www("Example", "1"), Www("example", "2")];
    PlacedAlone(f);
  }

  lemma PlacedAlone(f: DnsHosts.Fleet)
    requires f.hosts == {"h"}
    ensures DnsHosts.Placed(f, []) == DnsHosts.EntryRecords(f, map[], f.records)
  {
    assert DnsHosts.ByName([]) == map[] && |f.hosts| == 1;
  }

  lemma SpelledTwiceAnswered()
    ensures DnsHosts.Answers(SpelledTwice(), [], [Www("Example", "1"), Www("example", "2")])
  {
    SpelledTwicePlaced();
    Spelled();
    var rs := [Www("Example", "1"), Www("example", "2")];
    assert DnsHosts.Reserved(SpelledTwice()) == [] && rs + [] == rs;
    assert forall r :: r in rs ==> r.host == "h";
  }

  lemma SpelledTwiceWants(rs: seq<DnsHosts.HostRecord>)
    requires rs == [Www("Example", "1"), Www("example", "2")]
    ensures WantsOf(rs, Sync("h", "Example")) == WwwIn("1", 0) && WantsOf(rs, Sync("h", "example")) == WwwIn("2", 0)
  {
    assert "Example"[0] != "example"[0];
    assert rs[..1][..0] == [] && rs[..1] == [rs[0]];
    assert WantsOf(rs[..1], Sync("h", "Example")) == [] + WwwIn("1", 0) && WantsOf(rs[..1], Sync("h", "example")) == [];
  }

  lemma WwwWish(zone: string, value: string)
    ensures WishOf(RecordOf(Www(zone, value))) == Wish(Key("A", Lower("www")), value) && SingleValued("A")
  {
    UpperA();
  }

  lemma SpelledAlike()
    ensures Lower("Example") == Lower("example") && "Example" != "example"
  {
    assert "Example"[0] != "example"[0] && "Example"[1..] == "example"[1..];
    assert Lower("Example") == ['e'] + Lower("Example"[1..]) == Lower("example");
  }

  lemma SpelledTwiceDisagrees(rs: seq<DnsHosts.HostRecord>)
    requires rs == [Www("Example", "1"), Www("example", "2")]
    ensures NoRepeats(rs) && !SpellingsAgree(rs)
  {
    SpelledAlike();
    WwwWish("Example", "1");
    WwwWish("example", "2");
    assert rs[0] in rs && rs[1] in rs && Respelled(rs[0], rs[1]);
    assert "1"[0] != "2"[0];
    assert !AlsoIn(rs, Sync("h", "example"), WishOf(RecordOf(rs[0])));
  }

  /** One host with one name in two spellings of a zone: its records are accepted, and each of its two syncs, done in
      full, undoes the other, again and again. */
  lemma SpellingsFight(rs: seq<DnsHosts.HostRecord>, id: nat, n: New)
    requires rs == [Www("Example", "1"), Www("example", "2")]
    ensures DnsHosts.Answers(SpelledTwice(), [], rs) && NoRepeats(rs) && !SpellingsAgree(rs)
    ensures Overwrites(WantsOf(rs, Sync("h", "example")), WwwIn("1", id), WwwIn("2", id), n)
    ensures Overwrites(WantsOf(rs, Sync("h", "Example")), WwwIn("2", id), WwwIn("1", id), n)
  {
    SpelledTwiceAnswered();
    SpelledTwiceWants(rs);
    SpelledTwiceDisagrees(rs);
    OneOverwrites("1", "2", id, n);
    OneOverwrites("2", "1", id, n);
  }

  /** The plan is one call, which makes the zone another. */
  predicate Overwrites(want: seq<Record>, before: seq<Record>, after: seq<Record>, n: New) {
    |Planned(before, want)| == 1 && ApplyAll(before, Planned(before, want), [n]) == after != before
  }
}
