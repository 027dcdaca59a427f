/** A DNS zone under the provider's calls (pkg/provider/provider.go, pkg/provider/digitalocean), and its records wish by
    wish. */
module DnsZone {
  import opened DnsSync

  // ------------------------------------------------------------------ the calls

  /** What the provider calls a new record, and gives it where nothing is asked. */
  datatype New = New(id: nat, ttl: int, priority: int)

  /** Updating a record sets its value, and its TTL and priority where they are asked for. */
  function Updated(e: Record, r: Record): Record {
    e.(value := r.value, ttl := if r.ttl > 0 then r.ttl else e.ttl,
       priority := if r.priority > 0 then r.priority else e.priority)
  }

  function UpdateIn(v: seq<Record>, r: Record): (u: seq<Record>)
    ensures |u| == |v| && forall i :: 0 <= i < |v| ==> u[i] == if v[i].id == r.id then Updated(v[i], r) else v[i]
  {
    if v == [] then [] else
      var e := v[|v| - 1];
      UpdateIn(v[..|v| - 1], r) + [if e.id == r.id then Updated(e, r) else e]
  }

  function CreatedAs(r: Record, n: New): Record {
    Record(r.typ, r.name, r.value, if r.ttl > 0 then r.ttl else n.ttl,
           if r.priority > 0 then r.priority else n.priority, n.id)
  }

  /** One call of the provider. */
  function Apply(v: seq<Record>, c: Change, n: New): seq<Record> {
    if c.update then UpdateIn(v, c.record) else v + [CreatedAs(c.record, n)]
  }

  /** The zone after the calls of a plan. */
  function ApplyAll(v: seq<Record>, cs: seq<Change>, news: seq<New>): seq<Record>
    requires |news| == |cs|
  {
    if cs == [] then v
    else Apply(ApplyAll(v, cs[..|cs| - 1], news[..|cs| - 1]), cs[|cs| - 1], news[|cs| - 1])
  }

  predicate HasId(v: seq<Record>, id: nat) {
    exists i :: 0 <= i < |v| && v[i].id == id
  }

  predicate UniqueIds(v: seq<Record>) {
    forall i, j :: 0 <= i < j < |v| ==> v[i].id != v[j].id
  }

  /** New names: none that is there, none twice. */
  predicate NewIds(v: seq<Record>, news: seq<New>) {
    && (forall i :: 0 <= i < |news| ==> !HasId(v, news[i].id))
    && forall i, j :: 0 <= i < j < |news| ==> news[i].id != news[j].id
  }

  // ------------------------------------------------- what a list of calls comes to

  /** What the changes aimed at a record make of it. */
  function Patch(e: Record, cs: seq<Change>): (p: Record)
    ensures p.id == e.id && p.typ == e.typ && p.name == e.name
  {
    if cs == [] then e else
      var p, c := Patch(e, cs[..|cs| - 1]), cs[|cs| - 1];
      if c.update && c.record.id == e.id then Updated(p, c.record) else p
  }

  predicate AimedAt(c: Change, e: Record) {
    c.update && c.record.id == e.id
  }

  lemma PatchSnoc(e: Record, cs: seq<Change>, c: Change)
    ensures Patch(e, cs + [c]) == if AimedAt(c, e) then Updated(Patch(e, cs), c.record) else Patch(e, cs)
  {
    assert (cs + [c])[..|cs|] == cs;
  }

  function Patched(v: seq<Record>, cs: seq<Change>): (u: seq<Record>)
    ensures |u| == |v| && forall i :: 0 <= i < |v| ==> u[i] == Patch(v[i], cs)
  {
    if v == [] then [] else Patched(v[..|v| - 1], cs) + [Patch(v[|v| - 1], cs)]
  }

  /** The new records. */
  function Made(cs: seq<Change>, news: seq<New>): seq<Record>
    requires |news| == |cs|
  {
    if cs == [] then [] else
      var before, c := Made(cs[..|cs| - 1], news[..|cs| - 1]), cs[|cs| - 1];
      if c.update then before else before + [CreatedAs(c.record, news[|cs| - 1])]
  }

  lemma {:induction false} MadeMembers(cs: seq<Change>, news: seq<New>)
    requires |news| == |cs|
    ensures forall r :: r in Made(cs, news) ==>
      exists i :: 0 <= i < |cs| && r == CreatedAs(cs[i].record, news[i])
  {
    if cs != [] {
      var n := |cs| - 1;
      MadeMembers(cs[..n], news[..n]);
      forall r | r in Made(cs, news) ensures exists i :: 0 <= i < |cs| && r == CreatedAs(cs[i].record, news[i]) {
        if r in Made(cs[..n], news[..n]) {
          var i :| 0 <= i < n && r == CreatedAs(cs[..n][i].record, news[..n][i]);
          assert r == CreatedAs(cs[i].record, news[i]);
        } else {
          assert r == CreatedAs(cs[n].record, news[n]);
        }
      }
    }
  }

  predicate Aimed(v: seq<Record>, cs: seq<Change>) {
    forall c :: c in cs && c.update ==> HasId(v, c.record.id)
  }

  lemma UpdateInConcat(a: seq<Record>, b: seq<Record>, r: Record)
    ensures UpdateIn(a + b, r) == UpdateIn(a, r) + UpdateIn(b, r)
  {
  }

  /** An update of what was there is of no record made since. */
  lemma MadeApart(v: seq<Record>, cs: seq<Change>, news: seq<New>, n: nat)
    requires n < |cs| == |news| && NewIds(v, news) && Aimed(v, cs) && cs[n].update
    ensures forall r :: r in Made(cs[..n], news[..n]) ==> r.id != cs[n].record.id
  {
    MadeMembers(cs[..n], news[..n]);
    assert cs[n] in cs;
    forall r | r in Made(cs[..n], news[..n]) ensures r.id != cs[n].record.id {
      var i :| 0 <= i < n && r == CreatedAs(cs[..n][i].record, news[..n][i]);
      assert !HasId(v, news[i].id);
    }
  }

  lemma UpdatePatched(v: seq<Record>, cs: seq<Change>, c: Change)
    ensures Patched(v, cs + [c]) == if c.update then UpdateIn(Patched(v, cs), c.record) else Patched(v, cs)
  {
    forall i | 0 <= i < |v|
      ensures Patch(v[i], cs + [c]) == if AimedAt(c, v[i]) then Updated(Patch(v[i], cs), c.record) else Patch(v[i], cs)
    {
      PatchSnoc(v[i], cs, c);
    }
  }

  lemma UpdateApart(rs: seq<Record>, r: Record)
    requires forall e :: e in rs ==> e.id != r.id
    ensures UpdateIn(rs, r) == rs
  {
  }

  lemma ApplyOne(v: seq<Record>, cs: seq<Change>, c: Change, made: seq<Record>, n: New)
    requires c.update ==> forall r :: r in made ==> r.id != c.record.id
    ensures Apply(Patched(v, cs) + made, c, n)
         == Patched(v, cs + [c]) + if c.update then made else made + [CreatedAs(c.record, n)]
  {
    UpdatePatched(v, cs, c);
    if c.update {
      UpdateInConcat(Patched(v, cs), made, c.record);
      UpdateApart(made, c.record);
    }
  }

  /** The zone after calls that update what is there: its records patched, then the new ones. */
  lemma {:induction false} ApplyAllIs(v: seq<Record>, cs: seq<Change>, news: seq<New>)
    requires |news| == |cs| && NewIds(v, news) && Aimed(v, cs)
    ensures ApplyAll(v, cs, news) == Patched(v, cs) + Made(cs, news)
  {
    if cs == [] {
      assert Patched(v, cs) == v;
    } else {
      var n := |cs| - 1;
      assert cs == cs[..n] + [cs[n]];
      ApplyAllIs(v, cs[..n], news[..n]);
      if cs[n].update {
        MadeApart(v, cs, news, n);
      }
      ApplyOne(v, cs[..n], cs[n], Made(cs[..n], news[..n]), news[n]);
    }
  }

  lemma {:induction false} PatchConcat(e: Record, a: seq<Change>, b: seq<Change>)
    ensures Patch(e, a + b) == Patch(Patch(e, a), b)
  {
    if b == [] {
      assert a + b == a;
    } else {
      assert (a + b)[..|a + b| - 1] == a + b[..|b| - 1];
      PatchConcat(e, a, b[..|b| - 1]);
    }
  }

  lemma {:induction false} PatchOther(e: Record, cs: seq<Change>)
    requires forall c :: c in cs ==> !AimedAt(c, e)
    ensures Patch(e, cs) == e
  {
    if cs != [] {
      assert cs == cs[..|cs| - 1] + [cs[|cs| - 1]] && cs[|cs| - 1] in cs;
      PatchOther(e, cs[..|cs| - 1]);
    }
  }

  /** The records asked for by the changes that create. */
  function Created(cs: seq<Change>): seq<Record> {
    if cs == [] then [] else
      var before, c := Created(cs[..|cs| - 1]), cs[|cs| - 1];
      if c.update then before else before + [c.record]
  }

  lemma {:induction false} CreatedConcat(a: seq<Change>, b: seq<Change>)
    ensures Created(a + b) == Created(a) + Created(b)
  {
    if b == [] {
      assert a + b == a;
    } else {
      assert (a + b)[..|a + b| - 1] == a + b[..|b| - 1];
      CreatedConcat(a, b[..|b| - 1]);
    }
  }

  lemma {:induction false} CreatedMembers(cs: seq<Change>)
    ensures forall r :: r in Created(cs) ==> Change(r, false) in cs
  {
    if cs != [] {
      assert cs == cs[..|cs| - 1] + [cs[|cs| - 1]];
      CreatedMembers(cs[..|cs| - 1]);
    }
  }

  // -------------------------------------------------------- records of one wish

  /** The records of a wish, in order. */
  function Like(rs: seq<Record>, w: Wish): seq<Record> {
    if rs == [] then [] else
      var before, r := Like(rs[..|rs| - 1], w), rs[|rs| - 1];
      if WishOf(r) == w then before + [r] else before
  }

  lemma {:induction false} LikeConcat(a: seq<Record>, b: seq<Record>, w: Wish)
    ensures Like(a + b, w) == Like(a, w) + Like(b, w)
  {
    if b == [] {
      assert a + b == a;
    } else {
      assert (a + b)[..|a + b| - 1] == a + b[..|b| - 1];
      LikeConcat(a, b[..|b| - 1], w);
    }
  }

  lemma {:induction false} LikeMembers(rs: seq<Record>, w: Wish)
    ensures forall e :: e in Like(rs, w) <==> e in rs && WishOf(e) == w
  {
    if rs != [] {
      assert rs == rs[..|rs| - 1] + [rs[|rs| - 1]];
      LikeMembers(rs[..|rs| - 1], w);
    }
  }

  lemma {:induction false} LikeHaving(rs: seq<Record>, k: Key, w: Wish)
    ensures Like(Having(rs, k), w) == if w.key == k then Like(rs, w) else []
  {
    if rs != [] {
      var init, r := rs[..|rs| - 1], rs[|rs| - 1];
      LikeHaving(init, k, w);
      LikeConcat(Having(init, k), [r], w);
      assert [r][..0] == [];
    }
  }

  lemma LikeSnoc(init: seq<Record>, d: Record, w: Wish)
    ensures Like(init + [d], w) == Like(init, w) + if WishOf(d) == w then [d] else []
  {
    assert (init + [d])[..|init|] == init;
  }

  lemma LikeNext(rs: seq<Record>, i: nat, w: Wish)
    requires i < |rs|
    ensures Like(rs[..i + 1], w) == Like(rs[..i], w) + if WishOf(rs[i]) == w then [rs[i]] else []
  {
    assert rs[..i + 1][..i] == rs[..i];
  }

  lemma LikePrefix(rs: seq<Record>, i: nat, w: Wish)
    requires i <= |rs|
    ensures |Like(rs[..i], w)| <= |Like(rs, w)| && Like(rs, w)[..|Like(rs[..i], w)|] == Like(rs[..i], w)
  {
    assert rs == rs[..i] + rs[i..];
    LikeConcat(rs[..i], rs[i..], w);
  }

  /** Where a record stands among those of its wish. */
  lemma LikeAt(rs: seq<Record>, i: nat)
    requires i < |rs|
    ensures var w := WishOf(rs[i]); var n := |Like(rs[..i], w)|; n < |Like(rs, w)| && Like(rs, w)[n] == rs[i]
  {
    var w := WishOf(rs[i]);
    LikeNext(rs, i, w);
    LikePrefix(rs, i + 1, w);
    assert Like(rs, w)[..|Like(rs[..i + 1], w)|][|Like(rs[..i], w)|] == rs[i];
  }

  lemma {:induction false} LikePlace(rs: seq<Record>, w: Wish, n: nat) returns (i: nat)
    requires n < |Like(rs, w)|
    ensures i < |rs| && WishOf(rs[i]) == w && Like(rs, w)[n] == rs[i] && |Like(rs[..i], w)| == n
  {
    var init := rs[..|rs| - 1];
    if n < |Like(init, w)| {
      i := LikePlace(init, w, n);
      assert init[..i] == rs[..i];
    } else {
      i := |rs| - 1;
    }
  }

  /** Different places hold different records. */
  lemma LikeApart(rs: seq<Record>, u: Wish, m: nat, w: Wish, n: nat)
    requires UniqueIds(rs) && m < |Like(rs, u)| && n < |Like(rs, w)|
    ensures Like(rs, u)[m].id == Like(rs, w)[n].id <==> u == w && m == n
  {
    var i := LikePlace(rs, u, m);
    var j := LikePlace(rs, w, n);
  }

  lemma RankBelow(rs: seq<Record>, i: nat, j: nat, w: Wish)
    requires i < j <= |rs| && WishOf(rs[i]) == w
    ensures |Like(rs[..i], w)| < |Like(rs[..j], w)|
  {
    LikeNext(rs, i, w);
    LikePrefix(rs[..j], i + 1, w);
    assert rs[..j][..i + 1] == rs[..i + 1];
  }

  predicate OfKey(rs: seq<Record>, k: Key) {
    forall r :: r in rs ==> KeyOf(r) == k
  }

  lemma SameValueIsSameWish(e: Record, d: Record)
    requires KeyOf(e) == KeyOf(d)
    ensures SameValue(e, d) <==> WishOf(e) == WishOf(d)
  {
  }

  lemma UpdatedWish(e: Record, r: Record)
    requires KeyOf(e) == KeyOf(r)
    ensures WishOf(Updated(e, r)) == WishOf(r) && KeyOf(Updated(e, r)) == KeyOf(e)
  {
  }

  // ------------------------------------------------------ wishes after the calls

  /** Each desired record has its partner, with the fields it asks for. */
  predicate Fits(es: seq<Record>, ds: seq<Record>) {
    |ds| <= |es| && forall j :: 0 <= j < |ds| ==> FieldsOk(es[j], ds[j])
  }

  /** Of each wish as many are made as asked for, in order, with the fields asked for. */
  lemma {:induction false} MadeFits(cs: seq<Change>, news: seq<New>, w: Wish)
    requires |news| == |cs|
    ensures |Like(Made(cs, news), w)| == |Like(Created(cs), w)| && Fits(Like(Made(cs, news), w), Like(Created(cs), w))
  {
    if cs != [] {
      var n := |cs| - 1;
      MadeFits(cs[..n], news[..n], w);
      if !cs[n].update {
        LikeSnoc(Made(cs[..n], news[..n]), CreatedAs(cs[n].record, news[n]), w);
        LikeSnoc(Created(cs[..n]), cs[n].record, w);
      }
    }
  }

  /** Changes that give no other record that wish, and take it from none, leave the wish's records where they are. */
  lemma {:induction false} LikePatched(v: seq<Record>, cs: seq<Change>, w: Wish)
    requires forall e :: e in v ==> (WishOf(Patch(e, cs)) == w <==> WishOf(e) == w)
    ensures Like(Patched(v, cs), w) == Patched(Like(v, w), cs)
  {
    if v != [] {
      var init, e := v[..|v| - 1], v[|v| - 1];
      assert v == init + [e];
      LikePatched(init, cs, w);
      LikeSnoc(Patched(init, cs), Patch(e, cs), w);
    }
  }
}
