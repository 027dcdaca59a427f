/** What a DNS plan consists of (pkg/provider/dnssync.go): for each wish (type, name and value) it pairs the records
    that are there with those desired, in order, the j-th of one with the j-th of the other (MatchAllIs). So it is
    empty exactly when every wish's pairs fit (NothingPlannedIff). */
module DnsMatch {
  import opened DnsSync
  import opened DnsZone

  // ------------------------------------------------------------- how a group matches

  /** The ith record stands, among those of its wish, before as many as are desired. */
  predicate Wanted(ex: seq<Record>, ds: seq<Record>, i: nat)
    requires i < |ex|
  {
    |Like(ex[..i], WishOf(ex[i]))| < |Like(ds, WishOf(ex[i]))|
  }

  ghost predicate UsedAre(ex: seq<Record>, ds: seq<Record>, used: set<nat>) {
    forall i: nat :: i in used <==> i < |ex| && Wanted(ex, ds, i)
  }

  /** The desired records beyond those there. */
  function Lacking(ex: seq<Record>, ds: seq<Record>): seq<Record> {
    if ds == [] then [] else
      var init, d := ds[..|ds| - 1], ds[|ds| - 1];
      if |Like(init, WishOf(d))| < |Like(ex, WishOf(d))| then Lacking(ex, init) else Lacking(ex, init) + [d]
  }

  /** The record d is paired with, where the desired records before it are init. */
  predicate Paired(ex: seq<Record>, init: seq<Record>, d: Record) {
    |Like(init, WishOf(d))| < |Like(ex, WishOf(d))|
  }

  function Partner(ex: seq<Record>, init: seq<Record>, d: Record): Record
    requires Paired(ex, init, d)
  {
    Like(ex, WishOf(d))[|Like(init, WishOf(d))|]
  }

  /** The updates of records whose fields are not as asked. */
  function Fixes(ex: seq<Record>, ds: seq<Record>): seq<Change> {
    if ds == [] then [] else
      var init, d := ds[..|ds| - 1], ds[|ds| - 1];
      if Paired(ex, init, d) && !FieldsOk(Partner(ex, init, d), d)
      then Fixes(ex, init) + [Change(d.(id := Partner(ex, init, d).id), true)] else Fixes(ex, init)
  }

  lemma {:induction false} RankUpTo(ex: seq<Record>, init: seq<Record>, used: set<nat>, w: Wish, i: nat)
    requires UsedAre(ex, init, used) && i <= |ex| && forall j :: 0 <= j < i && WishOf(ex[j]) == w ==> j in used
    ensures |Like(ex[..i], w)| <= |Like(init, w)|
  {
    if i > 0 {
      RankUpTo(ex, init, used, w, i - 1);
      LikeNext(ex, i - 1, w);
    }
  }

  /** The first free record of d's value is the one d is paired with. */
  lemma FreeIsPartner(ex: seq<Record>, init: seq<Record>, used: set<nat>, d: Record, hit: nat)
    requires OfKey(ex, KeyOf(d)) && UsedAre(ex, init, used) && hit == FirstFree(ex, used, d)
    ensures Paired(ex, init, d) <==> hit < |ex|
    ensures hit < |ex| ==> ex[hit] == Partner(ex, init, d) && WishOf(ex[hit]) == WishOf(d)
    ensures hit < |ex| ==> |Like(ex[..hit], WishOf(d))| == |Like(init, WishOf(d))|
  {
    forall j | 0 <= j < |ex| ensures SameValue(ex[j], d) <==> WishOf(ex[j]) == WishOf(d) {
      SameValueIsSameWish(ex[j], d);
    }
    RankUpTo(ex, init, used, WishOf(d), hit);
    if hit < |ex| {
      FreeStands(ex, init, used, hit);
    } else {
      assert ex[..hit] == ex;
    }
  }

  lemma FreeStands(ex: seq<Record>, init: seq<Record>, used: set<nat>, hit: nat)
    requires UsedAre(ex, init, used) && hit < |ex| && hit !in used
    requires |Like(ex[..hit], WishOf(ex[hit]))| <= |Like(init, WishOf(ex[hit]))|
    ensures |Like(ex[..hit], WishOf(ex[hit]))| == |Like(init, WishOf(ex[hit]))| < |Like(ex, WishOf(ex[hit]))|
    ensures Like(ex, WishOf(ex[hit]))[|Like(init, WishOf(ex[hit]))|] == ex[hit]
  {
    assert !Wanted(ex, init, hit);
    LikeAt(ex, hit);
  }

  lemma UsedMore(ex: seq<Record>, init: seq<Record>, used: set<nat>, d: Record, hit: nat)
    requires UsedAre(ex, init, used)
    requires hit < |ex| && WishOf(ex[hit]) == WishOf(d) && |Like(ex[..hit], WishOf(d))| == |Like(init, WishOf(d))|
    ensures UsedAre(ex, init + [d], used + {hit})
  {
    forall i: nat | i < |ex| ensures i in used + {hit} <==> Wanted(ex, init + [d], i) {
      OneMoreWanted(ex, init, d, hit, i);
    }
  }

  lemma OneMoreWanted(ex: seq<Record>, init: seq<Record>, d: Record, hit: nat, i: nat)
    requires hit < |ex| && WishOf(ex[hit]) == WishOf(d) && |Like(ex[..hit], WishOf(d))| == |Like(init, WishOf(d))|
    requires i < |ex|
    ensures Wanted(ex, init + [d], i) <==> i == hit || Wanted(ex, init, i)
  {
    LikeSnoc(init, d, WishOf(ex[i]));
    if WishOf(ex[i]) == WishOf(d) && i < hit {
      RankBelow(ex, i, hit, WishOf(d));
    } else if WishOf(ex[i]) == WishOf(d) && hit < i {
      RankBelow(ex, hit, i, WishOf(d));
    }
  }

  lemma UsedNoMore(ex: seq<Record>, init: seq<Record>, used: set<nat>, d: Record)
    requires UsedAre(ex, init, used) && !Paired(ex, init, d)
    ensures UsedAre(ex, init + [d], used)
  {
    forall i: nat | i < |ex| ensures Wanted(ex, init, i) <==> Wanted(ex, init + [d], i) {
      LikeSnoc(init, d, WishOf(ex[i]));
      LikeAt(ex, i);
    }
  }

  /** What the loop over the desired records leaves: which are used, which are missing, which are updated. */
  lemma {:induction false} MatchAllIs(ex: seq<Record>, ds: seq<Record>, k: Key)
    requires OfKey(ex, k) && OfKey(ds, k)
    ensures UsedAre(ex, ds, MatchAll(ex, ds).used)
    ensures MatchAll(ex, ds).missing == Lacking(ex, ds) && MatchAll(ex, ds).changes == Fixes(ex, ds)
  {
    if ds != [] {
      var init, d := ds[..|ds| - 1], ds[|ds| - 1];
      assert ds == init + [d];
      MatchAllIs(ex, init, k);
      var used := MatchAll(ex, init).used;
      FreeIsPartner(ex, init, used, d, FirstFree(ex, used, d));
      if Paired(ex, init, d) {
        UsedMore(ex, init, used, d, FirstFree(ex, used, d));
      } else {
        UsedNoMore(ex, init, used, d);
      }
    }
  }

  // ------------------------------------------------------------- what is not used

  lemma {:induction false} SpareNone(ex: seq<Record>, used: set<nat>, n: nat)
    requires n <= |ex|
    ensures Spare(ex, used, n) == [] <==> forall i :: 0 <= i < n ==> i in used
  {
    if n > 0 {
      SpareNone(ex, used, n - 1);
    }
  }

  lemma {:induction false} SpareOne(ex: seq<Record>, used: set<nat>, n: nat) returns (i: nat)
    requires n <= |ex| && |Spare(ex, used, n)| == 1
    ensures i < n && i !in used && (forall j :: 0 <= j < n && j !in used ==> j == i) && Spare(ex, used, n) == [ex[i]]
  {
    if n - 1 in used {
      i := SpareOne(ex, used, n - 1);
    } else {
      SpareNone(ex, used, n - 1);
      i := n - 1;
    }
  }

  lemma {:induction false} SpareIs(ex: seq<Record>, used: set<nat>, n: nat, i: nat)
    requires i < n <= |ex| && i !in used && forall j :: 0 <= j < n && j !in used ==> j == i
    ensures Spare(ex, used, n) == [ex[i]]
  {
    if n - 1 == i {
      SpareNone(ex, used, n - 1);
    } else {
      SpareIs(ex, used, n - 1, i);
    }
  }

  // ----------------------------------------------------------------- an empty plan

  /** Every wish is met. */
  ghost predicate Satisfied(v: seq<Record>, ds: seq<Record>) {
    forall w :: Fits(Like(v, w), Like(ds, w))
  }

  lemma SatisfiedSnoc(ex: seq<Record>, init: seq<Record>, d: Record)
    ensures Satisfied(ex, init + [d]) <==>
      Satisfied(ex, init) && Paired(ex, init, d) && FieldsOk(Partner(ex, init, d), d)
  {
    forall w ensures Like(init + [d], w) == Like(init, w) + if WishOf(d) == w then [d] else [] {
      LikeConcat(init, [d], w);
      assert [d][..0] == [];
    }
    var all := Like(init + [d], WishOf(d));
    if Satisfied(ex, init + [d]) {
      assert Fits(Like(ex, WishOf(d)), all) && all[|all| - 1] == d;
      forall w ensures Fits(Like(ex, w), Like(init, w)) {
        assert Fits(Like(ex, w), Like(init + [d], w));
        assert forall j :: 0 <= j < |Like(init, w)| ==> Like(init + [d], w)[j] == Like(init, w)[j];
      }
    }
    if Satisfied(ex, init) && Paired(ex, init, d) && FieldsOk(Partner(ex, init, d), d) {
      forall w ensures Fits(Like(ex, w), Like(init + [d], w)) {
        assert Fits(Like(ex, w), Like(init, w));
      }
    }
  }

  lemma {:induction false} NothingToFix(ex: seq<Record>, ds: seq<Record>)
    ensures Fixes(ex, ds) == [] && Lacking(ex, ds) == [] <==> Satisfied(ex, ds)
  {
    if ds != [] {
      var init, d := ds[..|ds| - 1], ds[|ds| - 1];
      assert ds == init + [d];
      NothingToFix(ex, init);
      SatisfiedSnoc(ex, init, d);
    }
  }

  lemma {:induction false} CreatesAll(missing: seq<Record>)
    ensures |Creates(missing)| == |missing|
    ensures forall i :: 0 <= i < |missing| ==> Creates(missing)[i] == Change(missing[i], false)
  {
    if missing != [] {
      CreatesAll(missing[..|missing| - 1]);
    }
  }

  lemma GroupEmptyIff(ex: seq<Record>, ds: seq<Record>, k: Key)
    requires OfKey(ex, k) && OfKey(ds, k)
    ensures PlanKey(ex, ds) == [] <==> Satisfied(ex, ds)
  {
    MatchAllIs(ex, ds, k);
    CreatesAll(Lacking(ex, ds));
    NothingToFix(ex, ds);
  }

  lemma {:induction false} HavingMembers(rs: seq<Record>, k: Key)
    ensures forall r :: r in Having(rs, k) <==> r in rs && KeyOf(r) == k
  {
    if rs != [] {
      assert rs == rs[..|rs| - 1] + [rs[|rs| - 1]];
      HavingMembers(rs[..|rs| - 1], k);
    }
  }

  lemma {:induction false} HavingUnique(rs: seq<Record>, k: Key)
    requires UniqueIds(rs)
    ensures UniqueIds(Having(rs, k))
  {
    if rs != [] {
      var init, r := rs[..|rs| - 1], rs[|rs| - 1];
      HavingUnique(init, k);
      HavingMembers(init, k);
      assert forall i :: 0 <= i < |Having(init, k)| ==> Having(init, k)[i] in Having(init, k);
    }
  }

  predicate NoRepeats(keys: seq<Key>) {
    keys == [] || (NoRepeats(keys[..|keys| - 1]) && keys[|keys| - 1] !in keys[..|keys| - 1])
  }

  lemma {:induction false} KeysOfIs(rs: seq<Record>)
    ensures NoRepeats(KeysOf(rs)) && forall k :: k in KeysOf(rs) <==> exists r :: r in rs && KeyOf(r) == k
  {
    if rs != [] {
      var init, r := rs[..|rs| - 1], rs[|rs| - 1];
      assert rs == init + [r];
      KeysOfIs(init);
      var b := KeysOf(init);
      assert (b + [KeyOf(r)])[..|b|] == b;
    }
  }

  lemma {:induction false} KeysEmptyIff(v: seq<Record>, ds: seq<Record>, keys: seq<Key>)
    ensures PlanKeys(v, ds, keys) == [] <==> forall k :: k in keys ==> PlanKey(Having(v, k), Having(ds, k)) == []
  {
    if keys != [] {
      var init, k := keys[..|keys| - 1], keys[|keys| - 1];
      KeysEmptyIff(v, ds, init);
      assert keys == init + [k];
      assert PlanKeys(v, ds, keys) == PlanKeys(v, ds, init) + PlanKey(Having(v, k), Having(ds, k));
    }
  }

  /** A group is satisfied when the wishes of its key are. */
  lemma GroupSatisfiedIff(v: seq<Record>, ds: seq<Record>, k: Key)
    ensures Satisfied(Having(v, k), Having(ds, k)) <==> forall w: Wish :: w.key == k ==> Fits(Like(v, w), Like(ds, w))
  {
    forall w ensures Like(Having(v, k), w) == (if w.key == k then Like(v, w) else [])
      && Like(Having(ds, k), w) == (if w.key == k then Like(ds, w) else [])
    {
      LikeHaving(v, k, w);
      LikeHaving(ds, k, w);
    }
    if Satisfied(Having(v, k), Having(ds, k)) {
      forall w: Wish | w.key == k ensures Fits(Like(v, w), Like(ds, w)) {
        assert Fits(Like(Having(v, k), w), Like(Having(ds, k), w));
      }
    }
  }

  /** A plan is empty exactly when every wish is met. */
  lemma {:induction false} NothingPlannedIff(v: seq<Record>, ds: seq<Record>)
    ensures Planned(v, ds) == [] <==> Satisfied(v, ds)
  {
    KeysOfIs(ds);
    KeysEmptyIff(v, ds, KeysOf(ds));
    forall k ensures PlanKey(Having(v, k), Having(ds, k)) == [] <==> Satisfied(Having(v, k), Having(ds, k)) {
      HavingMembers(v, k);
      HavingMembers(ds, k);
      GroupEmptyIff(Having(v, k), Having(ds, k), k);
    }
    if Satisfied(v, ds) {
      forall k ensures Satisfied(Having(v, k), Having(ds, k)) {
        GroupSatisfiedIff(v, ds, k);
      }
    }
    if Planned(v, ds) == [] {
      forall w ensures Fits(Like(v, w), Like(ds, w)) {
        if w.key in KeysOf(ds) {
          GroupSatisfiedIff(v, ds, w.key);
        } else {
          LikeMembers(ds, w);
          assert Like(ds, w) != [] ==> Like(ds, w)[0] in Like(ds, w);
        }
      }
    }
  }
}
