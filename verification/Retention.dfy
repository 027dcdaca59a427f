/** Which backups retention deletes (pkg/backup/manager.go, selectPrune). Times are seconds; an object whose key does
    not give its time is never deleted. */
module Retention {
  /** An object of the store; month numbers the calendar month of its time. */
  datatype Item = Item(key: string, ts: int, month: int)

  const DAY: int := 24 * 3600

  /** A later time is never in an earlier month, and no two objects have one key or one time. */
  predicate WellTimed(items: set<Item>) {
    && (forall a, b :: a in items && b in items && a.ts <= b.ts ==> a.month <= b.month)
    && (forall a, b :: a in items && b in items && a != b ==> a.ts != b.ts && a.key != b.key)
  }

  // --------------------------------------------------------------- what is kept

  function Newer(items: set<Item>, x: Item): set<Item> {
    set o | o in items && o.ts > x.ts
  }

  predicate NewestOfMonth(items: set<Item>, x: Item) {
    forall o :: o in items && o.month == x.month ==> o.ts <= x.ts
  }

  /** The later months that have a backup. */
  function LaterMonths(items: set<Item>, x: Item): set<int> {
    set o | o in items && o.month > x.month :: o.month
  }

  /** The newest object, those of the last days, the newest daily ones, and the newest of each of the newest monthly
      months that have one. */
  predicate Kept(items: set<Item>, daily: int, monthly: int, days: int, now: int, x: Item) {
    || Newer(items, x) == {}
    || (days > 0 && x.ts > now - days * DAY)
    || |Newer(items, x)| < daily
    || (monthly > 0 && NewestOfMonth(items, x) && |LaterMonths(items, x)| < monthly)
  }

  // ----------------------------------------------------------------- the method

  /** Newest first. */
  ghost predicate Descending(s: seq<Item>) {
    forall i, j :: 0 <= i < j < |s| ==> s[i].ts > s[j].ts
  }

  function Elements(s: seq<Item>): set<Item> {
    set x | x in s
  }

  method SortNewestFirst(items: seq<Item>) returns (s: seq<Item>)
    requires forall i, j :: 0 <= i < j < |items| ==> items[i].ts != items[j].ts
    ensures Descending(s) && Elements(s) == Elements(items) && |s| == |items|
  {
    s := [];
    for n := 0 to |items|
      invariant Descending(s) && Elements(s) == Elements(items[..n]) && |s| == n
    {
      assert items[..n + 1] == items[..n] + [items[n]];
      forall x | x in s ensures x.ts != items[n].ts {
        assert x in Elements(items[..n]);
      }
      s := Inserted(s, items[n]);
    }
    assert items[..|items|] == items;
  }

  method Inserted(s: seq<Item>, x: Item) returns (r: seq<Item>)
    requires Descending(s) && forall o :: o in s ==> o.ts != x.ts
    ensures Descending(r) && Elements(r) == Elements(s) + {x} && |r| == |s| + 1
  {
    var i := 0;
    while i < |s| && s[i].ts > x.ts
      invariant 0 <= i <= |s| && forall k :: 0 <= k < i ==> s[k].ts > x.ts
    {
      i := i + 1;
    }
    assert i < |s| ==> s[i] in s;
    r := s[..i] + [x] + s[i..];
  }

  // ---------------------------------------------------------- the rules by position

  function MonthsBefore(s: seq<Item>, i: nat): set<int>
    requires i <= |s|
  {
    set k | 0 <= k < i :: s[k].month
  }

  /** The newest of its month, one of the newest monthly months. */
  predicate MonthRule(s: seq<Item>, monthly: int, i: nat)
    requires i < |s|
  {
    monthly > 0 && s[i].month !in MonthsBefore(s, i) && |MonthsBefore(s, i)| < monthly
  }

  predicate DayRule(s: seq<Item>, days: int, now: int, i: nat)
    requires i < |s|
  {
    i == 0 || (days > 0 && s[i].ts > now - days * DAY)
  }

  ghost predicate DistinctKeys(s: seq<Item>) {
    forall i, j :: 0 <= i < j < |s| ==> s[i].key != s[j].key
  }

  method KeepDays(s: seq<Item>, days: int, now: int) returns (keep: set<string>)
    requires DistinctKeys(s)
    ensures forall k :: 0 <= k < |s| ==> (s[k].key in keep <==> DayRule(s, days, now, k))
  {
    keep := {};
    if |s| > 0 {
      keep := {s[0].key};
    }
    if days > 0 {
      for i := 0 to |s|
        invariant forall k :: 0 <= k < |s| ==> (s[k].key in keep <==> k == 0 || (k < i && DayRule(s, days, now, k)))
      {
        if s[i].ts > now - days * DAY {
          keep := keep + {s[i].key};
        }
      }
    }
  }

  method KeepDaily(s: seq<Item>, daily: int, before: set<string>) returns (keep: set<string>)
    requires DistinctKeys(s)
    ensures forall k :: 0 <= k < |s| ==> (s[k].key in keep <==> s[k].key in before || k < daily)
  {
    keep := before;
    var i := 0;
    while i < |s| && i < daily
      invariant 0 <= i <= |s| && (i == 0 || i <= daily)
      invariant forall k :: 0 <= k < |s| ==> (s[k].key in keep <==> s[k].key in before || k < i)
    {
      keep := keep + {s[i].key};
      i := i + 1;
    }
  }

  /** The keys of the first n items that the rule keeps, with those kept before. */
  ghost predicate KeptSoFar(s: seq<Item>, keep: set<string>, before: set<string>, rule: seq<bool>, n: nat)
    requires |rule| == |s|
  {
    forall k :: 0 <= k < |s| ==> (s[k].key in keep <==> s[k].key in before || (k < n && rule[k]))
  }

  lemma KeepsNext(s: seq<Item>, keep: set<string>, before: set<string>, rule: seq<bool>, n: nat)
    requires DistinctKeys(s) && n < |s| == |rule| && KeptSoFar(s, keep, before, rule, n)
    ensures KeptSoFar(s, if rule[n] then keep + {s[n].key} else keep, before, rule, n + 1)
  {
  }

  method KeepMonthly(s: seq<Item>, monthly: int, before: set<string>) returns (keep: set<string>)
    requires DistinctKeys(s)
    ensures forall k :: 0 <= k < |s| ==> (s[k].key in keep <==> s[k].key in before || MonthRule(s, monthly, k))
  {
    keep := before;
    if monthly <= 0 {
      return;
    }
    ghost var rule := Ruled(s, monthly, |s|);
    var months: set<int> := {};
    for n := 0 to |s|
      invariant months == MonthsBefore(s, n) && |months| < monthly
      invariant KeptSoFar(s, keep, before, rule, n)
    {
      MonthsStep(s, n);
      RuleAt(s, monthly, n);
      KeepsNext(s, keep, before, rule, n);
      if s[n].month in months {
        continue;
      }
      months := months + {s[n].month};
      keep := keep + {s[n].key};
      if |months| >= monthly {
        NoneLater(s, monthly, n + 1);
        return;
      }
    }
  }

  /** While months are left, an item is kept for its month exactly when that is a new one. */
  lemma RuleAt(s: seq<Item>, monthly: int, n: nat)
    requires n < |s| && |MonthsBefore(s, n)| < monthly
    ensures MonthRule(s, monthly, n) <==> s[n].month !in MonthsBefore(s, n)
  {
  }

  /** For each of the first n whether it is kept for its month. */
  ghost function Ruled(s: seq<Item>, monthly: int, n: nat): (rule: seq<bool>)
    requires n <= |s|
    ensures |rule| == n && forall k :: 0 <= k < n ==> rule[k] == MonthRule(s, monthly, k)
  {
    if n == 0 then [] else Ruled(s, monthly, n - 1) + [MonthRule(s, monthly, n - 1)]
  }

  lemma MonthsStep(s: seq<Item>, n: nat)
    requires n < |s|
    ensures MonthsBefore(s, n + 1) == MonthsBefore(s, n) + {s[n].month}
  {
  }

  /** Once enough months are claimed no later item is kept for its month. */
  lemma NoneLater(s: seq<Item>, monthly: int, n: nat)
    requires n <= |s| && |MonthsBefore(s, n)| >= monthly
    ensures forall k :: n <= k < |s| ==> !MonthRule(s, monthly, k)
  {
    forall k | n <= k < |s| ensures !MonthRule(s, monthly, k) {
      MonthsGrow(s, n, k);
    }
  }

  lemma MonthsGrow(s: seq<Item>, i: nat, j: nat)
    requires i <= j <= |s|
    ensures |MonthsBefore(s, i)| <= |MonthsBefore(s, j)|
  {
    SubsetSize(MonthsBefore(s, i), MonthsBefore(s, j));
  }

  lemma {:induction false} SubsetSize<T>(a: set<T>, b: set<T>)
    requires a <= b
    ensures |a| <= |b|
  {
    if a != {} {
      var x :| x in a;
      SubsetSize(a - {x}, b - {x});
    }
  }

  method SelectPrune(items: seq<Item>, daily: int, monthly: int, days: int, now: int) returns (del: seq<Item>)
    requires forall i, j :: 0 <= i < j < |items| ==> items[i] != items[j]
    requires WellTimed(Elements(items))
    ensures forall x :: x in del <==> x in items && !Kept(Elements(items), daily, monthly, days, now, x)
  {
    var s := SortNewestFirst(items);
    var keep := KeepDays(s, days, now);
    keep := KeepDaily(s, daily, keep);
    keep := KeepMonthly(s, monthly, keep);
    del := NotKept(s, keep);
    forall x ensures x in del <==> x in items && !Kept(Elements(items), daily, monthly, days, now, x) {
      assert x in items <==> x in Elements(s);
      if x in Elements(s) {
        var k :| 0 <= k < |s| && s[k] == x;
        KeptAt(s, k, daily, monthly, days, now);
      }
    }
  }

  method NotKept(s: seq<Item>, keep: set<string>) returns (del: seq<Item>)
    ensures forall x :: x in del <==> x in s && x.key !in keep
  {
    del := [];
    for n := 0 to |s|
      invariant forall x :: x in del <==> x in s[..n] && x.key !in keep
    {
      assert s[..n + 1] == s[..n] + [s[n]];
      if s[n].key !in keep {
        del := del + [s[n]];
      }
    }
    assert s[..|s|] == s;
  }

  /** In a list sorted newest first the newer ones are those before, and the later months those before. */
  lemma NewerAreBefore(s: seq<Item>, k: nat)
    requires Descending(s) && k < |s|
    ensures Newer(Elements(s), s[k]) == Elements(s[..k]) && |Newer(Elements(s), s[k])| == k
  {
    forall o ensures o in Newer(Elements(s), s[k]) <==> o in s[..k] {
      if o in Newer(Elements(s), s[k]) {
        var j :| 0 <= j < |s| && s[j] == o;
        assert j < k;
        assert s[..k][j] == o;
      }
    }
    PrefixSize(s, k);
  }

  lemma ElementsSnoc(s: seq<Item>, x: Item)
    ensures Elements(s + [x]) == Elements(s) + {x}
  {
  }

  lemma {:induction false} PrefixSize(s: seq<Item>, k: nat)
    requires Descending(s) && k <= |s|
    ensures |Elements(s[..k])| == k
  {
    if k > 0 {
      PrefixSize(s, k - 1);
      assert s[..k] == s[..k - 1] + [s[k - 1]];
      ElementsSnoc(s[..k - 1], s[k - 1]);
    }
  }

  lemma MonthsAgree(s: seq<Item>, k: nat)
    requires Descending(s) && WellTimed(Elements(s)) && k < |s|
    ensures NewestOfMonth(Elements(s), s[k]) <==> s[k].month !in MonthsBefore(s, k)
    ensures s[k].month !in MonthsBefore(s, k) ==> LaterMonths(Elements(s), s[k]) == MonthsBefore(s, k)
  {
    assert forall j :: 0 <= j < |s| ==> s[j] in Elements(s);
    if s[k].month !in MonthsBefore(s, k) {
      forall m ensures m in LaterMonths(Elements(s), s[k]) <==> m in MonthsBefore(s, k) {
        if m in LaterMonths(Elements(s), s[k]) {
          var o :| o in Elements(s) && o.month > s[k].month && o.month == m;
          var j :| 0 <= j < |s| && s[j] == o;
          assert j < k;
        }
        if m in MonthsBefore(s, k) {
          var j :| 0 <= j < k && s[j].month == m;
          assert s[j] in Elements(s) && s[j].ts > s[k].ts;
        }
      }
    }
  }

  lemma KeptAt(s: seq<Item>, k: nat, daily: int, monthly: int, days: int, now: int)
    requires Descending(s) && WellTimed(Elements(s)) && k < |s|
    ensures Kept(Elements(s), daily, monthly, days, now, s[k])
      <==> DayRule(s, days, now, k) || k < daily || MonthRule(s, monthly, k)
  {
    NewerAreBefore(s, k);
    MonthsAgree(s, k);
  }

  // --------------------------------------------------------------- pruning again

  /** What survives a pruning survives the next one at the same time. */
  lemma PrunedOnce(items: set<Item>, daily: int, monthly: int, days: int, now: int, x: Item)
    requires x in items && Kept(items, daily, monthly, days, now, x)
    ensures var rest := set o | o in items && Kept(items, daily, monthly, days, now, o);
      x in rest && Kept(rest, daily, monthly, days, now, x)
  {
    var rest := set o | o in items && Kept(items, daily, monthly, days, now, o);
    assert Newer(rest, x) <= Newer(items, x);
    SubsetSize(Newer(rest, x), Newer(items, x));
    SubsetSize(LaterMonths(rest, x), LaterMonths(items, x));
  }
}
