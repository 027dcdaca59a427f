/** Which images retention deletes (pkg/engine/imageprune.go). */
module Images {
  import opened Text

  datatype Image = Image(fingerprint: string, aliases: seq<string>, created: int, cached: bool)

  /** keepTags tagged images are kept per app of the prefix; an orphan older than orphanAge goes; app, when given,
      limits a run to that app's tags; displaced is an image a build just moved an alias off. */
  datatype Policy = Policy(prefix: string, keepTags: int, orphanAge: int, app: string, displaced: string)

  predicate ValidApp(name: string) {
    && 1 <= |name| <= 41 && name[0] != '-'
    && forall c :: c in name ==> 'a' <= c <= 'z' || '0' <= c <= '9' || c == '-'
  }

  /** The app an alias names as <prefix><app>:<ref>. */
  function AppOf(alias: string, prefix: string): Option<string> {
    if !(prefix <= alias) then None else
      var (name, ref, ok) := Cut(alias[|prefix|..], ':');
      if ok && ValidApp(name) && ref != "" then Some(name) else None
  }

  /** The app every alias names; None when any is something else. */
  function OwnAppFrom(aliases: seq<string>, prefix: string, app: string): Option<string> {
    if aliases == [] then if app == "" then None else Some(app)
    else
      var name := AppOf(aliases[0], prefix);
      if name.None? || (app != "" && name.value != app) then None else OwnAppFrom(aliases[1..], prefix, name.value)
  }

  function OwnApp(aliases: seq<string>, prefix: string): Option<string> {
    OwnAppFrom(aliases, prefix, "")
  }

  predicate IsLatest(alias: string) {
    |alias| >= 7 && alias[|alias| - 7..] == ":latest"
  }

  predicate HasLatest(aliases: seq<string>) {
    exists i :: 0 <= i < |aliases| && IsLatest(aliases[i])
  }

  predicate IsOrphan(img: Image, inUse: set<string>, p: Policy, now: int) {
    && img.fingerprint !in inUse && img.aliases == [] && !img.cached
    && ((p.displaced != "" && img.fingerprint == p.displaced)
        || (p.app == "" && p.orphanAge > 0 && now - img.created >= p.orphanAge))
  }

  /** The app whose tags the image is counted among, if it is. */
  function TagApp(img: Image, inUse: set<string>, p: Policy): Option<string> {
    if img.fingerprint in inUse || img.aliases == [] || p.keepTags <= 0 || p.prefix == "" then None else
      var app := OwnApp(img.aliases, p.prefix);
      if app.Some? && (p.app == "" || app.value == p.app) then app else None
  }

  function Orphans(images: seq<Image>, inUse: set<string>, p: Policy, now: int): seq<Image> {
    if images == [] then [] else
      var before, img := Orphans(images[..|images| - 1], inUse, p, now), images[|images| - 1];
      if IsOrphan(img, inUse, p, now) then before + [img] else before
  }

  function OfApp(images: seq<Image>, app: string, inUse: set<string>, p: Policy): seq<Image> {
    if images == [] then [] else
      var before, img := OfApp(images[..|images| - 1], app, inUse, p), images[|images| - 1];
      if TagApp(img, inUse, p) == Some(app) then before + [img] else before
  }

  function Apps(images: seq<Image>, inUse: set<string>, p: Policy): set<string> {
    set img | img in images && TagApp(img, inUse, p).Some? :: TagApp(img, inUse, p).value
  }

  /** x after those that are not older. */
  function Insert(x: Image, s: seq<Image>): seq<Image> {
    if s == [] then [x] else if s[0].created < x.created then [x] + s else [s[0]] + Insert(x, s[1..])
  }

  /** Newest first; of the same age, in the order they came. */
  function Newest(s: seq<Image>): seq<Image> {
    if s == [] then [] else Insert(s[|s| - 1], Newest(s[..|s| - 1]))
  }

  /** Past the newest keep, those without a :latest. */
  function Old(s: seq<Image>, keep: int, kept: nat): seq<Image> {
    if s == [] then []
    else if HasLatest(s[0].aliases) || kept < keep then Old(s[1..], keep, kept + 1)
    else [s[0]] + Old(s[1..], keep, kept)
  }

  function OldOf(images: seq<Image>, app: string, inUse: set<string>, p: Policy): seq<Image> {
    Old(Newest(OfApp(images, app, inUse, p)), p.keepTags, 0)
  }

  function OldTags(images: seq<Image>, apps: seq<string>, inUse: set<string>, p: Policy): seq<Image> {
    if apps == [] then [] else OldTags(images, apps[..|apps| - 1], inUse, p) + OldOf(images, apps[|apps| - 1], inUse, p)
  }

  ghost function Pruned(images: seq<Image>, inUse: set<string>, p: Policy, now: int): seq<Image> {
    Orphans(images, inUse, p, now) + OldTags(images, SortedKeys(Apps(images, inUse, p)), inUse, p)
  }

  function At(m: map<string, seq<Image>>, app: string): seq<Image> {
    if app in m then m[app] else []
  }

  method ImagesToPrune(images: seq<Image>, inUse: set<string>, p: Policy, now: int) returns (out: seq<Image>)
    ensures out == Pruned(images, inUse, p, now)
    ensures DistinctTimes(images) ==> forall x :: x in out <==>
      x in images && if x.aliases == [] then SpareUntagged(x, inUse, p, now) else SpareTag(x, images, inUse, p)
  {
    var orphans, byApp := Classify(images, inUse, p, now);
    var apps := SortKeys(byApp.Keys);
    var tags := OldOfEach(byApp, apps, images, inUse, p);
    out := orphans + tags;
    if DistinctTimes(images) {
      GoneExactly(images, inUse, p, now);
    }
  }

  method OldOfEach(byApp: map<string, seq<Image>>, apps: seq<string>, ghost images: seq<Image>,
                   ghost inUse: set<string>, p: Policy)
    returns (out: seq<Image>)
    requires ByAppIs(byApp, images, inUse, p) && forall app :: app in apps ==> app in byApp
    ensures out == OldTags(images, apps, inUse, p)
  {
    out := [];
    for n := 0 to |apps|
      invariant out == OldTags(images, apps[..n], inUse, p)
    {
      OldTagsStep(images, apps, n, inUse, p);
      assert apps[n] in byApp;
      var gone := OldOfApp(byApp[apps[n]], p.keepTags);
      out := out + gone;
    }
    assert apps[..|apps|] == apps;
  }

  lemma OldTagsStep(images: seq<Image>, apps: seq<string>, n: nat, inUse: set<string>, p: Policy)
    requires n < |apps|
    ensures OldTags(images, apps[..n + 1], inUse, p)
         == OldTags(images, apps[..n], inUse, p) + OldOf(images, apps[n], inUse, p)
  {
    assert apps[..n + 1][..n] == apps[..n];
  }

  method OldOfApp(imgs: seq<Image>, keep: int) returns (out: seq<Image>)
    ensures out == Old(Newest(imgs), keep, 0)
  {
    var sorted := SortNewest(imgs);
    out := OldOnes(sorted, keep);
  }

  /** The orphans to delete, and the other images by app. */
  method Classify(images: seq<Image>, inUse: set<string>, p: Policy, now: int)
    returns (out: seq<Image>, byApp: map<string, seq<Image>>)
    ensures out == Orphans(images, inUse, p, now)
    ensures ByAppIs(byApp, images, inUse, p)
  {
    out, byApp := [], map[];
    for n := 0 to |images|
      invariant out == Orphans(images[..n], inUse, p, now)
      invariant ByAppIs(byApp, images[..n], inUse, p)
    {
      var img := images[n];
      assert images[..n + 1][..n] == images[..n] && images[..n + 1] == images[..n] + [img];
      ByAppSnoc(byApp, images[..n], img, inUse, p);
      if IsOrphan(img, inUse, p, now) {
        out := out + [img];
      } else if TagApp(img, inUse, p).Some? {
        byApp := WithImage(byApp, TagApp(img, inUse, p).value, img);
      }
    }
    assert images[..|images|] == images;
  }

  function WithImage(byApp: map<string, seq<Image>>, app: string, img: Image): map<string, seq<Image>> {
    byApp[app := At(byApp, app) + [img]]
  }

  predicate ByAppIs(byApp: map<string, seq<Image>>, images: seq<Image>, inUse: set<string>, p: Policy) {
    && byApp.Keys == Apps(images, inUse, p)
    && forall app :: app in byApp ==> byApp[app] == OfApp(images, app, inUse, p)
  }

  lemma ByAppSnoc(byApp: map<string, seq<Image>>, images: seq<Image>, img: Image, inUse: set<string>, p: Policy)
    requires ByAppIs(byApp, images, inUse, p)
    ensures var app := TagApp(img, inUse, p);
      ByAppIs(if app.Some? then WithImage(byApp, app.value, img) else byApp, images + [img], inUse, p)
  {
    assert (images + [img])[..|images|] == images;
    var app := TagApp(img, inUse, p);
    if app.Some? && app.value !in byApp {
      NoneOfApp(images, app.value, inUse, p);
    }
  }

  lemma {:induction false} NoneOfApp(images: seq<Image>, app: string, inUse: set<string>, p: Policy)
    requires app !in Apps(images, inUse, p)
    ensures OfApp(images, app, inUse, p) == []
  {
    if images != [] {
      var init, img := images[..|images| - 1], images[|images| - 1];
      assert images == init + [img];
      NoneOfApp(init, app, inUse, p);
    }
  }

  method SortNewest(s: seq<Image>) returns (r: seq<Image>)
    ensures r == Newest(s)
  {
    r := [];
    for n := 0 to |s|
      invariant r == Newest(s[..n])
    {
      assert s[..n + 1][..n] == s[..n];
      r := Insert(s[n], r);
    }
    assert s[..|s|] == s;
  }

  method OldOnes(s: seq<Image>, keep: int) returns (out: seq<Image>)
    ensures out == Old(s, keep, 0)
  {
    out := [];
    var kept: nat := 0;
    for n := 0 to |s|
      invariant out + Old(s[n..], keep, kept) == Old(s, keep, 0)
    {
      assert s[n..][1..] == s[n + 1..];
      if HasLatest(s[n].aliases) || kept < keep {
        kept := kept + 1;
      } else {
        out := out + [s[n]];
      }
    }
  }

  // ---------------------------------------------------------------- what may go

  lemma {:induction false} OrphansAre(images: seq<Image>, inUse: set<string>, p: Policy, now: int)
    ensures forall x :: x in Orphans(images, inUse, p, now) <==> x in images && IsOrphan(x, inUse, p, now)
  {
    if images != [] {
      assert images == images[..|images| - 1] + [images[|images| - 1]];
      OrphansAre(images[..|images| - 1], inUse, p, now);
    }
  }

  lemma {:induction false} OfAppAre(images: seq<Image>, app: string, inUse: set<string>, p: Policy)
    ensures forall x :: x in OfApp(images, app, inUse, p) <==> x in images && TagApp(x, inUse, p) == Some(app)
  {
    if images != [] {
      assert images == images[..|images| - 1] + [images[|images| - 1]];
      OfAppAre(images[..|images| - 1], app, inUse, p);
    }
  }

  lemma {:induction false} InsertAre(x: Image, s: seq<Image>)
    ensures forall y :: y in Insert(x, s) <==> y == x || y in s
  {
    if s != [] && s[0].created >= x.created {
      InsertAre(x, s[1..]);
      assert s == [s[0]] + s[1..];
    }
  }

  lemma {:induction false} NewestAre(s: seq<Image>)
    ensures forall y :: y in Newest(s) <==> y in s
  {
    if s != [] {
      assert s == s[..|s| - 1] + [s[|s| - 1]];
      NewestAre(s[..|s| - 1]);
      InsertAre(s[|s| - 1], Newest(s[..|s| - 1]));
    }
  }

  lemma {:induction false} OldAre(s: seq<Image>, keep: int, kept: nat)
    ensures forall y :: y in Old(s, keep, kept) ==> y in s && !HasLatest(y.aliases)
  {
    if s != [] {
      assert s == [s[0]] + s[1..];
      OldAre(s[1..], keep, if HasLatest(s[0].aliases) || kept < keep then kept + 1 else kept);
    }
  }

  lemma {:induction false} OldTagsAre(images: seq<Image>, apps: seq<string>, inUse: set<string>, p: Policy)
    ensures forall y :: y in OldTags(images, apps, inUse, p) ==>
      y in images && TagApp(y, inUse, p).Some? && !HasLatest(y.aliases)
    ensures forall y :: y in OldTags(images, apps, inUse, p) ==>
      exists app :: app in apps && y in OldOf(images, app, inUse, p)
  {
    if apps != [] {
      var init, app := apps[..|apps| - 1], apps[|apps| - 1];
      assert apps == init + [app];
      OldTagsAre(images, init, inUse, p);
      OfAppAre(images, app, inUse, p);
      NewestAre(OfApp(images, app, inUse, p));
      OldAre(Newest(OfApp(images, app, inUse, p)), p.keepTags, 0);
    }
  }

  /** Nothing that an instance runs, that carries :latest, or that has an alias of somebody else's ever goes; what has
      no alias goes only if it is no cached copy. */
  lemma OnlyOwnGo(images: seq<Image>, inUse: set<string>, p: Policy, now: int, x: Image)
    requires x in Pruned(images, inUse, p, now)
    ensures x in images && x.fingerprint !in inUse && !HasLatest(x.aliases)
    ensures if x.aliases == [] then !x.cached else OwnApp(x.aliases, p.prefix).Some?
  {
    OrphansAre(images, inUse, p, now);
    OldTagsAre(images, SortedKeys(Apps(images, inUse, p)), inUse, p);
  }

  // ----------------------------------------------------------- exactly what goes

  ghost predicate DistinctTimes(images: seq<Image>) {
    forall i: nat, j: nat :: i < j < |images| ==> images[i].created != images[j].created
  }

  /** The alias is <prefix><app>:<ref>. */
  ghost predicate TagOf(alias: string, prefix: string, app: string) {
    && 0 < |app| < 42 && app[0] != '-' && (forall c :: c in app ==> 'a' <= c <= 'z' || '0' <= c <= '9' || c == '-')
    && exists ref :: ref != "" && alias == prefix + app + ":" + ref
  }

  /** A tagged image nothing runs, all of whose aliases are tags of the app. */
  ghost predicate IdleTag(x: Image, app: string, inUse: set<string>, p: Policy) {
    x.fingerprint !in inUse && x.aliases != [] && forall a :: a in x.aliases ==> TagOf(a, p.prefix, app)
  }

  ghost function NewerTags(x: Image, images: seq<Image>, app: string, inUse: set<string>, p: Policy): set<Image> {
    set y | y in images && IdleTag(y, app, inUse, p) && y.created > x.created
  }

  /** keepTags newer images of the app are there, and none of the image's tags is a latest. */
  ghost predicate SpareTag(x: Image, images: seq<Image>, inUse: set<string>, p: Policy) {
    && p.prefix != "" && p.keepTags > 0 && (forall b: string :: b + ":latest" !in x.aliases)
    && exists app :: (p.app == "" || app == p.app) && IdleTag(x, app, inUse, p)
                     && |NewerTags(x, images, app, inUse, p)| >= p.keepTags
  }

  /** What a build just displaced, and, in a run for every app, what has been without a tag for long enough. */
  predicate SpareUntagged(x: Image, inUse: set<string>, p: Policy, now: int) {
    && x.fingerprint !in inUse && !x.cached
    && if p.displaced != "" && x.fingerprint == p.displaced then true
       else p.app == "" && p.orphanAge > 0 && x.created <= now - p.orphanAge
  }

  lemma LatestIff(aliases: seq<string>)
    ensures HasLatest(aliases) <==> exists b: string :: b + ":latest" in aliases
  {
    forall i | 0 <= i < |aliases| && IsLatest(aliases[i]) ensures exists b: string :: b + ":latest" in aliases {
      var b := aliases[i][..|aliases[i]| - 7];
      assert b + ":latest" == aliases[i];
    }
    if b: string :| b + ":latest" in aliases {
      var i :| 0 <= i < |aliases| && aliases[i] == b + ":latest";
      assert IsLatest(aliases[i]);
    }
  }

  lemma AppOfIff(alias: string, prefix: string, app: string)
    ensures AppOf(alias, prefix) == Some(app) <==> TagOf(alias, prefix, app)
  {
    if TagOf(alias, prefix, app) {
      var ref :| ref != "" && alias == prefix + app + ":" + ref;
      assert alias[|prefix|..] == app + [':'] + ref;
      CutAt(app, ':', ref);
    }
    if AppOf(alias, prefix) == Some(app) {
      var (name, ref, ok) := Cut(alias[|prefix|..], ':');
      assert alias[|prefix|..] == name + [':'] + ref;
      assert alias == prefix + app + ":" + ref;
    }
  }

  lemma {:induction false} OwnAppIff(aliases: seq<string>, prefix: string, name: string, app: string)
    requires name == "" ==> aliases != []
    ensures OwnAppFrom(aliases, prefix, name) == Some(app)
      <==> (name == "" || name == app) && forall a :: a in aliases ==> TagOf(a, prefix, app)
  {
    if aliases != [] {
      assert aliases == [aliases[0]] + aliases[1..];
      AppOfIff(aliases[0], prefix, app);
      var first := AppOf(aliases[0], prefix);
      if first.Some? {
        OwnAppIff(aliases[1..], prefix, first.value, app);
      }
    }
  }

  lemma TagAppIff(x: Image, app: string, inUse: set<string>, p: Policy)
    ensures TagApp(x, inUse, p) == Some(app) <==>
      IdleTag(x, app, inUse, p) && p.prefix != "" && p.keepTags > 0 && (p.app == "" || app == p.app)
  {
    if x.aliases != [] {
      OwnAppIff(x.aliases, p.prefix, "", app);
    }
  }

  /** Of images newest first, those with keep before them and without a latest go. */
  lemma {:induction false} OldAt(s: seq<Image>, keep: int, kept: nat, i: nat)
    requires i < |s| && forall j: nat, k: nat :: j < k < |s| ==> s[j] != s[k]
    ensures s[i] in Old(s, keep, kept) <==> !HasLatest(s[i].aliases) && kept + i >= keep
  {
    var rest, now := s[1..], if HasLatest(s[0].aliases) || kept < keep then kept + 1 else kept;
    OldAre(rest, keep, now);
    if i > 0 {
      assert rest[i - 1] == s[i];
      OldAt(rest, keep, now, i - 1);
    }
  }

  lemma {:induction false} SizeOf(s: seq<Image>)
    requires forall i: nat, j: nat :: i < j < |s| ==> s[i] != s[j]
    ensures |set y | y in s| == |s|
  {
    if s != [] {
      var init, last := s[..|s| - 1], s[|s| - 1];
      assert s == init + [last];
      SizeOf(init);
      assert (set y | y in s) == (set y | y in init) + {last};
    }
  }

  /** In a newest-first order, what is before an image is what is newer. */
  lemma NewerAre(s: seq<Image>, i: nat)
    requires i < |s| && Sorted(s) && DistinctTimes(s)
    ensures |set y | y in s && y.created > s[i].created| == i
  {
    assert forall y :: y in s && y.created > s[i].created ==> y in s[..i];
    assert forall y :: y in s[..i] ==> y in s && y.created > s[i].created;
    assert (set y | y in s && y.created > s[i].created) == set y | y in s[..i];
    SizeOf(s[..i]);
  }

  lemma {:induction false} TimesDiffer(images: seq<Image>)
    requires DistinctTimes(images)
    ensures AllDifferent(images)
    ensures forall x, y :: x in images && y in images && x.created == y.created ==> x == y
  {
    if images != [] {
      TimesDiffer(images[..|images| - 1]);
    }
  }

  lemma OldOfSorted(images: seq<Image>, s: seq<Image>, x: Image, app: string, inUse: set<string>, p: Policy)
    requires DistinctTimes(images) && s == Newest(OfApp(images, app, inUse, p))
    requires x in OfApp(images, app, inUse, p)
    ensures forall y :: y in s <==> y in OfApp(images, app, inUse, p)
    ensures x in Old(s, p.keepTags, 0)
      <==> !HasLatest(x.aliases) && |set y | y in s && y.created > x.created| >= p.keepTags
  {
    var own := OfApp(images, app, inUse, p);
    OfAppDifferent(images, app, inUse, p) by {
      TimesDiffer(images);
    }
    NewestNoTwice(own);
    NoTwiceAt(s);
    NewestSorted(own);
    NewestAre(own);
    TimesDifferIn(images, s) by {
      OfAppAre(images, app, inUse, p);
    }
    var i: nat :| i < |s| && s[i] == x;
    OldAt(s, p.keepTags, 0, i);
    NewerAre(s, i);
  }

  lemma TimesDifferIn(images: seq<Image>, s: seq<Image>)
    requires DistinctTimes(images) && forall y :: y in s ==> y in images
    requires forall i, j :: 0 <= i < j < |s| ==> s[i] != s[j]
    ensures DistinctTimes(s)
  {
    TimesDiffer(images);
    forall j: nat, k: nat | j < k < |s| ensures s[j].created != s[k].created {
      assert s[j] in images && s[k] in images;
    }
  }

  lemma OldOfExactly(images: seq<Image>, x: Image, app: string, inUse: set<string>, p: Policy)
    requires DistinctTimes(images) && x in OfApp(images, app, inUse, p)
    ensures x in OldOf(images, app, inUse, p)
      <==> !HasLatest(x.aliases) && |NewerTags(x, images, app, inUse, p)| >= p.keepTags
  {
    var s := Newest(OfApp(images, app, inUse, p));
    OldOfSorted(images, s, x, app, inUse, p);
    OfAppAre(images, app, inUse, p);
    TagAppIff(x, app, inUse, p);
    forall y ensures y in s <==> y in images && IdleTag(y, app, inUse, p) {
      TagAppIff(y, app, inUse, p);
    }
    assert (set y | y in s && y.created > x.created) == NewerTags(x, images, app, inUse, p);
  }

  lemma TagsGone(images: seq<Image>, x: Image, inUse: set<string>, p: Policy, now: int)
    requires DistinctTimes(images) && x in images && x.aliases != []
    ensures x in Pruned(images, inUse, p, now) <==> SpareTag(x, images, inUse, p)
  {
    LatestIff(x.aliases);
    forall app ensures TagApp(x, inUse, p) == Some(app) <==>
      IdleTag(x, app, inUse, p) && p.prefix != "" && p.keepTags > 0 && (p.app == "" || app == p.app) {
      TagAppIff(x, app, inUse, p);
    }
    var own := TagApp(x, inUse, p);
    if own.Some? {
      OfAppAre(images, own.value, inUse, p);
      GoneOfApp(images, own.value, inUse, p, now, x);
      OldOfExactly(images, x, own.value, inUse, p);
    } else {
      OrphansAre(images, inUse, p, now);
      OldTagsAre(images, SortedKeys(Apps(images, inUse, p)), inUse, p);
    }
  }

  /** Which images go, without the order they are looked at in: of an app's tags nothing runs, those with keepTags
      newer ones and no latest. */
  lemma GoneExactly(images: seq<Image>, inUse: set<string>, p: Policy, now: int)
    requires DistinctTimes(images)
    ensures forall x :: x in Pruned(images, inUse, p, now) <==>
      x in images && if x.aliases == [] then SpareUntagged(x, inUse, p, now) else SpareTag(x, images, inUse, p)
  {
    OrphansAre(images, inUse, p, now);
    OldTagsAre(images, SortedKeys(Apps(images, inUse, p)), inUse, p);
    forall x | x in images && x.aliases != []
      ensures x in Pruned(images, inUse, p, now) <==> SpareTag(x, images, inUse, p) {
      TagsGone(images, x, inUse, p, now);
    }
  }

  // -------------------------------------------------------------- pruning again

  function Left(s: seq<Image>, gone: set<Image>): seq<Image> {
    if s == [] then [] else
      var before := Left(s[..|s| - 1], gone);
      if s[|s| - 1] in gone then before else before + [s[|s| - 1]]
  }

  function LeftFront(s: seq<Image>, gone: set<Image>): seq<Image> {
    if s == [] then [] else if s[0] in gone then LeftFront(s[1..], gone) else [s[0]] + LeftFront(s[1..], gone)
  }

  lemma {:induction false} LeftAre(s: seq<Image>, gone: set<Image>)
    ensures forall y :: y in Left(s, gone) <==> y in s && y !in gone
  {
    if s != [] {
      assert s == s[..|s| - 1] + [s[|s| - 1]];
      LeftAre(s[..|s| - 1], gone);
    }
  }

  ghost predicate Sorted(s: seq<Image>) {
    forall i, j :: 0 <= i < j < |s| ==> s[i].created >= s[j].created
  }

  lemma {:induction false} InsertSorted(x: Image, s: seq<Image>)
    requires Sorted(s)
    ensures Sorted(Insert(x, s))
  {
    if s != [] && s[0].created >= x.created {
      InsertSorted(x, s[1..]);
      InsertAre(x, s[1..]);
      var r := Insert(x, s[1..]);
      assert forall j :: 0 <= j < |r| ==> r[j] in r;
      assert forall y :: y in s[1..] ==> s[0].created >= y.created;
    }
  }

  lemma {:induction false} NewestSorted(s: seq<Image>)
    ensures Sorted(Newest(s))
  {
    if s != [] {
      NewestSorted(s[..|s| - 1]);
      InsertSorted(s[|s| - 1], Newest(s[..|s| - 1]));
    }
  }

  lemma {:induction false} LeftFrontAre(s: seq<Image>, gone: set<Image>)
    ensures forall y :: y in LeftFront(s, gone) <==> y in s && y !in gone
  {
    if s != [] {
      assert s == [s[0]] + s[1..];
      LeftFrontAre(s[1..], gone);
    }
  }

  /** Dropping images and sorting may be done in either order. */
  lemma {:induction false} InsertLeft(x: Image, s: seq<Image>, gone: set<Image>)
    requires Sorted(s)
    ensures LeftFront(Insert(x, s), gone) == if x in gone then LeftFront(s, gone) else Insert(x, LeftFront(s, gone))
  {
    if s != [] {
      if s[0].created < x.created {
        assert ([x] + s)[1..] == s;
        LeftFrontAre(s, gone);
        var r := LeftFront(s, gone);
        if r != [] {
          assert r[0] in s;
        }
      } else {
        InsertLeft(x, s[1..], gone);
        assert ([s[0]] + Insert(x, s[1..]))[1..] == Insert(x, s[1..]);
      }
    } else {
      assert [x][1..] == [];
    }
  }

  lemma {:induction false} NewestLeft(s: seq<Image>, gone: set<Image>)
    ensures Newest(Left(s, gone)) == LeftFront(Newest(s), gone)
  {
    if s != [] {
      var init, x := s[..|s| - 1], s[|s| - 1];
      NewestLeft(init, gone);
      NewestSorted(init);
      InsertLeft(x, Newest(init), gone);
      var before := Left(init, gone);
      assert (before + [x])[..|before|] == before;
    }
  }

  /** What is left of an app's images is all kept. */
  lemma {:induction false} OldLeft(s: seq<Image>, keep: int, kept: nat, gone: set<Image>)
    requires forall i, j :: 0 <= i < j < |s| ==> s[i] != s[j]
    requires forall y :: y in s ==> (y in gone <==> y in Old(s, keep, kept))
    ensures Old(LeftFront(s, gone), keep, kept) == []
  {
    if s != [] {
      var rest := s[1..];
      var now := if HasLatest(s[0].aliases) || kept < keep then kept + 1 else kept;
      assert s == [s[0]] + rest;
      OldAre(rest, keep, now);
      forall y | y in rest ensures y != s[0] && (y in gone <==> y in Old(rest, keep, now)) {
        var i :| 0 <= i < |rest| && rest[i] == y;
        assert s[i + 1] == y;
      }
      OldLeft(rest, keep, now, gone);
      assert ([s[0]] + LeftFront(rest, gone))[1..] == LeftFront(rest, gone);
    }
  }

  predicate NoTwice(s: seq<Image>) {
    s == [] || (NoTwice(s[1..]) && s[0] !in s[1..])
  }

  lemma {:induction false} NoTwiceAt(s: seq<Image>)
    requires NoTwice(s)
    ensures forall i, j :: 0 <= i < j < |s| ==> s[i] != s[j]
  {
    if s != [] {
      NoTwiceAt(s[1..]);
      assert forall j :: 1 <= j < |s| ==> s[j] == s[1..][j - 1];
    }
  }

  lemma {:induction false} InsertNoTwice(x: Image, s: seq<Image>)
    requires NoTwice(s) && x !in s
    ensures NoTwice(Insert(x, s))
  {
    if s != [] {
      assert s == [s[0]] + s[1..];
      if s[0].created >= x.created {
        InsertNoTwice(x, s[1..]);
        InsertAre(x, s[1..]);
        assert ([s[0]] + Insert(x, s[1..]))[1..] == Insert(x, s[1..]);
      } else {
        assert ([x] + s)[1..] == s;
      }
    } else {
      assert [x][1..] == [];
    }
  }

  predicate AllDifferent(s: seq<Image>) {
    s == [] || (AllDifferent(s[..|s| - 1]) && s[|s| - 1] !in s[..|s| - 1])
  }

  lemma {:induction false} NewestNoTwice(s: seq<Image>)
    requires AllDifferent(s)
    ensures NoTwice(Newest(s))
  {
    if s != [] {
      NewestNoTwice(s[..|s| - 1]);
      NewestAre(s[..|s| - 1]);
      InsertNoTwice(s[|s| - 1], Newest(s[..|s| - 1]));
    }
  }

  lemma {:induction false} OfAppDifferent(images: seq<Image>, app: string, inUse: set<string>, p: Policy)
    requires AllDifferent(images)
    ensures AllDifferent(OfApp(images, app, inUse, p))
  {
    if images != [] {
      var init := images[..|images| - 1];
      OfAppDifferent(init, app, inUse, p);
      OfAppAre(init, app, inUse, p);
      var before := OfApp(init, app, inUse, p);
      assert (before + [images[|images| - 1]])[..|before|] == before;
    }
  }

  lemma {:induction false} OfAppLeft(images: seq<Image>, app: string, inUse: set<string>, p: Policy, gone: set<Image>)
    ensures OfApp(Left(images, gone), app, inUse, p) == Left(OfApp(images, app, inUse, p), gone)
  {
    if images != [] {
      var init, x := images[..|images| - 1], images[|images| - 1];
      OfAppLeft(init, app, inUse, p, gone);
      var a, b := Left(init, gone), OfApp(init, app, inUse, p);
      assert (a + [x])[..|a|] == a && (b + [x])[..|b|] == b;
    }
  }

  lemma {:induction false} NoOrphans(images: seq<Image>, inUse: set<string>, p: Policy, now: int)
    requires forall x :: x in images ==> !IsOrphan(x, inUse, p, now)
    ensures Orphans(images, inUse, p, now) == []
  {
    if images != [] {
      assert images == images[..|images| - 1] + [images[|images| - 1]];
      NoOrphans(images[..|images| - 1], inUse, p, now);
    }
  }

  lemma {:induction false} NoOldTags(images: seq<Image>, apps: seq<string>, inUse: set<string>, p: Policy)
    requires forall app :: app in apps ==> OldOf(images, app, inUse, p) == []
    ensures OldTags(images, apps, inUse, p) == []
  {
    if apps != [] {
      assert apps == apps[..|apps| - 1] + [apps[|apps| - 1]];
      NoOldTags(images, apps[..|apps| - 1], inUse, p);
    }
  }

  lemma {:induction false} OldTagsHave(images: seq<Image>, apps: seq<string>, app: string, inUse: set<string>,
                                       p: Policy)
    requires app in apps
    ensures forall y :: y in OldOf(images, app, inUse, p) ==> y in OldTags(images, apps, inUse, p)
  {
    var init, last := apps[..|apps| - 1], apps[|apps| - 1];
    assert apps == init + [last];
    if app in init {
      OldTagsHave(images, init, app, inUse, p);
    }
  }

  /** Of an app's images, those that go are the old ones of that app. */
  lemma GoneOfApp(images: seq<Image>, app: string, inUse: set<string>, p: Policy, now: int, y: Image)
    requires y in OfApp(images, app, inUse, p)
    ensures y in Pruned(images, inUse, p, now) <==> y in OldOf(images, app, inUse, p)
  {
    var apps := SortedKeys(Apps(images, inUse, p));
    OfAppAre(images, app, inUse, p);
    OrphansAre(images, inUse, p, now);
    OldTagsAre(images, apps, inUse, p);
    OldTagsHave(images, apps, app, inUse, p);
    if y in OldTags(images, apps, inUse, p) {
      var other :| other in apps && y in OldOf(images, other, inUse, p);
      OldAre(Newest(OfApp(images, other, inUse, p)), p.keepTags, 0);
      NewestAre(OfApp(images, other, inUse, p));
      OfAppAre(images, other, inUse, p);
    }
  }

  lemma NoneOldLeft(images: seq<Image>, app: string, inUse: set<string>, p: Policy, now: int, gone: set<Image>)
    requires AllDifferent(images) && gone == set x | x in Pruned(images, inUse, p, now)
    ensures OldOf(Left(images, gone), app, inUse, p) == []
  {
    var s := Newest(OfApp(images, app, inUse, p));
    OfAppLeft(images, app, inUse, p, gone);
    NewestLeft(OfApp(images, app, inUse, p), gone);
    OfAppDifferent(images, app, inUse, p);
    NewestNoTwice(OfApp(images, app, inUse, p));
    NoTwiceAt(s);
    NewestAre(OfApp(images, app, inUse, p));
    forall y | y in s ensures y in gone <==> y in Old(s, p.keepTags, 0) {
      GoneOfApp(images, app, inUse, p, now, y);
    }
    OldLeft(s, p.keepTags, 0, gone);
  }

  /** Pruning what is left, at the same time and with the same instances, deletes nothing more. */
  lemma PrunedOnce(images: seq<Image>, inUse: set<string>, p: Policy, now: int)
    requires AllDifferent(images)
    ensures Pruned(Left(images, set x | x in Pruned(images, inUse, p, now)), inUse, p, now) == []
  {
    var gone := set x | x in Pruned(images, inUse, p, now);
    var rest := Left(images, gone);
    LeftAre(images, gone);
    OrphansAre(images, inUse, p, now);
    NoOrphans(rest, inUse, p, now);
    forall app | app in SortedKeys(Apps(rest, inUse, p)) ensures OldOf(rest, app, inUse, p) == [] {
      NoneOldLeft(images, app, inUse, p, now, gone);
    }
    NoOldTags(rest, SortedKeys(Apps(rest, inUse, p)), inUse, p);
  }
}
