/** Every run of consents, exchanges, refreshes, revocations and restarts, with saves free to fail. */
module OAuthRuns {
  import opened Text
  import opened OAuth

  datatype Step =
    | Consent(code: nat, c: Code, now: int)
    | Exchange(code: nat, client: string, redirect: string, verifier: string, now: int, id: nat, token: nat,
               saved: bool)
    | Refresh(token: nat, client: string, now: int, next: nat, saved: bool)
    | Revoke(id: nat, saved: bool)
    | RevokeToken(token: nat, saved: bool)
    | Restart

  /** The store, and what has happened: the codes and grant ids drawn, the grant each refresh token was drawn for,
      and the codes and tokens that were answered with tokens, in order. */
  datatype Run =
    Run(store: Store, codes: set<nat>, ids: set<nat>, of: map<nat, nat>, spentCodes: seq<nat>, spentTokens: seq<nat>)

  /** A store with one client. */
  const OPENED := Run(Store({"app"}, [], map[], []), {}, {}, map[], [], [])

  /** Random values are new. */
  predicate Enabled(r: Run, step: Step) {
    match step
    case Consent(code, _, _) => code !in r.codes
    case Exchange(_, _, _, _, _, id, token, _) => id !in r.ids && token !in r.of
    case Refresh(_, _, _, next, _) => next !in r.of
    case _ => true
  }

  function Answered(r: Run, step: Step): (Store, Answer) {
    match step
    case Consent(code, c, now) => (WithCode(r.store, code, c, now), Invalid)
    case Exchange(code, client, redirect, verifier, now, id, token, saved) =>
      Exchanged(r.store, code, client, redirect, verifier, now, id, token, saved)
    case Refresh(token, client, now, next, saved) => Refreshed(r.store, token, client, now, next, saved)
    case Revoke(id, saved) => (Revoked(r.store, id, saved), Invalid)
    case RevokeToken(token, saved) => (RevokedByToken(r.store, token, saved), Invalid)
    case Restart => (Restarted(r.store), Invalid)
  }

  function Next(r: Run, step: Step): Run {
    var (s, a) := Answered(r, step);
    match step
    case Consent(code, _, _) => r.(store := s, codes := r.codes + {code})
    case Exchange(code, _, _, _, _, id, token, _) =>
      r.(store := s, ids := r.ids + {id}, of := r.of[token := id],
         spentCodes := if a.Tokens? then r.spentCodes + [code] else r.spentCodes)
    case Refresh(token, _, _, next, _) =>
      if a.Tokens? then r.(store := s, of := r.of[next := a.grant.id], spentTokens := r.spentTokens + [token])
      else r.(store := s)
    case _ => r.(store := s)
  }

  predicate NoRepeats(xs: seq<nat>) {
    forall i, j :: 0 <= i < j < |xs| ==> xs[i] != xs[j]
  }

  /** What a list of grants may hold: its tokens were drawn for it, the current one is not spent and the one before
      is. */
  predicate GrantOk(r: Run, g: Grant) {
    && g.id in r.ids
    && g.current in r.of && r.of[g.current] == g.id && g.current !in r.spentTokens
    && (g.prev.Some? ==> g.prev.value in r.of && r.of[g.prev.value] == g.id && g.prev.value in r.spentTokens)
  }

  predicate GrantsOk(r: Run, gs: seq<Grant>) {
    && (forall i :: 0 <= i < |gs| ==> GrantOk(r, gs[i]))
    && (forall i, j :: 0 <= i < j < |gs| ==> gs[i].id != gs[j].id)
  }

  predicate Inv(r: Run) {
    && GrantsOk(r, r.store.grants) && GrantsOk(r, r.store.disk)
    && (forall k :: k in r.store.codes ==> k in r.codes && k !in r.spentCodes)
    && (forall c :: c in r.spentCodes ==> c in r.codes)
    && (forall t :: t in r.spentTokens ==> t in r.of)
    && NoRepeats(r.spentCodes) && NoRepeats(r.spentTokens)
  }

  lemma WithoutOk(r: Run, gs: seq<Grant>, i: nat)
    requires GrantsOk(r, gs) && i < |gs|
    ensures GrantsOk(r, Without(gs, i))
  {
    var w := Without(gs, i);
    assert forall k :: 0 <= k < |w| ==> w[k] == gs[if k < i then k else k + 1];
  }

  lemma InvExchange(r: Run, step: Step)
    requires Inv(r) && Enabled(r, step) && step.Exchange?
    ensures Inv(Next(r, step))
  {
  }

  lemma InvRefresh(r: Run, step: Step)
    requires Inv(r) && Enabled(r, step) && step.Refresh?
    ensures Inv(Next(r, step))
  {
    var i := Owner(r.store.grants, step.token);
    if !Answered(r, step).1.Tokens? && i < |r.store.grants| {
      WithoutOk(r, r.store.grants, i);
    }
  }

  lemma InvNext(r: Run, step: Step)
    requires Inv(r) && Enabled(r, step)
    ensures Inv(Next(r, step))
  {
    match step
    case Exchange(_, _, _, _, _, _, _, _) => InvExchange(r, step);
    case Refresh(_, _, _, _, _) => InvRefresh(r, step);
    case Revoke(id, _) =>
      if IndexOfId(r.store.grants, id) < |r.store.grants| {
        WithoutOk(r, r.store.grants, IndexOfId(r.store.grants, id));
      }
    case RevokeToken(token, _) =>
      if CurrentOf(r.store.grants, token) < |r.store.grants| {
        WithoutOk(r, r.store.grants, CurrentOf(r.store.grants, token));
      }
    case _ =>
  }

  // ------------------------------------------------------------------- every run

  ghost predicate IsRun(runs: seq<Run>, steps: seq<Step>) {
    && |runs| == |steps| + 1 && Inv(runs[0])
    && forall k :: 0 <= k < |steps| ==> Enabled(runs[k], steps[k]) && runs[k + 1] == Next(runs[k], steps[k])
  }

  lemma {:induction false} InvRun(runs: seq<Run>, steps: seq<Step>, k: nat)
    requires IsRun(runs, steps) && k < |runs|
    ensures Inv(runs[k])
  {
    if k > 0 {
      InvRun(runs, steps, k - 1);
      InvNext(runs[k - 1], steps[k - 1]);
    }
  }

  /** Each code is answered with tokens at most once (section 4.1.2 of RFC 6749), and each refresh token refreshes
      at most once (section 6), whatever was revoked, lost by a failed save or restarted in between. */
  lemma SpentOnce(runs: seq<Run>, steps: seq<Step>, k: nat)
    requires IsRun(runs, steps) && k < |runs|
    ensures NoRepeats(runs[k].spentCodes) && NoRepeats(runs[k].spentTokens)
    ensures forall c :: c in runs[k].spentCodes ==> c !in runs[k].store.codes
    ensures forall i :: 0 <= i < |runs[k].store.grants| ==> runs[k].store.grants[i].current !in runs[k].spentTokens
  {
    InvRun(runs, steps, k);
    forall i | 0 <= i < |runs[k].store.grants| ensures runs[k].store.grants[i].current !in runs[k].spentTokens {
      assert GrantOk(runs[k], runs[k].store.grants[i]);
    }
  }

  // --------------------------------------------------------- where a grant comes from

  /** Nothing is held yet. */
  predicate Blank(r: Run) {
    r.store.grants == [] && r.store.disk == [] && r.store.codes == map[]
  }

  /** The ith step is the consent of that code. */
  predicate Consented(steps: seq<Step>, i: nat, code: nat, c: Code) {
    && i < |steps| && steps[i].Consent? && steps[i].code == code
    && steps[i].c.client == c.client && steps[i].c.redirect == c.redirect && steps[i].c.challenge == c.challenge
    && steps[i].c.user == c.user && c.expires == steps[i].now + 60
  }

  /** Every code held was consented to, a minute before it expires. */
  ghost predicate CodesConsented(r: Run, steps: seq<Step>, k: nat) {
    forall code :: code in r.store.codes ==> exists i :: 0 <= i < k && Consented(steps, i, code, r.store.codes[code])
  }

  lemma CodesStay(r: Run, steps: seq<Step>, k: nat)
    requires CodesConsented(r, steps, k) && k < |steps| && Enabled(r, steps[k])
    ensures CodesConsented(Next(r, steps[k]), steps, k + 1)
  {
    var after := Next(r, steps[k]).store.codes;
    forall code | code in after ensures exists i :: 0 <= i < k + 1 && Consented(steps, i, code, after[code]) {
      if steps[k].Consent? && steps[k].code == code {
        assert Consented(steps, k, code, after[code]);
      } else {
        assert code in r.store.codes && after[code] == r.store.codes[code];
        var i :| 0 <= i < k && Consented(steps, i, code, r.store.codes[code]);
      }
    }
  }

  /** The jth step exchanged the code of the ith for the grant: in time, for the client and the redirect consented to,
      and with the verifier of the challenge given then. */
  predicate GrantedBy(steps: seq<Step>, i: nat, j: nat, g: Grant) {
    && i < j < |steps| && steps[i].Consent? && steps[j].Exchange?
    && steps[j].code == steps[i].code && steps[j].id == g.id
    && steps[j].client == steps[i].c.client == g.client && steps[j].redirect == steps[i].c.redirect
    && steps[j].verifier == steps[i].c.challenge && steps[i].c.user == g.user
    && steps[j].now <= steps[i].now + 60
  }

  /** The jth step drew the grant's current token, for its client, 30 days before it expires. */
  predicate IssuedBy(steps: seq<Step>, j: nat, g: Grant) {
    j < |steps| && match steps[j]
      case Exchange(_, client, _, _, now, _, token, _) =>
        token == g.current && client == g.client && g.expires == now + 30 * 24 * 3600
      case Refresh(_, client, now, next, _) =>
        next == g.current && client == g.client && g.expires == now + 30 * 24 * 3600
      case _ => false
  }

  ghost predicate FromConsent(steps: seq<Step>, k: nat, g: Grant) {
    && (exists i: nat, j: nat :: j < k && GrantedBy(steps, i, j, g))
    && exists j: nat :: j < k && IssuedBy(steps, j, g)
  }

  ghost predicate AllFromConsent(r: Run, steps: seq<Step>, k: nat) {
    && (forall i :: 0 <= i < |r.store.grants| ==> FromConsent(steps, k, r.store.grants[i]))
    && forall i :: 0 <= i < |r.store.disk| ==> FromConsent(steps, k, r.store.disk[i])
  }

  lemma FromConsentLater(steps: seq<Step>, k: nat, g: Grant)
    requires FromConsent(steps, k, g)
    ensures FromConsent(steps, k + 1, g)
  {
    var i: nat, j: nat :| j < k && GrantedBy(steps, i, j, g);
    var l: nat :| l < k && IssuedBy(steps, l, g);
  }

  lemma ExchangeFromConsent(r: Run, steps: seq<Step>, k: nat)
    requires CodesConsented(r, steps, k) && k < |steps| && steps[k].Exchange?
    ensures var (s, a) := Answered(r, steps[k]); a.Tokens? ==>
      FromConsent(steps, k + 1, a.grant) && s.grants == r.store.grants + [a.grant] && s.disk == s.grants
  {
    var step := steps[k];
    if CodeFits(r.store, step.code, step.client, step.redirect, step.verifier, step.now) {
      var i :| 0 <= i < k && Consented(steps, i, step.code, r.store.codes[step.code]);
      var g := Grant(step.id, step.client, r.store.codes[step.code].user, step.token, None, step.now + REFRESH_TTL);
      assert GrantedBy(steps, i, k, g) && IssuedBy(steps, k, g);
    }
  }

  lemma RefreshFromConsent(r: Run, steps: seq<Step>, k: nat)
    requires AllFromConsent(r, steps, k) && k < |steps| && steps[k].Refresh?
    ensures Answered(r, steps[k]).1.Tokens? ==> FromConsent(steps, k + 1, Answered(r, steps[k]).1.grant)
  {
    var step := steps[k];
    var o := Owner(r.store.grants, step.token);
    if Answered(r, step).1.Tokens? {
      var g, h := r.store.grants[o], Answered(r, step).1.grant;
      var i: nat, j: nat :| j < k && GrantedBy(steps, i, j, g);
      assert GrantedBy(steps, i, j, h) && IssuedBy(steps, k, h);
    }
  }

  lemma AllFromConsentLater(r: Run, steps: seq<Step>, k: nat)
    requires AllFromConsent(r, steps, k)
    ensures AllFromConsent(r, steps, k + 1)
  {
    forall i | 0 <= i < |r.store.grants| ensures FromConsent(steps, k + 1, r.store.grants[i]) {
      FromConsentLater(steps, k, r.store.grants[i]);
    }
    forall i | 0 <= i < |r.store.disk| ensures FromConsent(steps, k + 1, r.store.disk[i]) {
      FromConsentLater(steps, k, r.store.disk[i]);
    }
  }

  /** Each grant of the one is among those of the other. */
  predicate Among(gs: seq<Grant>, hs: seq<Grant>) {
    forall i :: 0 <= i < |gs| ==> gs[i] in hs
  }

  lemma WithoutAmong(gs: seq<Grant>, i: nat)
    requires i < |gs|
    ensures Among(Without(gs, i), gs)
  {
  }

  function Known(s: Store, a: Answer): seq<Grant> {
    s.grants + s.disk + if a.Tokens? then [a.grant] else []
  }

  /** A refresh leaves grants that were held or saved, and the one it answers with. */
  lemma RefreshGrants(s: Store, token: nat, client: string, now: int, next: nat, saved: bool)
    ensures var (t, a) := Refreshed(s, token, client, now, next, saved);
      Among(t.grants, Known(s, a)) && Among(t.disk, Known(s, a))
  {
    var i := Owner(s.grants, token);
    if i < |s.grants| {
      WithoutAmong(s.grants, i);
    }
  }

  /** A step leaves grants that were held or saved, and the one it answers with. */
  lemma StepGrants(r: Run, step: Step)
    ensures var (s, a) := Answered(r, step); Among(s.grants, Known(r.store, a)) && Among(s.disk, Known(r.store, a))
  {
    match step
    case Refresh(token, client, now, next, saved) => RefreshGrants(r.store, token, client, now, next, saved);
    case Revoke(id, _) =>
      if IndexOfId(r.store.grants, id) < |r.store.grants| {
        WithoutAmong(r.store.grants, IndexOfId(r.store.grants, id));
      }
    case RevokeToken(token, _) =>
      if CurrentOf(r.store.grants, token) < |r.store.grants| {
        WithoutAmong(r.store.grants, CurrentOf(r.store.grants, token));
      }
    case _ =>
  }

  lemma KnownFromConsent(r: Run, steps: seq<Step>, k: nat, a: Answer, s: Store)
    requires AllFromConsent(r, steps, k) && (a.Tokens? ==> FromConsent(steps, k, a.grant))
    requires Among(s.grants, Known(r.store, a)) && Among(s.disk, Known(r.store, a))
    ensures AllFromConsent(r.(store := s), steps, k)
  {
  }

  lemma GrantsStay(r: Run, steps: seq<Step>, k: nat)
    requires CodesConsented(r, steps, k) && AllFromConsent(r, steps, k) && k < |steps| && Enabled(r, steps[k])
    ensures AllFromConsent(Next(r, steps[k]), steps, k + 1)
  {
    var (s, a) := Answered(r, steps[k]);
    AllFromConsentLater(r, steps, k);
    StepGrants(r, steps[k]);
    if steps[k].Exchange? {
      ExchangeFromConsent(r, steps, k);
    } else if steps[k].Refresh? {
      RefreshFromConsent(r, steps, k);
    }
    KnownFromConsent(r, steps, k + 1, a, s);
  }

  /** Over every run from a blank store: each grant held or saved comes from a consent, whose code was exchanged within
      a minute for the client, the redirect and the challenge of that consent; and its current token was drawn for that
      client 30 days before it expires. */
  lemma {:induction false} GrantsComeFromConsents(runs: seq<Run>, steps: seq<Step>, k: nat)
    requires IsRun(runs, steps) && Blank(runs[0]) && k < |runs|
    ensures CodesConsented(runs[k], steps, k) && AllFromConsent(runs[k], steps, k)
  {
    if k > 0 {
      GrantsComeFromConsents(runs, steps, k - 1);
      CodesStay(runs[k - 1], steps, k - 1);
      GrantsStay(runs[k - 1], steps, k - 1);
    }
  }

  /** A refresh that is answered presents a token that an earlier step drew for its client, at most 30 days ago, and
      that no refresh has used since. */
  lemma {:induction false} RefreshIsOfItsClient(runs: seq<Run>, steps: seq<Step>, k: nat) returns (j: nat)
    requires IsRun(runs, steps) && Blank(runs[0]) && k < |steps| && steps[k].Refresh?
    requires Answered(runs[k], steps[k]).1.Tokens?
    ensures j < k && match steps[j]
      case Exchange(_, client, _, _, now, _, token, _) =>
        token == steps[k].token && client == steps[k].client && steps[k].now <= now + 30 * 24 * 3600
      case Refresh(_, client, now, next, _) =>
        next == steps[k].token && client == steps[k].client && steps[k].now <= now + 30 * 24 * 3600
      case _ => false
    ensures steps[k].token !in runs[k].spentTokens
  {
    GrantsComeFromConsents(runs, steps, k);
    InvRun(runs, steps, k);
    var g := runs[k].store.grants[Owner(runs[k].store.grants, steps[k].token)];
    assert FromConsent(steps, k, g) && GrantOk(runs[k], g);
    j :| j < k && IssuedBy(steps, j, g);
    assert g.current == steps[k].token && g.client == steps[k].client && steps[k].now <= g.expires;
  }

  // ---------------------------------------------------------------------- replays

  predicate Holds(gs: seq<Grant>, id: nat) {
    exists i :: 0 <= i < |gs| && gs[i].id == id
  }

  /** The token before the current one, presented again by anybody, takes the grant away; a failed save leaves the
      grant on disk, so it is gone for good exactly when the save went through. This is read off what Refresh does,
      given the invariant of the runs. */
  lemma ReplayRevokes(r: Run, i: nat, client: string, now: int, next: nat, saved: bool)
    requires Inv(r) && i < |r.store.grants| && r.store.grants[i].prev.Some? && next !in r.of
    ensures var g := r.store.grants[i]; var step := Refresh(g.prev.value, client, now, next, saved);
      && Answered(r, step).1 == Invalid
      && !Accepts(Next(r, step).store, g.id)
      && (Holds(Next(r, step).store.disk, g.id) <==> !saved && Holds(r.store.disk, g.id))
  {
    var gs := r.store.grants;
    var g := gs[i];
    assert GrantOk(r, g);
    var j := Owner(gs, g.prev.value);
    assert GrantOk(r, gs[j]);
  }

  /** A grant that is neither held nor on disk never comes back, and none of its tokens, old or current, is
      accepted or answered. */
  lemma GoneForGood(r: Run, step: Step, id: nat)
    requires Inv(r) && Enabled(r, step) && id in r.ids
    requires !Holds(r.store.grants, id) && !Holds(r.store.disk, id)
    ensures !Holds(Next(r, step).store.grants, id) && !Holds(Next(r, step).store.disk, id)
    ensures Answered(r, step).1.Tokens? ==> Answered(r, step).1.grant.id != id
    ensures !Accepts(Next(r, step).store, id)
  {
  }

  /** Its refresh tokens are unknown: presenting one changes nothing. */
  lemma GoneTokensUnknown(r: Run, token: nat, client: string, now: int, next: nat, saved: bool)
    requires Inv(r) && token in r.of && !Holds(r.store.grants, r.of[token])
    ensures Refreshed(r.store, token, client, now, next, saved) == (r.store, Invalid)
  {
  }

  /** Over a whole run: once the replay's save went through, the grant is never held, saved or answered again. */
  lemma {:induction false} GoneThroughout(runs: seq<Run>, steps: seq<Step>, k: nat, l: nat, id: nat)
    requires IsRun(runs, steps) && k <= l < |runs| && id in runs[k].ids
    requires !Holds(runs[k].store.grants, id) && !Holds(runs[k].store.disk, id)
    ensures id in runs[l].ids && !Holds(runs[l].store.grants, id) && !Holds(runs[l].store.disk, id)
    decreases l
  {
    if k < l {
      GoneThroughout(runs, steps, k, l - 1, id);
      InvRun(runs, steps, l - 1);
      GoneForGood(runs[l - 1], steps[l - 1], id);
    }
  }

  /** A restart brings a revoked grant back exactly when the save of the revocation failed and it had been saved
      before. */
  lemma RestartUndoesRevocation(r: Run, i: nat, client: string, now: int, next: nat, saved: bool)
    requires Inv(r) && i < |r.store.grants| && r.store.grants[i].prev.Some? && next !in r.of
    ensures var g := r.store.grants[i]; var replayed := Next(r, Refresh(g.prev.value, client, now, next, saved));
      Accepts(Next(replayed, Restart).store, g.id) <==> !saved && Holds(r.store.disk, g.id)
  {
    ReplayRevokes(r, i, client, now, next, saved);
    var g := r.store.grants[i];
    var replayed := Next(r, Refresh(g.prev.value, client, now, next, saved));
    assert Accepts(Next(replayed, Restart).store, g.id) <==> Holds(replayed.store.disk, g.id);
  }

  function Verifier(): (v: string)
    ensures ValidVerifier(v)
  {
    seq(43, _ => 'v')
  }

  const CONSENT := Consent(7, Code("app", "uri", Verifier(), "me", 0), 0)
  const EXCHANGE := Exchange(7, "app", "uri", Verifier(), 0, 1, 1, true)

  /** A grant of one token, or of a second one after it, held and saved. */
  function Granted(prev: Option<nat>): Run {
    var gs := [Grant(1, "app", "me", if prev.Some? then 2 else 1, prev, REFRESH_TTL)];
    var of := map[1 as nat := 1 as nat];
    Run(Store({"app"}, gs, map[], gs), {7}, {1}, if prev.Some? then of[2 := 1] else of, [7],
        if prev.Some? then [1] else [])
  }

  lemma ExchangeGrants()
    ensures Next(Next(OPENED, CONSENT), EXCHANGE) == Granted(None)
  {
    var r1 := Next(OPENED, CONSENT);
    assert r1.store.codes == map[7 as nat := CONSENT.c.(expires := CODE_TTL)];
    assert r1.store.codes - {7} == map[];
    assert OPENED.spentCodes + [7] == [7] && r1.store.grants + Granted(None).store.grants == Granted(None).store.grants;
  }

  lemma RefreshRotates()
    ensures Next(Granted(None), Refresh(1, "app", 0, 2, true)) == Granted(Some(1))
  {
    var r := Granted(None);
    assert Owner(r.store.grants, 1) == 0;
    assert r.store.grants[0 := Granted(Some(1)).store.grants[0]] == Granted(Some(1)).store.grants;
    assert r.spentTokens + [1] == [1];
  }

  lemma ReplayTakesAway(r: Run)
    requires r == Granted(Some(1))
    ensures Next(r, Refresh(1, "app", 0, 3, false)) == r.(store := r.store.(grants := []))
  {
    assert Owner(r.store.grants, 1) == 0;
    assert Without(r.store.grants, 0) == [];
  }

  lemma RunSnoc(runs: seq<Run>, steps: seq<Step>, step: Step, after: Run)
    requires IsRun(runs, steps) && Enabled(runs[|steps|], step) && after == Next(runs[|steps|], step)
    ensures IsRun(runs + [after], steps + [step])
  {
  }

  /** A code is exchanged and the token refreshed. */
  lemma GrantedRun() returns (runs: seq<Run>, steps: seq<Step>)
    ensures IsRun(runs, steps) && runs[0] == OPENED && |steps| == 3 && runs[3] == Granted(Some(1))
  {
    ExchangeGrants();
    RefreshRotates();
    runs, steps := [OPENED, Next(OPENED, CONSENT)], [CONSENT];
    RunSnoc([OPENED], [], CONSENT, Next(OPENED, CONSENT));
    assert [OPENED] + [Next(OPENED, CONSENT)] == runs && [] + [CONSENT] == steps;
    RunSnoc(runs, steps, EXCHANGE, Granted(None));
    runs, steps := runs + [Granted(None)], steps + [EXCHANGE];
    RunSnoc(runs, steps, Refresh(1, "app", 0, 2, true), Granted(Some(1)));
    runs, steps := runs + [Granted(Some(1))], steps + [Refresh(1, "app", 0, 2, true)];
  }

  /** Then the old token is replayed while nothing can be saved, and the daemon restarted: the grant that the replay
      took away is accepted again. */
  lemma ReplayComesBack() returns (runs: seq<Run>, steps: seq<Step>)
    ensures IsRun(runs, steps) && runs[0] == OPENED && |steps| == 5
    ensures steps[3] == Refresh(1, "app", 0, 3, false) && steps[4] == Restart
    ensures Accepts(runs[3].store, 1) && !Accepts(runs[4].store, 1) && Accepts(runs[5].store, 1)
  {
    var granted := Granted(Some(1));
    var gone := granted.(store := granted.store.(grants := []));
    runs, steps := GrantedRun();
    ReplayTakesAway(granted);
    RunSnoc(runs, steps, Refresh(1, "app", 0, 3, false), gone);
    RunSnoc(runs + [gone], steps + [Refresh(1, "app", 0, 3, false)], Restart, Next(gone, Restart));
    assert granted.store.grants[0].id == 1 && Next(gone, Restart).store.grants[0].id == 1;
    runs, steps := runs + [gone] + [Next(gone, Restart)], steps + [Refresh(1, "app", 0, 3, false)] + [Restart];
  }
}
