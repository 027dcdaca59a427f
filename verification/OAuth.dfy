/** Codes, grants and refresh tokens (pkg/server/oauth.go). Hashes are injective, so a hash stands for its token;
    random values are fresh: no value is issued twice. */
module OAuth {
  import opened Text

  const CODE_TTL: int := 60
  const REFRESH_TTL: int := 30 * 24 * 3600

  datatype Grant = Grant(id: nat, client: string, user: string, current: nat, prev: Option<nat>, expires: int)

  /** A code answers to the verifier whose hash its challenge is. */
  datatype Code = Code(client: string, redirect: string, challenge: string, user: string, expires: int)

  /** What the daemon holds, and the grants as last saved. */
  datatype Store = Store(clients: set<string>, grants: seq<Grant>, codes: map<nat, Code>, disk: seq<Grant>)

  datatype Answer = Tokens(grant: Grant) | Invalid | Failed

  predicate ValidVerifier(v: string) {
    && 43 <= |v| <= 128
    && forall c :: c in v ==> Unreserved(c)
  }

  predicate Unreserved(c: char) {
    'a' <= c <= 'z' || 'A' <= c <= 'Z' || '0' <= c <= '9' || c in "-._~"
  }

  function Without(grants: seq<Grant>, i: nat): seq<Grant>
    requires i < |grants|
  {
    grants[..i] + grants[i + 1..]
  }

  /** The first grant the token is the current or the previous one of, or |grants|. */
  function Owner(grants: seq<Grant>, token: nat): (i: nat)
    ensures i <= |grants|
    ensures i < |grants| ==> grants[i].prev == Some(token) || grants[i].current == token
    ensures forall j :: 0 <= j < i ==> grants[j].prev != Some(token) && grants[j].current != token
  {
    if grants == [] || grants[0].prev == Some(token) || grants[0].current == token then 0
    else 1 + Owner(grants[1..], token)
  }

  function Saved(s: Store, saved: bool): Store {
    if saved then s.(disk := s.grants) else s
  }

  // ----------------------------------------------------------------------- steps

  function WithCode(s: Store, code: nat, c: Code, now: int): Store {
    var live := map k | k in s.codes && now <= s.codes[k].expires :: s.codes[k];
    s.(codes := live[code := c.(expires := now + CODE_TTL)])
  }

  predicate CodeFits(s: Store, code: nat, client: string, redirect: string, verifier: string, now: int) {
    && code in s.codes && now <= s.codes[code].expires
    && s.codes[code].client == client && s.codes[code].redirect == redirect
    && ValidVerifier(verifier) && s.codes[code].challenge == verifier
    && client in s.clients
  }

  /** The code is used up whatever the outcome; id and token are random. */
  function Exchanged(s: Store, code: nat, client: string, redirect: string, verifier: string, now: int,
                     id: nat, token: nat, saved: bool): (Store, Answer) {
    var spent := s.(codes := s.codes - {code});
    if !CodeFits(s, code, client, redirect, verifier, now) then (spent, Invalid)
    else
      var g := Grant(id, client, s.codes[code].user, token, None, now + REFRESH_TTL);
      if saved then (Saved(spent.(grants := s.grants + [g]), true), Tokens(g)) else (spent, Failed)
  }

  /** A current token rotates; the one before it takes the grant away. */
  function Refreshed(s: Store, token: nat, client: string, now: int, next: nat, saved: bool): (Store, Answer) {
    var i := Owner(s.grants, token);
    if i == |s.grants| then (s, Invalid)
    else
      var g := s.grants[i];
      if g.prev == Some(token) then (Saved(s.(grants := Without(s.grants, i)), saved), Invalid)
      else if g.client != client || now > g.expires then (s, Invalid)
      else
        var h := g.(prev := Some(g.current), current := next, expires := now + REFRESH_TTL);
        if saved then (Saved(s.(grants := s.grants[i := h]), true), Tokens(h)) else (s, Failed)
  }

  function IndexOfId(grants: seq<Grant>, id: nat): (i: nat)
    ensures i <= |grants|
    ensures i < |grants| ==> grants[i].id == id
    ensures forall j :: 0 <= j < i ==> grants[j].id != id
  {
    if grants == [] || grants[0].id == id then 0 else 1 + IndexOfId(grants[1..], id)
  }

  function Revoked(s: Store, id: nat, saved: bool): Store {
    var i := IndexOfId(s.grants, id);
    if i == |s.grants| then s else Saved(s.(grants := Without(s.grants, i)), saved)
  }

  function CurrentOf(grants: seq<Grant>, token: nat): (i: nat)
    ensures i <= |grants|
    ensures i < |grants| ==> grants[i].current == token
    ensures forall j :: 0 <= j < i ==> grants[j].current != token
  {
    if grants == [] || grants[0].current == token then 0 else 1 + CurrentOf(grants[1..], token)
  }

  function RevokedByToken(s: Store, token: nat, saved: bool): Store {
    var i := CurrentOf(s.grants, token);
    if i == |s.grants| then s else Saved(s.(grants := Without(s.grants, i)), saved)
  }

  /** A restart loads what was saved and forgets the codes. */
  function Restarted(s: Store): Store {
    s.(grants := s.disk, codes := map[])
  }

  /** Whether a genuine, unexpired access token of the grant is accepted. */
  predicate Accepts(s: Store, id: nat) {
    exists i :: 0 <= i < |s.grants| && s.grants[i].id == id
  }

  // ------------------------------------------------------------------- the store

  /** The first grant the token is of, its current one or the one before. */
  predicate IsFirst(grants: seq<Grant>, token: nat, i: nat) {
    && i < |grants| && (grants[i].current == token || grants[i].prev == Some(token))
    && forall j :: 0 <= j < i ==> grants[j].current != token && grants[j].prev != Some(token)
  }

  class OAuthStore {
    var clients: set<string>
    var grants: seq<Grant>
    var codes: map<nat, Code>
    ghost var disk: seq<Grant>
    ghost var saves: seq<bool>  // each save so far, and whether it went through

    ghost function State(): Store
      reads this
    {
      Store(clients, grants, codes, disk)
    }

    method Save() returns (ok: bool)
      modifies this
      ensures State() == Saved(old(State()), ok) && saves == old(saves) + [ok]
    {
      ok := *;
      saves := saves + [ok];
      if ok {
        disk := grants;
      }
    }

    method NewCode(code: nat, c: Code, now: int)
      modifies this
      ensures State() == WithCode(old(State()), code, c, now) && saves == old(saves)
      ensures code in codes && codes[code] == Code(c.client, c.redirect, c.challenge, c.user, now + 60)
      ensures forall k :: k in codes && k != code ==>
        k in old(codes) && codes[k] == old(codes)[k] && now <= codes[k].expires
      ensures forall k :: k in old(codes) && now <= old(codes)[k].expires ==> k in codes
      ensures grants == old(grants) && disk == old(disk) && clients == old(clients)
    {
      var todo := codes.Keys;
      while todo != {}
        invariant todo <= old(codes).Keys && clients == old(clients) && grants == old(grants) && disk == old(disk)
        invariant saves == old(saves)
        invariant codes == map k | k in old(codes) && (k in todo || now <= old(codes)[k].expires) :: old(codes)[k]
      {
        var k :| k in todo;
        if now > codes[k].expires {
          codes := codes - {k};
        }
        todo := todo - {k};
      }
      codes := codes[code := c.(expires := now + CODE_TTL)];
    }

    method ExchangeCode(code: nat, client: string, redirect: string, verifier: string, now: int, id: nat, token: nat)
      returns (r: Answer)
      modifies this
      ensures exists saved ::
        (State(), r) == Exchanged(old(State()), code, client, redirect, verifier, now, id, token, saved)
      ensures codes == old(codes) - {code} && clients == old(clients)
      ensures r.Tokens? || r.Failed? <==>
        && code in old(codes) && now <= old(codes)[code].expires
        && old(codes)[code].client == client && old(codes)[code].redirect == redirect
        && 43 <= |verifier| <= 128 && (forall c :: c in verifier ==> Unreserved(c))
        && old(codes)[code].challenge == verifier && client in clients
      ensures r.Tokens? ==>
        && r.grant == Grant(id, client, old(codes)[code].user, token, None, now + 30 * 24 * 3600)
        && grants == old(grants) + [r.grant] && disk == grants
      ensures !r.Tokens? ==> grants == old(grants) && disk == old(disk)
      ensures saves == old(saves) + if r.Invalid? then [] else [r.Tokens?]
    {
      ghost var s := State();
      var ok := code in codes;
      var c := if ok then codes[code] else Code("", "", "", "", 0);
      codes := codes - {code};
      if !ok || now > c.expires || c.client != client || c.redirect != redirect {
        assert (State(), Invalid) == Exchanged(s, code, client, redirect, verifier, now, id, token, false);
        return Invalid;
      }
      if !ValidVerifier(verifier) || c.challenge != verifier || client !in clients {
        assert (State(), Invalid) == Exchanged(s, code, client, redirect, verifier, now, id, token, false);
        return Invalid;
      }
      var g := Grant(id, client, c.user, token, None, now + REFRESH_TTL);
      grants := grants + [g];
      var saved := Save();
      if !saved {
        grants := grants[..|grants| - 1];
        r := Failed;
      } else {
        r := Tokens(g);
      }
      assert (State(), r) == Exchanged(s, code, client, redirect, verifier, now, id, token, saved);
    }

    method Refresh(token: nat, client: string, now: int, next: nat) returns (r: Answer)
      modifies this
      ensures exists saved :: (State(), r) == Refreshed(old(State()), token, client, now, next, saved)
      ensures codes == old(codes) && clients == old(clients)
      ensures r.Tokens? || r.Failed? <==>
        exists i :: 0 <= i < |old(grants)| && IsFirst(old(grants), token, i) && old(grants)[i].prev != Some(token)
                    && old(grants)[i].client == client && now <= old(grants)[i].expires
      ensures r.Tokens? ==> exists i ::
        && 0 <= i < |old(grants)| && IsFirst(old(grants), token, i) && old(grants)[i].current == token
        && r.grant == Grant(old(grants)[i].id, client, old(grants)[i].user, next, Some(token), now + 30 * 24 * 3600)
        && grants == old(grants)[i := r.grant] && disk == grants
      ensures !r.Tokens? ==>
        || grants == old(grants)
        || exists i :: 0 <= i < |old(grants)| && IsFirst(old(grants), token, i) && old(grants)[i].prev == Some(token)
                       && grants == old(grants)[..i] + old(grants)[i + 1..]
      ensures (exists i :: 0 <= i < |old(grants)| && IsFirst(old(grants), token, i)
                           && old(grants)[i].prev == Some(token)) ==> |grants| == |old(grants)| - 1 && r == Invalid
      ensures r.Failed? ==> saves == old(saves) + [false]
    {
      ghost var s := State();
      for i := 0 to |grants|
        invariant State() == s
        invariant forall j :: 0 <= j < i ==> grants[j].prev != Some(token) && grants[j].current != token
      {
        var g := grants[i];
        if g.prev == Some(token) {
          assert Owner(s.grants, token) == i;
          grants := grants[..i] + grants[i + 1..];
          var saved := Save();
          assert (State(), Invalid) == Refreshed(s, token, client, now, next, saved);
          return Invalid;
        }
        if g.current != token {
          continue;
        }
        assert Owner(s.grants, token) == i;
        if g.client != client || now > g.expires {
          assert (State(), Invalid) == Refreshed(s, token, client, now, next, false);
          return Invalid;
        }
        grants := grants[i := g.(prev := Some(g.current), current := next, expires := now + REFRESH_TTL)];
        var saved := Save();
        if !saved {
          grants := grants[i := g];
          assert grants == s.grants;
          r := Failed;
        } else {
          r := Tokens(grants[i]);
        }
        assert (State(), r) == Refreshed(s, token, client, now, next, saved);
        return;
      }
      assert Owner(s.grants, token) == |s.grants|;
      assert (State(), Invalid) == Refreshed(s, token, client, now, next, false);
      return Invalid;
    }

    method Revoke(id: nat) returns (found: bool)
      modifies this
      ensures exists saved :: State() == Revoked(old(State()), id, saved)
      ensures found <==> exists i :: 0 <= i < |old(grants)| && old(grants)[i].id == id
      ensures !found ==> State() == old(State()) && saves == old(saves)
      ensures found ==> |saves| == |old(saves)| + 1 && exists i ::
        && 0 <= i < |old(grants)| && old(grants)[i].id == id && grants == old(grants)[..i] + old(grants)[i + 1..]
    {
      ghost var s := State();
      for i := 0 to |grants|
        invariant State() == s && saves == old(saves)
        invariant forall j :: 0 <= j < i ==> grants[j].id != id
      {
        if grants[i].id == id {
          assert IndexOfId(s.grants, id) == i;
          grants := grants[..i] + grants[i + 1..];
          var saved := Save();
          assert State() == Revoked(s, id, saved);
          return true;
        }
      }
      assert State() == Revoked(s, id, false);
      return false;
    }

    method RevokeRefresh(token: nat)
      modifies this
      ensures exists saved :: State() == RevokedByToken(old(State()), token, saved)
      ensures (exists i :: 0 <= i < |old(grants)| && old(grants)[i].current == token) ==>
        |saves| == |old(saves)| + 1 && exists i ::
          && 0 <= i < |old(grants)| && old(grants)[i].current == token
          && grants == old(grants)[..i] + old(grants)[i + 1..]
      ensures (forall i :: 0 <= i < |old(grants)| ==> old(grants)[i].current != token) ==>
        State() == old(State()) && saves == old(saves)
    {
      ghost var s := State();
      for i := 0 to |grants|
        invariant State() == s && saves == old(saves)
        invariant forall j :: 0 <= j < i ==> grants[j].current != token
      {
        if grants[i].current == token {
          assert CurrentOf(s.grants, token) == i;
          grants := grants[..i] + grants[i + 1..];
          var saved := Save();
          assert State() == RevokedByToken(s, token, saved);
          return;
        }
      }
      assert State() == RevokedByToken(s, token, false);
    }
  }
}
