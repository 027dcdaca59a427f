/** Which host's daemon writes which DNS record (pkg/config/dns.go, hosts.go). Letters are ASCII; trimming and
    addresses are as read from fleet.yml. */
module DnsHosts {
  import opened Text
  import DnsSync

  /** A dns_records entry; zone and service may be "". */
  datatype Entry =
    Entry(typ: string, name: string, zone: string, value: string, ttl: int, priority: int, service: string)

  datatype Service = Service(name: string, host: string, routed: bool, domain: string)

  /** fleet.yml: domain may be "", addresses are of the hosts that have an IP address. */
  datatype Fleet = Fleet(domain: string, defaultHost: string, hosts: set<string>, addresses: map<string, Address>,
                         records: seq<Entry>)

  datatype Address = Address(text: string, v4: bool)

  /** A record with the host that writes it. */
  datatype HostRecord =
    HostRecord(typ: string, name: string, value: string, ttl: int, priority: int, zone: string, host: string)

  /** What a record is told apart by. */
  datatype Key = Key(zone: string, name: string, typ: string)

  function KeyOf(r: HostRecord): Key {
    Key(DnsSync.Lower(r.zone), DnsSync.Lower(r.name), DnsSync.Upper(r.typ))
  }

  datatype Result<T> = Ok(value: T) | Err(error: Error)

  datatype Error =
    | NoZone | NoService | WildcardService | ValueGiven | NoAddress | WrongFamily | WildcardRoute | ApexRoute
    | TwoHosts | CnameClash

  function HostOf(f: Fleet, s: Service): string {
    if s.host != "" then s.host else f.defaultHost
  }

  predicate IsAddressType(typ: string) {
    DnsSync.Upper(typ) in ["A", "AAAA"]
  }

  /** What an address record of that type says of the host, whose address must be of its family. */
  function AddressFor(f: Fleet, host: string, typ: string): Result<string> {
    if host !in f.hosts || host !in f.addresses then Err(NoAddress)
    else if (DnsSync.Upper(typ) == "A") != f.addresses[host].v4 then Err(WrongFamily)
    else Ok(f.addresses[host].text)
  }

  function TrimDot(s: string): string {
    if s != "" && s[|s| - 1] == '.' then s[..|s| - 1] else s
  }

  predicate HasSuffix(s: string, suffix: string) {
    |suffix| <= |s| && s[|s| - |suffix|..] == suffix
  }

  /** The record of one dns_records entry. */
  function EntryRecord(f: Fleet, services: map<string, Service>, e: Entry): Result<HostRecord> {
    var zone := if Trim(e.zone) == "" then Trim(f.domain) else Trim(e.zone);
    if zone == "" then Err(NoZone)
    else if e.service == "" then Ok(HostRecord(e.typ, e.name, e.value, e.ttl, e.priority, zone, f.defaultHost))
    else if e.service !in services then Err(NoService)
    else if '*' in e.name then Err(WildcardService)
    else
      var host := HostOf(f, services[e.service]);
      if !IsAddressType(e.typ) then Ok(HostRecord(e.typ, e.name, e.value, e.ttl, e.priority, zone, host))
      else if Trim(e.value) != "" then Err(ValueGiven)
      else match AddressFor(f, host, e.typ)
        case Err(error) => Err(error)
        case Ok(v) => Ok(HostRecord(e.typ, e.name, v, e.ttl, e.priority, zone, host))
  }

  /** The record of a service's route, if it needs one of its own. */
  function RouteRecord(f: Fleet, s: Service): Result<Option<HostRecord>> {
    var host := HostOf(f, s);
    if host == f.defaultHost || !s.routed || Trim(s.domain) == "" then Ok(None) else
      var domain := DnsSync.Lower(TrimDot(Trim(s.domain)));
      var zone := DnsSync.Lower(TrimDot(Trim(f.domain)));
      if '*' in domain then Err(WildcardRoute)
      else if zone == "" then Ok(None)
      else if !HasSuffix(domain, "." + zone) then if domain == zone then Err(ApexRoute) else Ok(None)
      else match AddressFor(f, host, "A")
        case Err(error) => Err(error)
        case Ok(v) => Ok(Some(HostRecord("A", domain[..|domain| - |zone| - 1], v, 0, 0, Trim(f.domain), host)))
  }

  predicate IsCname(typ: string) {
    DnsSync.Upper(typ) == "CNAME"
  }

  /** Two records that are at odds: the same record for two hosts, or a name two hosts share with a CNAME. */
  predicate AtOdds(r: HostRecord, o: HostRecord) {
    && r.host != o.host
    && KeyOf(r).zone == KeyOf(o).zone && KeyOf(r).name == KeyOf(o).name
    && (KeyOf(r).typ == KeyOf(o).typ || IsCname(r.typ) || IsCname(o.typ))
  }

  /** The apex and the wildcard of the domain, which the default host writes. */
  function Reserved(f: Fleet): seq<HostRecord> {
    if Trim(f.domain) == "" || f.defaultHost == "" then [] else
      [HostRecord("A", "@", "", 0, 0, Trim(f.domain), f.defaultHost),
       HostRecord("A", "*", "", 0, 0, Trim(f.domain), f.defaultHost)]
  }

  // ---------------------------------------------------------------- every record

  function ByName(services: seq<Service>): map<string, Service> {
    if services == [] then map[] else
      ByName(services[..|services| - 1])[services[|services| - 1].name := services[|services| - 1]]
  }

  function EntryRecords(f: Fleet, services: map<string, Service>, es: seq<Entry>): Result<seq<HostRecord>> {
    if es == [] then Ok([]) else
      match EntryRecords(f, services, es[..|es| - 1])
      case Err(error) => Err(error)
      case Ok(rs) =>
        match EntryRecord(f, services, es[|es| - 1])
        case Err(error) => Err(error)
        case Ok(r) => Ok(rs + [r])
  }

  function RouteRecords(f: Fleet, services: map<string, Service>, names: seq<string>): Result<seq<HostRecord>> {
    if names == [] then Ok([]) else
      match RouteRecords(f, services, names[..|names| - 1])
      case Err(error) => Err(error)
      case Ok(rs) =>
        if names[|names| - 1] !in services then Ok(rs) else
        match RouteRecord(f, services[names[|names| - 1]])
        case Err(error) => Err(error)
        case Ok(None) => Ok(rs)
        case Ok(Some(r)) => Ok(rs + [r])
  }

  /** Every record that can be placed: the declared ones in order, then the routes' by service. */
  ghost function Placed(f: Fleet, services: seq<Service>): Result<seq<HostRecord>> {
    match EntryRecords(f, ByName(services), f.records)
    case Err(error) => Err(error)
    case Ok(rs) =>
      if |f.hosts| < 2 then Ok(rs) else
      match RouteRecords(f, ByName(services), SortedKeys(ByName(services).Keys))
      case Err(error) => Err(error)
      case Ok(more) => Ok(rs + more)
  }

  /** No two of the records, the reserved ones included, are at odds. */
  predicate InAgreement(rs: seq<HostRecord>) {
    forall r, o :: r in rs && o in rs ==> !AtOdds(r, o)
  }

  /** The records every host's daemon works from: all of them can be placed, and no two are at odds. */
  ghost predicate Answers(f: Fleet, services: seq<Service>, rs: seq<HostRecord>) {
    Placed(f, services) == Ok(rs) && InAgreement(rs + Reserved(f))
  }

  method DNSRecordsByHost(f: Fleet, services: seq<Service>) returns (r: Result<seq<HostRecord>>)
    ensures forall rs :: r == Ok(rs) <==> Answers(f, services, rs)
    ensures match Placed(f, services)
      case Err(error) => r == Err(error)
      case Ok(rs) => if InAgreement(rs + Reserved(f)) then r == Ok(rs) else r in {Err(TwoHosts), Err(CnameClash)}
    ensures r.Ok? ==> AllPlaced(f, services, r.value)
    ensures r.Ok? || r.error in {TwoHosts, CnameClash} <==> Placeable(f, services)
  {
    r := PlaceAll(f, services);
    PlacedIff(f, services);
    PlacedErrors(f, services);
    if r.Ok? {
      PlacedAre(f, services);
      r := CheckOwners(f, r.value);
    }
  }

  method PlaceAll(f: Fleet, services: seq<Service>) returns (r: Result<seq<HostRecord>>)
    ensures r == Placed(f, services)
  {
    var byName: map<string, Service> := map[];
    for n := 0 to |services|
      invariant byName == ByName(services[..n])
    {
      assert services[..n + 1][..n] == services[..n];
      byName := byName[services[n].name := services[n]];
    }
    assert services[..|services|] == services;
    r := DeclaredRecords(f, byName);
    if r.Err? || |f.hosts| < 2 {
      return;
    }
    var routed := RoutedRecords(f, byName);
    if routed.Err? {
      return routed;
    }
    r := Ok(r.value + routed.value);
  }

  lemma PlacedErrors(f: Fleet, services: seq<Service>)
    ensures Placed(f, services).Err? ==> Placed(f, services).error !in {TwoHosts, CnameClash}
  {
    EntryErrors(f, ByName(services), f.records);
    RouteErrors(f, ByName(services), SortedKeys(ByName(services).Keys));
  }

  lemma {:induction false} EntryErrors(f: Fleet, services: map<string, Service>, es: seq<Entry>)
    ensures EntryRecords(f, services, es).Err? ==> EntryRecords(f, services, es).error !in {TwoHosts, CnameClash}
  {
    if es != [] {
      EntryErrors(f, services, es[..|es| - 1]);
    }
  }

  lemma {:induction false} RouteErrors(f: Fleet, services: map<string, Service>, names: seq<string>)
    ensures RouteRecords(f, services, names).Err? ==> RouteRecords(f, services, names).error !in {TwoHosts, CnameClash}
  {
    if names != [] {
      RouteErrors(f, services, names[..|names| - 1]);
    }
  }

  /** Refuses records that are at odds, with one another or with the reserved ones. */
  method CheckOwners(f: Fleet, out: seq<HostRecord>) returns (r: Result<seq<HostRecord>>)
    ensures if InAgreement(out + Reserved(f)) then r == Ok(out) else r in {Err(TwoHosts), Err(CnameClash)}
  {
    ReservedDiffer(f);
    var ok, owner := ClaimAll(out, Reserved(f));
    if !ok {
      return Err(TwoHosts);
    }
    var clash := FindCnameClash(out, owner);
    if clash {
      CnameClashIsOdds(out, Reserved(f), owner);
      return Err(CnameClash);
    }
    r := Ok(out);
  }

  lemma ReservedDiffer(f: Fleet)
    ensures forall i, j :: 0 <= i < j < |Reserved(f)| ==> KeyOf(Reserved(f)[i]) != KeyOf(Reserved(f)[j])
  {
    assert DnsSync.Lower("@") == "@" && DnsSync.Lower("*") == "*" by {
      assert "@"[1..] == "" && "*"[1..] == "";
    }
  }

  method DeclaredRecords(f: Fleet, services: map<string, Service>) returns (r: Result<seq<HostRecord>>)
    ensures r == EntryRecords(f, services, f.records)
  {
    var out: seq<HostRecord> := [];
    var es := f.records;
    for n := 0 to |es|
      invariant EntryRecords(f, services, es[..n]) == Ok(out)
    {
      EntryStep(f, services, es, n);
      match EntryRecord(f, services, es[n]) {
        case Err(error) =>
          EntryErrStays(f, services, es, n + 1);
          return Err(error);
        case Ok(rec) => out := out + [rec];
      }
    }
    assert es[..|es|] == es;
    r := Ok(out);
  }

  lemma EntryStep(f: Fleet, services: map<string, Service>, es: seq<Entry>, n: nat)
    requires n < |es| && EntryRecords(f, services, es[..n]).Ok?
    ensures EntryRecords(f, services, es[..n + 1]) ==
      match EntryRecord(f, services, es[n])
      case Err(error) => Err(error)
      case Ok(r) => Ok(EntryRecords(f, services, es[..n]).value + [r])
  {
    assert es[..n + 1][..n] == es[..n];
  }

  lemma {:induction false} EntryErrStays(f: Fleet, services: map<string, Service>, es: seq<Entry>, n: nat)
    requires n <= |es| && EntryRecords(f, services, es[..n]).Err?
    ensures EntryRecords(f, services, es) == EntryRecords(f, services, es[..n])
    decreases |es| - n
  {
    if n == |es| {
      assert es[..n] == es;
    } else {
      assert es[..n + 1][..n] == es[..n];
      EntryErrStays(f, services, es, n + 1);
    }
  }

  method RoutedRecords(f: Fleet, services: map<string, Service>) returns (r: Result<seq<HostRecord>>)
    ensures r == RouteRecords(f, services, SortedKeys(services.Keys))
  {
    var out: seq<HostRecord> := [];
    var names := SortKeys(services.Keys);
    for n := 0 to |names|
      invariant RouteRecords(f, services, names[..n]) == Ok(out)
    {
      assert names[n] in names;
      RouteStep(f, services, names, n);
      match RouteRecord(f, services[names[n]]) {
        case Err(error) =>
          RouteErrStays(f, services, names, n + 1);
          return Err(error);
        case Ok(None) =>
        case Ok(Some(rec)) => out := out + [rec];
      }
    }
    assert names[..|names|] == names;
    r := Ok(out);
  }

  lemma RouteStep(f: Fleet, services: map<string, Service>, names: seq<string>, n: nat)
    requires n < |names| && names[n] in services && RouteRecords(f, services, names[..n]).Ok?
    ensures RouteRecords(f, services, names[..n + 1]) ==
      match RouteRecord(f, services[names[n]])
      case Err(error) => Err(error)
      case Ok(None) => RouteRecords(f, services, names[..n])
      case Ok(Some(r)) => Ok(RouteRecords(f, services, names[..n]).value + [r])
  {
    assert names[..n + 1][..n] == names[..n];
  }

  lemma {:induction false} RouteErrStays(f: Fleet, services: map<string, Service>, names: seq<string>, n: nat)
    requires n <= |names| && RouteRecords(f, services, names[..n]).Err?
    ensures RouteRecords(f, services, names) == RouteRecords(f, services, names[..n])
    decreases |names| - n
  {
    if n == |names| {
      assert names[..n] == names;
    } else {
      assert names[..n + 1][..n] == names[..n];
      RouteErrStays(f, services, names, n + 1);
    }
  }

  // ---------------------------------------------------------------------- owners

  /** Each key is owned by one of the records with it. */
  predicate OwnersOf(owner: map<Key, HostRecord>, rs: seq<HostRecord>) {
    forall k :: k in owner ==> owner[k] in rs && KeyOf(owner[k]) == k
  }

  /** Every record belongs to the host that owns its key. */
  predicate Owned(owner: map<Key, HostRecord>, rs: seq<HostRecord>) {
    forall r :: r in rs ==> KeyOf(r) in owner && owner[KeyOf(r)].host == r.host
  }

  method ClaimAll(out: seq<HostRecord>, reserved: seq<HostRecord>) returns (ok: bool, owner: map<Key, HostRecord>)
    requires forall i, j :: 0 <= i < j < |reserved| ==> KeyOf(reserved[i]) != KeyOf(reserved[j])
    ensures ok ==> OwnersOf(owner, out + reserved) && Owned(owner, out + reserved)
    ensures !ok ==> !InAgreement(out + reserved)
  {
    owner := map[];
    for n := 0 to |reserved|
      invariant OwnersOf(owner, reserved[..n]) && Owned(owner, reserved[..n])
    {
      assert reserved[..n + 1] == reserved[..n] + [reserved[n]];
      owner := owner[KeyOf(reserved[n]) := reserved[n]];
    }
    assert reserved[..|reserved|] == reserved;
    for n := 0 to |out|
      invariant OwnersOf(owner, out[..n] + reserved) && Owned(owner, out[..n] + reserved)
    {
      var r := out[n];
      assert out[..n + 1] == out[..n] + [r];
      if KeyOf(r) in owner && owner[KeyOf(r)].host != r.host {
        assert AtOdds(r, owner[KeyOf(r)]) && r in out + reserved && owner[KeyOf(r)] in out + reserved;
        return false, owner;
      }
      if KeyOf(r) !in owner {
        owner := owner[KeyOf(r) := r];
      }
    }
    assert out[..|out|] == out;
    ok := true;
  }

  predicate Clash(r: HostRecord, o: HostRecord) {
    && r.host != o.host && KeyOf(r).zone == KeyOf(o).zone && KeyOf(r).name == KeyOf(o).name
    && (IsCname(r.typ) || IsCname(o.typ))
  }

  method FindCnameClash(out: seq<HostRecord>, owner: map<Key, HostRecord>) returns (found: bool)
    ensures found <==> exists r, k :: r in out && k in owner && Clash(r, owner[k])
  {
    for n := 0 to |out|
      invariant forall i, k :: 0 <= i < n && k in owner ==> !Clash(out[i], owner[k])
    {
      var todo := owner.Keys;
      while todo != {}
        invariant todo <= owner.Keys && forall k :: k in owner.Keys - todo ==> !Clash(out[n], owner[k])
      {
        var k :| k in todo;
        if Clash(out[n], owner[k]) {
          assert out[n] in out;
          return true;
        }
        todo := todo - {k};
      }
    }
    found := false;
    forall r, k | r in out && k in owner ensures !Clash(r, owner[k]) {
      var i :| 0 <= i < |out| && out[i] == r;
    }
  }

  lemma CnameClashIsOdds(out: seq<HostRecord>, reserved: seq<HostRecord>, owner: map<Key, HostRecord>)
    requires OwnersOf(owner, out + reserved) && exists r, k :: r in out && k in owner && Clash(r, owner[k])
    ensures !InAgreement(out + reserved)
  {
    var r, k :| r in out && k in owner && Clash(r, owner[k]);
    assert AtOdds(r, owner[k]) && r in out + reserved && owner[k] in out + reserved;
  }

  // ------------------------------------------------------- which host, and which address

  /** The service of that name: of several, the last. */
  predicate IsService(services: seq<Service>, n: string, s: Service) {
    s.name == n && exists i :: 0 <= i < |services| && services[i] == s && NoneAfter(services, i, n)
  }

  predicate NoneAfter(services: seq<Service>, i: nat, n: string) {
    forall j :: i < j < |services| ==> services[j].name != n
  }

  lemma {:induction false} ByNameIs(services: seq<Service>, n: string)
    ensures n in ByName(services) <==> exists i :: 0 <= i < |services| && services[i].name == n
    ensures n in ByName(services) ==> IsService(services, n, ByName(services)[n])
  {
    if services != [] {
      var init, last := services[..|services| - 1], services[|services| - 1];
      assert services == init + [last];
      ByNameIs(init, n);
      if last.name == n {
        assert NoneAfter(services, |init|, n) && services[|init|] == last;
      } else if n in ByName(init) {
        var i :| 0 <= i < |init| && init[i] == ByName(init)[n] && NoneAfter(init, i, n);
        assert services[i] == init[i] && NoneAfter(services, i, n);
      }
    }
  }

  /** The record points at the host: it says the host's address, which is of the record's family. */
  predicate PointsAt(f: Fleet, r: HostRecord, four: bool) {
    r.host in f.hosts && r.host in f.addresses && f.addresses[r.host].v4 == four && r.value == f.addresses[r.host].text
  }

  /** The record a dns_records entry asks for: without a service it is the default host's and says what the entry says;
      with one it is that service's host's, and an address record points at that host. */
  predicate Placing(f: Fleet, services: seq<Service>, e: Entry, r: HostRecord) {
    && r.typ == e.typ && r.name == e.name && r.ttl == e.ttl && r.priority == e.priority
    && r.zone == (if Trim(e.zone) != "" then Trim(e.zone) else Trim(f.domain)) && r.zone != ""
    && if e.service == "" then r.host == f.defaultHost && r.value == e.value else
         && '*' !in e.name
         && (exists i :: 0 <= i < |services| && services[i].name == e.service && NoneAfter(services, i, e.service)
                         && r.host == if services[i].host != "" then services[i].host else f.defaultHost)
         && if DnsSync.Upper(e.typ) == "A" then Trim(e.value) == "" && PointsAt(f, r, true)
            else if DnsSync.Upper(e.typ) == "AAAA" then Trim(e.value) == "" && PointsAt(f, r, false)
            else r.value == e.value
  }

  lemma EntryIsPlaced(f: Fleet, services: seq<Service>, e: Entry)
    ensures EntryRecord(f, ByName(services), e).Ok? ==>
      Placing(f, services, e, EntryRecord(f, ByName(services), e).value)
    ensures EntryRecord(f, ByName(services), e).Err? ==> forall r :: !Placing(f, services, e, r)
  {
    if e.service != "" {
      ByNameIs(services, e.service);
      if e.service in ByName(services) {
        forall i | 0 <= i < |services| && services[i].name == e.service && NoneAfter(services, i, e.service)
          ensures services[i] == ByName(services)[e.service]
        {
          OnlyService(services, e.service, services[i]);
        }
      }
    }
  }

  ghost predicate CanPlace(f: Fleet, services: seq<Service>, e: Entry) {
    exists r :: Placing(f, services, e, r)
  }

  lemma {:induction false} EntriesPlaced(f: Fleet, services: seq<Service>, es: seq<Entry>)
    requires EntryRecords(f, ByName(services), es).Ok?
    ensures var rs := EntryRecords(f, ByName(services), es).value;
      |rs| == |es| && forall i :: 0 <= i < |es| ==> Placing(f, services, es[i], rs[i])
  {
    if es != [] {
      EntriesPlaced(f, services, es[..|es| - 1]);
      EntryIsPlaced(f, services, es[|es| - 1]);
    }
  }

  lemma {:induction false} EntryUnplaced(f: Fleet, services: seq<Service>, es: seq<Entry>) returns (i: nat)
    requires EntryRecords(f, ByName(services), es).Err?
    ensures i < |es| && !CanPlace(f, services, es[i])
  {
    if EntryRecords(f, ByName(services), es[..|es| - 1]).Err? {
      i := EntryUnplaced(f, services, es[..|es| - 1]);
    } else {
      i := |es| - 1;
      EntryIsPlaced(f, services, es[i]);
    }
  }

  /** The name a service is routed at, in lower case and without a last dot. */
  function RoutedAt(s: Service): string {
    DnsSync.Lower(TrimDot(Trim(s.domain)))
  }

  function ZoneName(f: Fleet): string {
    DnsSync.Lower(TrimDot(Trim(f.domain)))
  }

  function Under(name: string, f: Fleet): string {
    name + "." + ZoneName(f)
  }

  /** A service off the default host, routed at a name under the domain. */
  predicate NeedsRecord(f: Fleet, s: Service) {
    && (s.host != "" && s.host != f.defaultHost) && s.routed && Trim(s.domain) != "" && ZoneName(f) != ""
    && exists i :: 0 <= i <= |RoutedAt(s)| && RoutedAt(s) == Under(RoutedAt(s)[..i], f)
  }

  /** The record of its route: an A record of that name, its host's, that points at its host. */
  predicate RouteOf(f: Fleet, s: Service, r: HostRecord) {
    && r.typ == "A" && r.ttl == 0 && r.priority == 0 && r.zone == Trim(f.domain) && r.host == s.host
    && Under(r.name, f) == RoutedAt(s) && PointsAt(f, r, true)
  }

  /** The route can be placed: off the default host it is no wildcard and not the domain itself, and if it is under the
      domain its host has an address. */
  predicate RouteFine(f: Fleet, s: Service) {
    s.host == "" || s.host == f.defaultHost || !s.routed || Trim(s.domain) == "" ||
    (&& '*' !in RoutedAt(s) && (ZoneName(f) == "" || RoutedAt(s) != ZoneName(f))
     && (NeedsRecord(f, s) ==> s.host in f.hosts && s.host in f.addresses && f.addresses[s.host].v4))
  }

  lemma SuffixIs(name: string, f: Fleet)
    ensures HasSuffix(name, "." + ZoneName(f)) <==> exists i :: 0 <= i <= |name| && name == Under(name[..i], f)
    ensures HasSuffix(name, "." + ZoneName(f)) ==>
      name == Under(name[..|name| - |ZoneName(f)| - 1], f) && name != ZoneName(f)
  {
    var zone := "." + ZoneName(f);
    if HasSuffix(name, zone) {
      var i := |name| - |zone|;
      assert name[i..] == zone && name == name[..i] + zone;
      assert name[..i] + zone == Under(name[..i], f);
    }
    if i :| 0 <= i <= |name| && name == Under(name[..i], f) {
      assert name == name[..i] + zone;
      assert name[|name| - |zone|..] == zone;
    }
  }

  lemma RouteIs(f: Fleet, s: Service)
    ensures RouteRecord(f, s).Ok? <==> RouteFine(f, s)
    ensures RouteRecord(f, s).Ok? ==> (RouteRecord(f, s).value.Some? <==> NeedsRecord(f, s))
    ensures RouteRecord(f, s).Ok? && RouteRecord(f, s).value.Some? ==> RouteOf(f, s, RouteRecord(f, s).value.value)
  {
    UpperOfA();
    SuffixIs(RoutedAt(s), f);
  }

  lemma UpperOfA()
    ensures DnsSync.Upper("A") == "A" && DnsSync.Upper("AAAA") == "AAAA"
  {
    assert "A"[1..] == "" && "AAAA"[1..] == "AAA" && "AAA"[1..] == "AA" && "AA"[1..] == "A";
    assert DnsSync.Upper("AA") == ['A'] + DnsSync.Upper("A") && DnsSync.Upper("AAA") == ['A'] + DnsSync.Upper("AA");
  }

  /** The names of the services that need a record, in order. */
  function Needing(f: Fleet, services: map<string, Service>, names: seq<string>): seq<string> {
    if names == [] then [] else
      var before, n := Needing(f, services, names[..|names| - 1]), names[|names| - 1];
      if n in services && NeedsRecord(f, services[n]) then before + [n] else before
  }

  lemma {:induction false} NeedingAre(f: Fleet, services: map<string, Service>, names: seq<string>)
    ensures forall n :: n in Needing(f, services, names) <==> n in names && n in services && NeedsRecord(f, services[n])
    ensures Sorted(names) ==> Sorted(Needing(f, services, names))
  {
    if names != [] {
      var init, n := names[..|names| - 1], names[|names| - 1];
      assert names == init + [n];
      NeedingAre(f, services, init);
      if Sorted(names) {
        assert Sorted(init);
        forall m | m in Needing(f, services, init) ensures Before(m, n) {
          var i :| 0 <= i < |init| && init[i] == m;
          assert names[i] == m;
        }
      }
    }
  }

  lemma {:induction false} RoutesPlaced(f: Fleet, services: map<string, Service>, names: seq<string>)
    ensures RouteRecords(f, services, names).Ok? ==>
      var rs, of := RouteRecords(f, services, names).value, Needing(f, services, names);
      |rs| == |of| && forall i :: 0 <= i < |of| ==> of[i] in services && RouteOf(f, services[of[i]], rs[i])
    ensures RouteRecords(f, services, names).Err? ==>
      exists n :: n in names && n in services && !RouteFine(f, services[n])
    ensures RouteRecords(f, services, names).Ok? ==>
      forall n :: n in names && n in services ==> RouteFine(f, services[n])
  {
    if names != [] {
      var init, n := names[..|names| - 1], names[|names| - 1];
      assert names == init + [n];
      RoutesPlaced(f, services, init);
      if n in services {
        RouteIs(f, services[n]);
      }
    }
  }

  /** The service of that name needs a record. */
  ghost predicate SomeNeeds(f: Fleet, services: seq<Service>, n: string) {
    exists s :: IsService(services, n, s) && NeedsRecord(f, s)
  }

  ghost predicate RouteOfNamed(f: Fleet, services: seq<Service>, n: string, r: HostRecord) {
    exists s :: IsService(services, n, s) && RouteOf(f, s, r)
  }

  ghost predicate RoutesFor(f: Fleet, services: seq<Service>, rs: seq<HostRecord>, of: seq<string>) {
    && Sorted(of) && |of| == |rs|
    && (forall n :: n in of <==> |f.hosts| >= 2 && SomeNeeds(f, services, n))
    && forall i :: 0 <= i < |of| ==> RouteOfNamed(f, services, of[i], rs[i])
  }

  /** The records of routes: one for each service that needs one, by name; none in a fleet of one host. */
  ghost predicate RoutesAre(f: Fleet, services: seq<Service>, rs: seq<HostRecord>) {
    exists of :: RoutesFor(f, services, rs, of)
  }

  lemma OnlyService(services: seq<Service>, n: string, s: Service)
    requires IsService(services, n, s)
    ensures n in ByName(services) && ByName(services)[n] == s
  {
    ByNameIs(services, n);
    var i :| 0 <= i < |services| && services[i] == s && NoneAfter(services, i, n);
    var j :| 0 <= j < |services| && services[j] == ByName(services)[n] && NoneAfter(services, j, n);
  }

  lemma NeedingIs(f: Fleet, services: seq<Service>, of: seq<string>, n: string)
    requires of == Needing(f, ByName(services), SortedKeys(ByName(services).Keys))
    ensures n in of <==> SomeNeeds(f, services, n)
  {
    NeedingAre(f, ByName(services), SortedKeys(ByName(services).Keys));
    ByNameIs(services, n);
    if s :| IsService(services, n, s) && NeedsRecord(f, s) {
      OnlyService(services, n, s);
    }
  }

  lemma NamedRoute(f: Fleet, services: seq<Service>, n: string, r: HostRecord)
    requires n in ByName(services) && RouteOf(f, ByName(services)[n], r)
    ensures RouteOfNamed(f, services, n, r)
  {
    ByNameIs(services, n);
  }

  lemma RoutesAreThose(f: Fleet, services: seq<Service>, rs: seq<HostRecord>)
    requires |f.hosts| >= 2 && RouteRecords(f, ByName(services), SortedKeys(ByName(services).Keys)) == Ok(rs)
    ensures RoutesAre(f, services, rs)
  {
    var names := SortedKeys(ByName(services).Keys);
    var of := Needing(f, ByName(services), names);
    SortedKeysSorted(ByName(services).Keys);
    NeedingAre(f, ByName(services), names);
    RoutesPlaced(f, ByName(services), names);
    forall n ensures n in of <==> SomeNeeds(f, services, n) {
      NeedingIs(f, services, of, n);
    }
    forall i | 0 <= i < |of| ensures RouteOfNamed(f, services, of[i], rs[i]) {
      NamedRoute(f, services, of[i], rs[i]);
    }
    assert RoutesFor(f, services, rs, of);
  }

  /** Every record can be placed. */
  ghost predicate Placeable(f: Fleet, services: seq<Service>) {
    && (forall i :: 0 <= i < |f.records| ==> CanPlace(f, services, f.records[i]))
    && (|f.hosts| >= 2 ==> forall n, s :: IsService(services, n, s) ==> RouteFine(f, s))
  }

  lemma RoutesFine(f: Fleet, services: seq<Service>)
    ensures RouteRecords(f, ByName(services), SortedKeys(ByName(services).Keys)).Ok?
      <==> forall n, s :: IsService(services, n, s) ==> RouteFine(f, s)
  {
    var byName := ByName(services);
    RoutesPlaced(f, byName, SortedKeys(byName.Keys));
    forall n, s | IsService(services, n, s) ensures n in byName && byName[n] == s {
      OnlyService(services, n, s);
    }
    forall n | n in byName ensures IsService(services, n, byName[n]) {
      ByNameIs(services, n);
    }
  }

  /** Every record is where it belongs: the declared ones first, as they are declared, then those of routes. */
  ghost predicate AllPlaced(f: Fleet, services: seq<Service>, rs: seq<HostRecord>) {
    && |rs| >= |f.records|
    && (forall i :: 0 <= i < |f.records| ==> Placing(f, services, f.records[i], rs[i]))
    && RoutesAre(f, services, rs[|f.records|..])
  }

  lemma EntriesIff(f: Fleet, services: seq<Service>)
    ensures EntryRecords(f, ByName(services), f.records).Ok?
      <==> forall i :: 0 <= i < |f.records| ==> CanPlace(f, services, f.records[i])
  {
    if EntryRecords(f, ByName(services), f.records).Err? {
      var i := EntryUnplaced(f, services, f.records);
    } else {
      EntriesPlaced(f, services, f.records);
    }
  }

  lemma PlacedIff(f: Fleet, services: seq<Service>)
    ensures Placed(f, services).Ok? <==> Placeable(f, services)
  {
    RoutesFine(f, services);
    EntriesIff(f, services);
  }

  lemma {:induction false} PlacedAre(f: Fleet, services: seq<Service>)
    requires Placed(f, services).Ok?
    ensures AllPlaced(f, services, Placed(f, services).value)
  {
    var rs, declared := Placed(f, services).value, EntryRecords(f, ByName(services), f.records).value;
    EntriesPlaced(f, services, f.records);
    if |f.hosts| < 2 {
      assert rs[|declared|..] == [];
      NoRoutes(f, services);
    } else {
      var more := RouteRecords(f, ByName(services), SortedKeys(ByName(services).Keys)).value;
      RoutesAreThose(f, services, more);
      assert rs[|declared|..] == more;
    }
  }

  lemma NoRoutes(f: Fleet, services: seq<Service>)
    requires |f.hosts| < 2
    ensures RoutesAre(f, services, [])
  {
    assert RoutesFor(f, services, [], []);
  }

  /** The apex and the wildcard of the domain stay with the default host. */
  lemma {:induction false} ReservedKept(f: Fleet, rs: seq<HostRecord>, r: HostRecord)
    requires InAgreement(rs + Reserved(f)) && r in rs && Trim(f.domain) != "" && f.defaultHost != ""
    requires DnsSync.Lower(r.zone) == DnsSync.Lower(Trim(f.domain)) && r.name in {"@", "*"}
    requires DnsSync.Upper(r.typ) in {"A", "CNAME"}
    ensures r.host == f.defaultHost
  {
    var o := HostRecord("A", r.name, "", 0, 0, Trim(f.domain), f.defaultHost);
    UpperOfA();
    assert o in Reserved(f) && o in rs + Reserved(f) && r in rs + Reserved(f);
    assert !AtOdds(r, o);
  }

  predicate Compatible(r: HostRecord, o: HostRecord) {
    var t, u := DnsSync.Upper(r.typ), DnsSync.Upper(o.typ);
    || r.host == o.host
    || DnsSync.Lower(r.zone) != DnsSync.Lower(o.zone) || DnsSync.Lower(r.name) != DnsSync.Lower(o.name)
    || (t != u && t != "CNAME" && u != "CNAME")
  }

  /** The records agree exactly when no two for different hosts have one name in one zone, case aside, unless they are
      of different types and neither is a CNAME. */
  lemma {:induction false} AgreementIff(rs: seq<HostRecord>)
    ensures InAgreement(rs) <==> forall i, j :: 0 <= i < j < |rs| ==> Compatible(rs[i], rs[j])
  {
    if InAgreement(rs) {
      forall i, j | 0 <= i < j < |rs| ensures !AtOdds(rs[i], rs[j]) {
        assert rs[i] in rs && rs[j] in rs;
      }
    } else {
      var r, o :| r in rs && o in rs && AtOdds(r, o);
      var i :| 0 <= i < |rs| && rs[i] == r;
      var j :| 0 <= j < |rs| && rs[j] == o;
    }
  }
}
