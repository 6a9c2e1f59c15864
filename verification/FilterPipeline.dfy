/** From the operator's config to routed decisions: src/internal/config/config.go
    and the policy part of src/internal/commands/node.go. */
module FilterPipeline {
  import opened Options
  import opened Text
  import D = DomainList
  import L = DomainListLaws
  import opened Routing
  import opened Resolution

  /** One client; `mode` is whatever string the config file holds. */
  datatype Client = Client(uuid: string, mode: string, domains: seq<string>)

  datatype AppConfig = AppConfig(clients: seq<Client>, blockProtocols: seq<string>, allowPrivateIP: bool)

  /** DomainMode.Filtering. */
  predicate Filtering(mode: string) {
    mode == "blacklist" || mode == "whitelist"
  }

  predicate FiltersDomains(cl: Client) {
    Filtering(cl.mode) && cl.domains != []
  }

  /** A country, which a domain connection can only match once resolved. */
  predicate CountryToken(ip: string) {
    "geoip:" <= ip && !D.IsPrivate(ip)
  }

  method NeedsIPResolve(ips: seq<string>) returns (r: bool)
    ensures r <==> exists ip | ip in ips :: CountryToken(ip)
  {
    for i := 0 to |ips|
      invariant forall ip | ip in ips[..i] :: !CountryToken(ip)
    {
      if CountryToken(ips[i]) {
        return true;
      }
    }
    return false;
  }

  method BlocksBittorrent(c: AppConfig) returns (r: bool)
    ensures r <==> "bittorrent" in c.blockProtocols
  {
    for i := 0 to |c.blockProtocols|
      invariant "bittorrent" !in c.blockProtocols[..i]
    {
      if c.blockProtocols[i] == "bittorrent" {
        return true;
      }
    }
    return false;
  }

  /** The policy of one client, if it has one. */
  function PolicyOf(fs: D.Store, cl: Client): seq<UserPolicy> {
    var res := D.Resolution(fs, cl.domains);
    if !FiltersDomains(cl) || (res.domains == [] && res.ips == []) then []
    else [UserPolicy(cl.uuid, cl.mode, res.domains, res.ips)]
  }

  function Policies(fs: D.Store, clients: seq<Client>): seq<UserPolicy> {
    if clients == [] then []
    else Policies(fs, clients[..|clients| - 1]) + PolicyOf(fs, clients[|clients| - 1])
  }

  /** Some filtered client's resolved list names a country. */
  predicate AnyCountry(fs: D.Store, clients: seq<Client>) {
    exists cl, ip | cl in clients && ip in D.Resolution(fs, cl.domains).ips :: FiltersDomains(cl) && CountryToken(ip)
  }

  method UserDomainPolicies(fs: D.Store, clients: seq<Client>) returns (policies: seq<UserPolicy>, resolveIP: bool)
    ensures policies == Policies(fs, clients)
    ensures resolveIP <==> AnyCountry(fs, clients)
  {
    hide CountryToken, AnyCountry, D.Resolution, FiltersDomains, Policies;
    NoClients(fs, clients);
    policies, resolveIP := [], false;
    for i := 0 to |clients|
      invariant policies == Policies(fs, clients[..i])
      invariant resolveIP <==> AnyCountry(fs, clients[..i])
    {
      var cl := clients[i];
      NextClient(fs, clients, i);
      if !FiltersDomains(cl) {
        continue;
      }
      var res := D.Resolve(fs, cl.domains);
      if |res.domains| == 0 && |res.ips| == 0 {
        continue;
      }
      policies := policies + [UserPolicy(cl.uuid, cl.mode, res.domains, res.ips)];
      var needs := NeedsIPResolve(res.ips);
      if needs {
        resolveIP := true;
      }
    }
    assert clients[..|clients|] == clients;
  }

  lemma NoClients(fs: D.Store, clients: seq<Client>)
    ensures Policies(fs, clients[..0]) == [] && !AnyCountry(fs, clients[..0])
  {}

  lemma {:induction false} NextClient(fs: D.Store, clients: seq<Client>, i: nat)
    requires i < |clients|
    ensures Policies(fs, clients[..i + 1]) == Policies(fs, clients[..i]) + PolicyOf(fs, clients[i])
    ensures AnyCountry(fs, clients[..i + 1])
            <==> || AnyCountry(fs, clients[..i])
                 || (FiltersDomains(clients[i])
                     && exists ip | ip in D.Resolution(fs, clients[i].domains).ips :: CountryToken(ip))
  {
    hide PolicyOf, AnyCountry;
    assert clients[..i + 1] == clients[..i] + [clients[i]] && clients[..i + 1][..i] == clients[..i];
    CountryStep(fs, clients[..i], clients[i]);
  }

  lemma CountryStep(fs: D.Store, clients: seq<Client>, cl: Client)
    ensures AnyCountry(fs, clients + [cl])
            <==> || AnyCountry(fs, clients)
                 || (FiltersDomains(cl) && exists ip | ip in D.Resolution(fs, cl.domains).ips :: CountryToken(ip))
  {
    hide CountryToken, FiltersDomains;
    if AnyCountry(fs, clients) {
      var c, ip :| c in clients && ip in D.Resolution(fs, c.domains).ips && FiltersDomains(c) && CountryToken(ip);
      assert c in clients + [cl];
    }
    if ip :| FiltersDomains(cl) && ip in D.Resolution(fs, cl.domains).ips && CountryToken(ip) {
      assert cl in clients + [cl];
    }
  }

  function InputFor(fs: D.Store, c: AppConfig): Input {
    Input("bittorrent" in c.blockProtocols,
          if c.allowPrivateIP then [] else D.PRIVATE_CIDRS,
          AnyCountry(fs, c.clients),
          Policies(fs, c.clients))
  }

  method InputFromConfig(fs: D.Store, c: AppConfig) returns (inp: Input)
    ensures inp == InputFor(fs, c)
  {
    var policies, resolveIP := UserDomainPolicies(fs, c.clients);
    var blockIPs: seq<string> := [];
    if !c.allowPrivateIP {
      blockIPs := D.PRIVATE_CIDRS;
    }
    var bittorrent := BlocksBittorrent(c);
    inp := Input(bittorrent, blockIPs, resolveIP, policies);
  }

  lemma NoCountryInPrivate(t: string)
    requires t in D.PRIVATE_CIDRS
    ensures !CountryToken(t)
  {
    assert t[0] != 'g';
  }

  /** Resolution is on exactly when some filtered client's list resolves to an
      address matcher that is not a literal range. */
  lemma {:induction false} ResolutionEnabledIff(fs: D.Store, c: AppConfig)
    ensures InputFor(fs, c).resolveDomainIP
            <==> exists cl, t :: && cl in c.clients && t in D.Resolution(fs, cl.domains).ips
                                 && FiltersDomains(cl) && t !in D.PRIVATE_CIDRS
  {
    hide FiltersDomains, D.Resolution;
    forall cl, t | cl in c.clients && t in D.Resolution(fs, cl.domains).ips
      ensures CountryToken(t) <==> t !in D.PRIVATE_CIDRS
    {
      L.ResolveClean(fs, cl.domains);
      if t in D.PRIVATE_CIDRS {
        NoCountryInPrivate(t);
      }
    }
  }

  // ---- end to end ----

  /** Some source of the client stands for a matcher that hits. */
  ghost predicate Names(m: Matchers, fs: D.Store, cl: Client, c: Conn, ips: seq<string>) {
    exists s, i :: s in cl.domains && i in D.SourceItems(fs, s) && Hits(m, i, c, ips)
  }

  predicate Hits(m: Matchers, i: D.Item, c: Conn, ips: seq<string>) {
    match i
    case Dom(p) => c.target.Domain? && m.domain(p, c.target.name)
    case Ip(p) => exists a | a in ips :: m.ip(p, a)
    case Warn(_) => false
  }

  /** Some source of the client stands for a matcher at all. */
  ghost predicate StandsForSomething(fs: D.Store, cl: Client) {
    exists s, i :: StandsFor(fs, cl, s, i)
  }

  predicate StandsFor(fs: D.Store, cl: Client, s: string, i: D.Item) {
    s in cl.domains && i in D.SourceItems(fs, s) && !i.Warn?
  }

  /** What the client's own filter wants, from its sources. */
  ghost function Wanted(m: Matchers, fs: D.Store, cl: Client, c: Conn, ips: seq<string>): Option<Outbound> {
    if !FiltersDomains(cl) || !StandsForSomething(fs, cl) then None
    else if cl.mode == "blacklist" then (if Names(m, fs, cl, c, ips) then Some(Block) else None)
    else Some(if Names(m, fs, cl, c, ips) then Direct else Block)
  }

  /** What the node wants of everybody. */
  predicate Forbidden(m: Matchers, cfg: AppConfig, c: Conn, ips: seq<string>) {
    || ("bittorrent" in cfg.blockProtocols && c.protocol == "bittorrent")
    || (!cfg.allowPrivateIP && IPHit(m, D.PRIVATE_CIDRS, ips))
  }

  ghost predicate DistinctClients(clients: seq<Client>) {
    && (forall cl | cl in clients :: cl.uuid != "")
    && (forall i, j | 0 <= i < j < |clients| :: clients[i].uuid != clients[j].uuid)
  }

  lemma {:induction false} PoliciesAre(fs: D.Store, clients: seq<Client>)
    ensures forall u :: u in Policies(fs, clients) <==> exists cl :: cl in clients && u in PolicyOf(fs, cl)
  {
    hide PolicyOf;
    if clients != [] {
      var front, last := clients[..|clients| - 1], clients[|clients| - 1];
      assert clients == front + [last];
      PoliciesAre(fs, front);
      forall u ensures u in Policies(fs, clients) <==> exists cl :: cl in clients && u in PolicyOf(fs, cl) {
        if u in Policies(fs, front) {
          var cl :| cl in front && u in PolicyOf(fs, cl);
          assert cl in clients;
        } else if u in PolicyOf(fs, last) {
          assert last in clients;
        }
      }
    }
  }

  lemma {:induction false} PoliciesDistinct(fs: D.Store, clients: seq<Client>)
    requires DistinctClients(clients)
    ensures Distinct(Policies(fs, clients))
  {
    if clients != [] {
      var front, last := clients[..|clients| - 1], clients[|clients| - 1];
      assert clients == front + [last];
      PoliciesDistinct(fs, front);
      PoliciesAre(fs, front);
      hide D.Resolution;
      forall u | u in Policies(fs, front) ensures u.email != last.uuid {
        var cl :| cl in front && u in PolicyOf(fs, cl);
        var k :| 0 <= k < |front| && front[k] == cl;
        assert clients[k] == cl;
      }
    }
  }

  lemma {:induction false} ListedByName(m: Matchers, fs: D.Store, cl: Client, c: Conn, ips: seq<string>)
    ensures var r := D.Resolution(fs, cl.domains);
            DomainHit(m, r.domains, c) || IPHit(m, r.ips, ips) ==> Names(m, fs, cl, c, ips)
  {
    hide D.Resolution, D.SourceItems;
    var r := D.Resolution(fs, cl.domains);
    if DomainHit(m, r.domains, c) {
      var p :| p in r.domains && m.domain(p, c.target.name);
      L.ResolveComplete(fs, cl.domains, p);
      assert Hits(m, D.Dom(p), c, ips);
    } else if IPHit(m, r.ips, ips) {
      var p, a :| p in r.ips && a in ips && m.ip(p, a);
      L.ResolveComplete(fs, cl.domains, p);
      assert Hits(m, D.Ip(p), c, ips);
    }
  }

  lemma {:induction false} NamedIsListed(m: Matchers, fs: D.Store, cl: Client, c: Conn, ips: seq<string>)
    ensures var r := D.Resolution(fs, cl.domains);
            Names(m, fs, cl, c, ips) ==> DomainHit(m, r.domains, c) || IPHit(m, r.ips, ips)
  {
    hide D.Resolution, D.SourceItems;
    if Names(m, fs, cl, c, ips) {
      var s, i :| s in cl.domains && i in D.SourceItems(fs, s) && Hits(m, i, c, ips);
      L.ResolveComplete(fs, cl.domains, if i.Dom? || i.Ip? then i.text else "");
    }
  }

  lemma {:induction false} SomethingListed(fs: D.Store, cl: Client)
    ensures var r := D.Resolution(fs, cl.domains);
            r.domains != [] || r.ips != [] <==> StandsForSomething(fs, cl)
  {
    hide D.Resolution, D.SourceItems;
    var r := D.Resolution(fs, cl.domains);
    if r.domains != [] {
      assert r.domains[0] in r.domains;
      L.ResolveComplete(fs, cl.domains, r.domains[0]);
      var s :| s in cl.domains && D.Dom(r.domains[0]) in D.SourceItems(fs, s);
      assert StandsFor(fs, cl, s, D.Dom(r.domains[0]));
    } else if r.ips != [] {
      assert r.ips[0] in r.ips;
      L.ResolveComplete(fs, cl.domains, r.ips[0]);
      var s :| s in cl.domains && D.Ip(r.ips[0]) in D.SourceItems(fs, s);
      assert StandsFor(fs, cl, s, D.Ip(r.ips[0]));
    } else if s, i :| StandsFor(fs, cl, s, i) {
      L.ResolveComplete(fs, cl.domains, i.text);
    }
  }

  /** The resolved lists hit exactly when some source does. */
  lemma {:induction false} ListedIsNamed(m: Matchers, fs: D.Store, cl: Client, c: Conn, ips: seq<string>)
    ensures var r := D.Resolution(fs, cl.domains);
            && (DomainHit(m, r.domains, c) || IPHit(m, r.ips, ips) <==> Names(m, fs, cl, c, ips))
            && (r.domains != [] || r.ips != [] <==> StandsForSomething(fs, cl))
  {
    hide D.Resolution, Names, DomainHit, IPHit, StandsForSomething;
    ListedByName(m, fs, cl, c, ips);
    NamedIsListed(m, fs, cl, c, ips);
    SomethingListed(fs, cl);
  }

  /** The verdict of the compiled policies is what the client's sources want. */
  lemma {:induction false} VerdictIsWanted(m: Matchers, fs: D.Store, clients: seq<Client>, cl: Client,
                                               c: Conn, ips: seq<string>)
    requires DistinctClients(clients) && cl in clients && c.user == cl.uuid
    ensures Verdicts(m, Policies(fs, clients), c, ips) == Wanted(m, fs, cl, c, ips)
  {
    PoliciesDistinct(fs, clients);
    PoliciesAre(fs, clients);
    ListedIsNamed(m, fs, cl, c, ips);
    hide D.Resolution, Names, StandsForSomething, DomainHit, IPHit, Verdicts, Policies;
    if PolicyOf(fs, cl) != [] {
      var u := PolicyOf(fs, cl)[0];
      assert u in Policies(fs, clients);
      VerdictsDistinct(m, Policies(fs, clients), u, c, ips);
    } else {
      forall u | u in Policies(fs, clients) ensures u.email != c.user {
        var other :| other in clients && u in PolicyOf(fs, other);
        SameUuid(clients, cl, other);
      }
      NobodyElse(m, Policies(fs, clients), c, ips);
    }
  }

  lemma SameUuid(clients: seq<Client>, a: Client, b: Client)
    requires DistinctClients(clients) && a in clients && b in clients
    ensures a.uuid == b.uuid ==> a == b
  {
    var i :| 0 <= i < |clients| && clients[i] == a;
    var j :| 0 <= j < |clients| && clients[j] == b;
  }

  /** End to end, one pass: for every config with distinct non-empty client ids
      and every state of the list and data files, the generated rules decide a
      client's connection as the node's global blocks and then the client's
      mode, applied to what its sources stand for, demand. */
  lemma {:induction false} EndToEnd(m: Matchers, fs: D.Store, cfg: AppConfig, cl: Client, c: Conn, ips: seq<string>)
    requires DistinctClients(cfg.clients) && cl in cfg.clients && c.user == cl.uuid
    ensures FirstMatch(m, Compiled(InputFor(fs, cfg)).rules, c, ips)
            == if Forbidden(m, cfg, c, ips) then Some(Block) else Wanted(m, fs, cl, c, ips)
  {
    CompiledMeans(m, InputFor(fs, cfg), c, ips);
    VerdictIsWanted(m, fs, cfg.clients, cl, c, ips);
    hide FirstMatch, Compiled, Verdicts, Wanted, Policies, AnyCountry;
    assert !IPHit(m, [], ips);
  }

  /** End to end with resolution. */
  lemma EndToEndRoute(m: Matchers, fs: D.Store, cfg: AppConfig, cl: Client, c: Conn, dns: seq<string>)
    requires DistinctClients(cfg.clients) && cl in cfg.clients && c.user == cl.uuid
    ensures Route(m, Compiled(InputFor(fs, cfg)), c, dns) == Block
            <==> || Forbidden(m, cfg, c, Known(c))
                 || Wanted(m, fs, cl, c, Known(c)) == Some(Block)
                 || (&& c.target.Domain? && AnyCountry(fs, cfg.clients)
                     && Wanted(m, fs, cl, c, Known(c)) == None
                     && (Forbidden(m, cfg, c, dns) || Wanted(m, fs, cl, c, dns) == Some(Block)))
  {
    EndToEnd(m, fs, cfg, cl, c, Known(c));
    EndToEnd(m, fs, cfg, cl, c, dns);
    hide FirstMatch, Wanted, Policies, AnyCountry, Forbidden;
  }

  /** A client without a filter, or whose sources all stand for nothing (every
      list missing, say), is treated as unfiltered: only the global blocks
      touch it, so a broken whitelist never cuts a user off. */
  lemma EmptyFilterIsNoFilter(m: Matchers, fs: D.Store, cfg: AppConfig, cl: Client, c: Conn, dns: seq<string>)
    requires DistinctClients(cfg.clients) && cl in cfg.clients && c.user == cl.uuid
    requires !FiltersDomains(cl) || !StandsForSomething(fs, cl)
    ensures Route(m, Compiled(InputFor(fs, cfg)), c, dns) == Block
            <==> || Forbidden(m, cfg, c, Known(c))
                 || (c.target.Domain? && AnyCountry(fs, cfg.clients) && Forbidden(m, cfg, c, dns))
  {
    EndToEndRoute(m, fs, cfg, cl, c, dns);
    hide Route, Compiled, AnyCountry, Forbidden, StandsForSomething;
  }

  // ---- what other clients change ----

  /** Nobody else's filter changes how a client's connection is routed, except by
      switching resolution on or off for all: two configs that have the client
      and the global blocks in common decide alike if and only if both or neither
      resolve, or the connection is decided in the first pass, or the second
      would let it through. */
  lemma {:induction false} RouteNonInterference(m: Matchers, fs: D.Store, cfg: AppConfig, other: AppConfig,
                                                    cl: Client, c: Conn, dns: seq<string>)
    requires DistinctClients(cfg.clients) && DistinctClients(other.clients)
    requires cl in cfg.clients && cl in other.clients && c.user == cl.uuid
    requires cfg.blockProtocols == other.blockProtocols && cfg.allowPrivateIP == other.allowPrivateIP
    ensures Route(m, Compiled(InputFor(fs, cfg)), c, dns) == Route(m, Compiled(InputFor(fs, other)), c, dns)
            <==> || AnyCountry(fs, cfg.clients) == AnyCountry(fs, other.clients)
                 || c.target.Address?
                 || Forbidden(m, cfg, c, []) || Wanted(m, fs, cl, c, []) != None
                 || !(Forbidden(m, cfg, c, dns) || Wanted(m, fs, cl, c, dns) == Some(Block))
  {
    EndToEndRoute(m, fs, cfg, cl, c, dns);
    EndToEndRoute(m, fs, other, cl, c, dns);
    hide Route, Compiled, Wanted, AnyCountry, InputFor;
  }

  /** The order of the clients changes no decision, for anybody. */
  lemma {:induction false} ClientOrderIrrelevant(m: Matchers, fs: D.Store, cfg: AppConfig, other: AppConfig,
                                                     c: Conn, dns: seq<string>)
    requires DistinctClients(cfg.clients) && DistinctClients(other.clients)
    requires multiset(cfg.clients) == multiset(other.clients)
    requires cfg.blockProtocols == other.blockProtocols && cfg.allowPrivateIP == other.allowPrivateIP
    ensures Route(m, Compiled(InputFor(fs, cfg)), c, dns) == Route(m, Compiled(InputFor(fs, other)), c, dns)
  {
    SameClients(cfg.clients, other.clients);
    SameMatch(m, fs, cfg, other, c, Known(c));
    SameMatch(m, fs, cfg, other, c, dns);
    SameCountry(fs, cfg.clients, other.clients);
    hide FirstMatch, AnyCountry, Policies, DistinctClients;
  }

  lemma SameClients(a: seq<Client>, b: seq<Client>)
    requires multiset(a) == multiset(b)
    ensures forall cl :: cl in a <==> cl in b
  {
    forall cl ensures cl in a <==> cl in b {
      assert cl in a <==> cl in multiset(a);
      assert cl in b <==> cl in multiset(b);
    }
  }

  lemma SameCountry(fs: D.Store, a: seq<Client>, b: seq<Client>)
    requires forall cl :: cl in a <==> cl in b
    ensures AnyCountry(fs, a) == AnyCountry(fs, b)
  {
    hide D.Resolution, FiltersDomains, CountryToken;
  }

  lemma {:induction false} SameMatch(m: Matchers, fs: D.Store, cfg: AppConfig, other: AppConfig,
                                         c: Conn, ips: seq<string>)
    requires DistinctClients(cfg.clients) && DistinctClients(other.clients)
    requires forall cl :: cl in cfg.clients <==> cl in other.clients
    requires cfg.blockProtocols == other.blockProtocols && cfg.allowPrivateIP == other.allowPrivateIP
    ensures FirstMatch(m, Compiled(InputFor(fs, cfg)).rules, c, ips)
            == FirstMatch(m, Compiled(InputFor(fs, other)).rules, c, ips)
  {
    hide FirstMatch, Compiled, InputFor, DistinctClients, Wanted, Forbidden;
    SameForbidden(m, cfg, other, c, ips);
    if cl :| cl in cfg.clients && cl.uuid == c.user {
      EndToEnd(m, fs, cfg, cl, c, ips);
      EndToEnd(m, fs, other, cl, c, ips);
    } else {
      Stranger(m, fs, cfg, c, ips);
      Stranger(m, fs, other, c, ips);
    }
  }

  lemma SameForbidden(m: Matchers, cfg: AppConfig, other: AppConfig, c: Conn, ips: seq<string>)
    requires cfg.blockProtocols == other.blockProtocols && cfg.allowPrivateIP == other.allowPrivateIP
    ensures Forbidden(m, cfg, c, ips) == Forbidden(m, other, c, ips)
  {}

  /** A connection of nobody in the config meets only the global blocks. */
  lemma {:induction false} Stranger(m: Matchers, fs: D.Store, cfg: AppConfig, c: Conn, ips: seq<string>)
    requires forall cl | cl in cfg.clients :: cl.uuid != c.user
    ensures FirstMatch(m, Compiled(InputFor(fs, cfg)).rules, c, ips)
            == if Forbidden(m, cfg, c, ips) then Some(Block) else None
  {
    CompiledMeans(m, InputFor(fs, cfg), c, ips);
    PoliciesAre(fs, cfg.clients);
    assert !IPHit(m, [], ips);
    hide FirstMatch, Compiled, Policies, AnyCountry, D.Resolution;
    forall u | u in Policies(fs, cfg.clients) ensures u.email != c.user {
      var cl :| cl in cfg.clients && u in PolicyOf(fs, cl);
    }
    NobodyElse(m, Policies(fs, cfg.clients), c, ips);
  }

  lemma RuToken(fs: D.Store)
    requires fs.dir == None
    ensures D.Ip("geoip:ru") in D.SourceItems(fs, "geoip:ru") && CountryToken("geoip:ru")
  {
    var t := "geoip:ru";
    TrimOnce(t);
    L.Prefixes(t);
    assert After("geoip:", t) == "ru";
    TrimOnce("ru");
    assert !D.IsPrivate(t);
    hide Trim, D.AsIps;
  }

  /** One domain matcher, and one private address in one private range. */
  function PrivateHost(host: string): Matchers {
    Matchers((p, n) => p == n == host, (p, a) => p == "10.0.0.0/8" && a == "10.0.0.1")
  }

  lemma PrivateHostForbidden(host: string, cfg: AppConfig, c: Conn)
    requires !cfg.allowPrivateIP && cfg.blockProtocols == []
    ensures Forbidden(PrivateHost(host), cfg, c, ["10.0.0.1"]) && !Forbidden(PrivateHost(host), cfg, c, [])
  {
    assert D.PRIVATE_CIDRS[1] == "10.0.0.0/8" && "10.0.0.0/8" in D.PRIVATE_CIDRS;
    assert "10.0.0.1" in ["10.0.0.1"];
  }

  /** The block of private ranges, for a domain that resolves to a private
      address: it works if and only if the first pass blocks the connection, or
      resolution is on and the first pass leaves it open. */
  lemma {:induction false} PrivateBlockIff(m: Matchers, fs: D.Store, cfg: AppConfig, cl: Client,
                                               c: Conn, dns: seq<string>)
    requires DistinctClients(cfg.clients) && cl in cfg.clients && c.user == cl.uuid
    requires c.target.Domain? && !cfg.allowPrivateIP && IPHit(m, D.PRIVATE_CIDRS, dns)
    ensures Route(m, Compiled(InputFor(fs, cfg)), c, dns) == Block
            <==> || Forbidden(m, cfg, c, []) || Wanted(m, fs, cl, c, []) == Some(Block)
                 || (AnyCountry(fs, cfg.clients) && Wanted(m, fs, cl, c, []) == None)
  {
    EndToEndRoute(m, fs, cfg, cl, c, dns);
    hide Route, Compiled, Wanted, AnyCountry, InputFor, IPHit;
  }

  /** An unfiltered client asks for a domain with a private address: it is
      blocked if and only if some client names a country. */
  lemma {:induction false} UnfilteredPrivate(fs: D.Store, cfg: AppConfig, cl: Client, host: string)
    requires DistinctClients(cfg.clients) && cl in cfg.clients && !FiltersDomains(cl)
    requires !cfg.allowPrivateIP && cfg.blockProtocols == []
    ensures Route(PrivateHost(host), Compiled(InputFor(fs, cfg)), Conn(cl.uuid, "tls", Tcp, Domain(host)), ["10.0.0.1"])
            == if AnyCountry(fs, cfg.clients) then Block else Direct
  {
    var c := Conn(cl.uuid, "tls", Tcp, Domain(host));
    PrivateHostForbidden(host, cfg, c);
    hide Route, Compiled, AnyCountry, Forbidden, InputFor, StandsForSomething, PrivateHost, FiltersDomains;
    EmptyFilterIsNoFilter(PrivateHost(host), fs, cfg, cl, c, ["10.0.0.1"]);
  }

  lemma AliceAndBob(fs: D.Store)
    requires fs.dir == None
    ensures var alice, bob := Client("alice", "", []), Client("bob", "blacklist", ["geoip:ru"]);
            && DistinctClients([alice]) && DistinctClients([alice, bob])
            && !AnyCountry(fs, [alice]) && AnyCountry(fs, [alice, bob])
  {
    var alice, bob := Client("alice", "", []), Client("bob", "blacklist", ["geoip:ru"]);
    TwoClients(alice, bob);
    hide AnyCountry, CountryToken, DistinctClients;
    CountryInList(fs, bob);
    NobodyFilters(fs, alice);
    MoreClients(fs, [alice], [bob]);
    assert [alice] + [bob] == [alice, bob];
  }

  lemma TwoClients(a: Client, b: Client)
    requires a.uuid != "" && b.uuid != "" && a.uuid[0] != b.uuid[0]
    ensures DistinctClients([a]) && DistinctClients([a, b])
  {}

  /** Alice has no filter and asks for a domain with a private address.  She gets
      through, although private ranges are blocked; once Bob has a blacklist of
      one country, she does not. */
  lemma {:induction false} BobsFilterBlocksAlice(fs: D.Store, host: string)
    requires fs.dir == None
    ensures var alice, bob := Client("alice", "", []), Client("bob", "blacklist", ["geoip:ru"]);
            var one, two := AppConfig([alice], [], false), AppConfig([alice, bob], [], false);
            var m, c := PrivateHost(host), Conn("alice", "tls", Tcp, Domain(host));
            && Route(m, Compiled(InputFor(fs, one)), c, ["10.0.0.1"]) == Direct
            && Route(m, Compiled(InputFor(fs, two)), c, ["10.0.0.1"]) == Block
  {
    var alice, bob := Client("alice", "", []), Client("bob", "blacklist", ["geoip:ru"]);
    AliceAndBob(fs);
    hide Route, Compiled, AnyCountry, InputFor, PrivateHost, DistinctClients;
    UnfilteredPrivate(fs, AppConfig([alice], [], false), alice, host);
    UnfilteredPrivate(fs, AppConfig([alice, bob], [], false), alice, host);
  }

  lemma MoreClients(fs: D.Store, a: seq<Client>, b: seq<Client>)
    ensures AnyCountry(fs, a + b) <==> AnyCountry(fs, a) || AnyCountry(fs, b)
  {
    hide D.Resolution, FiltersDomains, CountryToken;
    assert forall cl :: cl in a + b <==> cl in a || cl in b;
  }

  lemma NobodyFilters(fs: D.Store, cl: Client)
    requires !FiltersDomains(cl)
    ensures !AnyCountry(fs, [cl])
  {
    hide D.Resolution, CountryToken;
  }

  /** A whitelist lets the same domain through even with resolution on. */
  lemma WhitelistReachesPrivate(fs: D.Store)
    requires fs.dir == None
    ensures var host := "h.example";
            var cl := Client("w", "whitelist", [host, "geoip:ru"]);
            var cfg, c := AppConfig([cl], [], false), Conn("w", "tls", Tcp, Domain(host));
            && AnyCountry(fs, cfg.clients)
            && Route(PrivateHost(host), Compiled(InputFor(fs, cfg)), c, ["10.0.0.1"]) == Direct
  {
    var host := "h.example";
    var cl := Client("w", "whitelist", [host, "geoip:ru"]);
    assert host in cl.domains && "geoip:ru" in cl.domains && DistinctClients([cl]);
    hide Route, Compiled, AnyCountry, InputFor, PrivateHost, D.SourceItems, DistinctClients;
    CountryInList(fs, cl);
    HostToken(fs);
    ListedHostPrivate(fs, AppConfig([cl], [], false), cl, host);
  }

  /** A listed domain with a private address gets past the whitelist. */
  lemma {:induction false} ListedHostPrivate(fs: D.Store, cfg: AppConfig, cl: Client, host: string)
    requires DistinctClients(cfg.clients) && cl in cfg.clients && cl.mode == "whitelist"
    requires host in cl.domains && D.Dom(host) in D.SourceItems(fs, host)
    requires !cfg.allowPrivateIP && cfg.blockProtocols == []
    ensures Route(PrivateHost(host), Compiled(InputFor(fs, cfg)), Conn(cl.uuid, "tls", Tcp, Domain(host)), ["10.0.0.1"])
            == Direct
  {
    var m, c := PrivateHost(host), Conn(cl.uuid, "tls", Tcp, Domain(host));
    assert StandsFor(fs, cl, host, D.Dom(host));
    assert Hits(m, D.Dom(host), c, []);
    PrivateWanted(m, fs, cl, c);
    PrivateHostForbidden(host, cfg, c);
    hide Route, Compiled, AnyCountry, Forbidden, InputFor, Wanted, PrivateHost, D.SourceItems;
    EndToEndRoute(m, fs, cfg, cl, c, ["10.0.0.1"]);
  }

  lemma PrivateWanted(m: Matchers, fs: D.Store, cl: Client, c: Conn)
    requires cl.mode == "whitelist" && cl.domains != [] && StandsForSomething(fs, cl) && Names(m, fs, cl, c, [])
    ensures Wanted(m, fs, cl, c, []) == Some(Direct)
  {
    hide StandsForSomething, Names;
  }

  lemma CountryInList(fs: D.Store, cl: Client)
    requires fs.dir == None && FiltersDomains(cl) && "geoip:ru" in cl.domains
    ensures AnyCountry(fs, [cl])
  {
    RuToken(fs);
    hide D.Resolution, D.SourceItems, CountryToken, FiltersDomains;
    L.ResolveComplete(fs, cl.domains, "geoip:ru");
    assert cl in [cl];
  }

  lemma HostToken(fs: D.Store)
    requires fs.dir == None
    ensures D.Dom("h.example") in D.SourceItems(fs, "h.example")
  {
    var t := "h.example";
    assert t[0] == 'h' && L.PlainDomain(fs, t);
    L.PlainIsItself(fs, t);
    hide D.SourceItems;
  }
}
