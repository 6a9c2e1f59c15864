/** Domain-to-address resolution (`IPIfNonMatch`): connections to a domain that
    match no rule are looked up in DNS and matched once more with the addresses.
    src/internal/xraygen/xraygen.go:35-39, 231-249 */
module Resolution {
  import opened Options
  import opened Routing

  /** The decision for a connection when DNS would answer `dns` (nothing when
      the lookup fails). */
  function Route(m: Matchers, cfg: Config, c: Conn, dns: seq<string>): Outbound {
    var first := FirstMatch(m, cfg.rules, c, Known(c));
    if first.Some? || cfg.strategy == AsIs || c.target.Address? then OrDirect(first)
    else OrDirect(FirstMatch(m, cfg.rules, c, dns))
  }

  /** The decision had the addresses been known from the start. */
  function Foreseen(m: Matchers, cfg: Config, c: Conn, dns: seq<string>): Outbound {
    OrDirect(FirstMatch(m, cfg.rules, c, if c.target.Address? then Known(c) else dns))
  }

  ghost predicate NoWhitelist(us: seq<UserPolicy>, user: string) {
    forall u | u in us && u.email == user && Effective(u) :: u.mode == "blacklist"
  }

  /** Some filter of the user lists one of these addresses. */
  ghost predicate OwnIPHit(m: Matchers, us: seq<UserPolicy>, user: string, ips: seq<string>) {
    exists u :: u in us && u.email == user && Effective(u) && IPHit(m, u.ips, ips)
  }

  ghost predicate OwnDomainHit(m: Matchers, us: seq<UserPolicy>, c: Conn) {
    exists u :: u in us && u.email == c.user && Effective(u) && DomainHit(m, u.domains, c)
  }

  /** Blacklists of one user add up. */
  lemma {:induction false} BlacklistVerdicts(m: Matchers, us: seq<UserPolicy>, c: Conn, ips: seq<string>)
    requires NoWhitelist(us, c.user)
    ensures Verdicts(m, us, c, ips)
            == if OwnDomainHit(m, us, c) || OwnIPHit(m, us, c.user, ips) then Some(Block) else None
  {
    hide IPHit, DomainHit;
    if us != [] {
      var rest := us[1..];
      assert forall u :: u in us <==> u == us[0] || u in rest;
      BlacklistVerdicts(m, rest, c, ips);
      if OwnDomainHit(m, rest, c) {
        assert OwnDomainHit(m, us, c);
      }
      if OwnIPHit(m, rest, c.user, ips) {
        assert OwnIPHit(m, us, c.user, ips);
      }
      if Verdict(m, us[0], c, ips).Some? {
        assert us[0] in us;
      }
    }
  }

  lemma NoIPs(m: Matchers, list: seq<string>)
    ensures !IPHit(m, list, [])
  {}

  /** Two passes, exactly: a domain connection of a user without a whitelist is
      blocked if and only if the first pass blocks it or, with resolution on, a
      resolved address is on the global list or on one of the user's own. */
  lemma BlacklistRoute(m: Matchers, inp: Input, c: Conn, dns: seq<string>)
    requires c.target.Domain? && NoWhitelist(inp.userDomains, c.user)
    ensures Route(m, Compiled(inp), c, dns) == Block
            <==> || FirstMatch(m, Compiled(inp).rules, c, []) == Some(Block)
                 || (inp.resolveDomainIP
                     && (IPHit(m, inp.blockIPs, dns) || OwnIPHit(m, inp.userDomains, c.user, dns)))
  {
    CompiledMeans(m, inp, c, []);
    CompiledMeans(m, inp, c, dns);
    BlacklistVerdicts(m, inp.userDomains, c, []);
    BlacklistVerdicts(m, inp.userDomains, c, dns);
    NoIPs(m, inp.blockIPs);
    hide FirstMatch, IPHit, DomainHit, NoWhitelist, OwnIPHit, OwnDomainHit, Verdicts;
  }

  /** The decision on a whitelist user's connection, given the addresses. */
  lemma WhitelistMatch(m: Matchers, inp: Input, u: UserPolicy, c: Conn, ips: seq<string>)
    requires Distinct(inp.userDomains) && u in inp.userDomains && u.email == c.user
    requires Effective(u) && u.mode == "whitelist"
    ensures FirstMatch(m, Compiled(inp).rules, c, ips)
            == Some(if GloballyBlocked(m, inp, c, ips) || !Listed(m, u, c, ips) then Block else Direct)
  {
    CompiledMeans(m, inp, c, ips);
    VerdictsDistinct(m, inp.userDomains, u, c, ips);
    hide FirstMatch, Compiled, Listed, GloballyBlocked, Verdicts;
  }

  /** A whitelist user is decided in the first pass, whatever DNS says: the
      catch-all of the whitelist leaves nothing for the second. */
  lemma WhitelistRoute(m: Matchers, inp: Input, u: UserPolicy, c: Conn, dns: seq<string>)
    requires Distinct(inp.userDomains) && u in inp.userDomains && u.email == c.user
    requires Effective(u) && u.mode == "whitelist"
    ensures Some(Route(m, Compiled(inp), c, dns)) == FirstMatch(m, Compiled(inp).rules, c, Known(c))
  {
    WhitelistMatch(m, inp, u, c, Known(c));
    hide FirstMatch, Compiled, Listed, GloballyBlocked;
  }

  /** Resolution does what it is for, for users without a whitelist: their
      domain traffic is decided as if its addresses had been known. */
  lemma ResolutionFaithful(m: Matchers, inp: Input, c: Conn, dns: seq<string>)
    requires inp.resolveDomainIP && NoWhitelist(inp.userDomains, c.user)
    ensures Route(m, Compiled(inp), c, dns) == Foreseen(m, Compiled(inp), c, dns)
  {
    if c.target.Domain? {
      CompiledMeans(m, inp, c, []);
      CompiledMeans(m, inp, c, dns);
      BlacklistVerdicts(m, inp.userDomains, c, []);
      BlacklistVerdicts(m, inp.userDomains, c, dns);
      NoIPs(m, inp.blockIPs);
    }
    hide FirstMatch, IPHit, DomainHit, NoWhitelist, OwnIPHit, OwnDomainHit, Verdicts;
  }

  /** For a whitelist user it does so exactly when bittorrent is blocked anyway,
      or a listed domain resolves to no globally blocked address, or an unlisted
      domain resolves to a globally blocked one or to none on the whitelist. */
  lemma ResolutionForWhitelist(m: Matchers, inp: Input, u: UserPolicy, c: Conn, dns: seq<string>)
    requires inp.resolveDomainIP && c.target.Domain?
    requires Distinct(inp.userDomains) && u in inp.userDomains && u.email == c.user
    requires Effective(u) && u.mode == "whitelist"
    ensures Route(m, Compiled(inp), c, dns) == Foreseen(m, Compiled(inp), c, dns)
            <==> || (inp.blockBittorrent && c.protocol == "bittorrent")
                 || (if DomainHit(m, u.domains, c) then !IPHit(m, inp.blockIPs, dns)
                     else IPHit(m, inp.blockIPs, dns) || !IPHit(m, u.ips, dns))
  {
    WhitelistRoute(m, inp, u, c, dns);
    WhitelistMatch(m, inp, u, c, []);
    WhitelistMatch(m, inp, u, c, dns);
    NoIPs(m, inp.blockIPs);
    NoIPs(m, u.ips);
    hide FirstMatch, Compiled, IPHit, DomainHit, Route;
  }

  /** So a whitelist of one country lets no domain of that country through: the
      resolver answers with an address of the country and the connection is
      blocked all the same, although the same address asked for directly is let
      through. */
  lemma CountryWhitelistMissesDomains(user: string, name: string, address: string)
    requires user != ""
    ensures var m := Matchers((p, n) => false, (p, a) => p == "geoip:ru" && a == address);
            var inp := Input(false, [], true, [UserPolicy(user, "whitelist", [], ["geoip:ru"])]);
            && Route(m, Compiled(inp), Conn(user, "tls", Tcp, Domain(name)), [address]) == Block
            && Route(m, Compiled(inp), Conn(user, "tls", Tcp, Address(address)), [address]) == Direct
  {
    var m := Matchers((p, n) => false, (p, a) => p == "geoip:ru" && a == address);
    var u := UserPolicy(user, "whitelist", [], ["geoip:ru"]);
    var inp := Input(false, [], true, [u]);
    var d, a := Conn(user, "tls", Tcp, Domain(name)), Conn(user, "tls", Tcp, Address(address));
    WhitelistRoute(m, inp, u, d, [address]);
    WhitelistMatch(m, inp, u, d, []);
    WhitelistRoute(m, inp, u, a, [address]);
    WhitelistMatch(m, inp, u, a, [address]);
    assert "geoip:ru" in u.ips && address in [address];
    hide FirstMatch, Compiled, Route;
  }

  /** Two inputs with the same global rules and the same policies for a user route
      a connection of that user alike if and only if they agree on resolution, or
      the connection never comes to a second pass, or that pass lets it
      through. */
  lemma {:induction false} RouteInterference(m: Matchers, inp: Input, other: Input, c: Conn, dns: seq<string>)
    requires inp.blockBittorrent == other.blockBittorrent && inp.blockIPs == other.blockIPs
    requires PoliciesOf(inp.userDomains, c.user) == PoliciesOf(other.userDomains, c.user)
    ensures Route(m, Compiled(inp), c, dns) == Route(m, Compiled(other), c, dns)
            <==> || inp.resolveDomainIP == other.resolveDomainIP
                 || c.target.Address?
                 || FirstMatch(m, Compiled(inp).rules, c, []).Some?
                 || OrDirect(FirstMatch(m, Compiled(inp).rules, c, dns)) == Direct
  {
    NonInterference(m, inp, other, c, Known(c));
    NonInterference(m, inp, other, c, dns);
    hide FirstMatch, PoliciesOf;
  }

  /** With resolution on in both or in neither, the order of distinct users
      changes no decision of either pass. */
  lemma {:induction false} OrderOfUsersIrrelevant(m: Matchers, inp: Input, other: Input, c: Conn, dns: seq<string>)
    requires inp.blockBittorrent == other.blockBittorrent && inp.blockIPs == other.blockIPs
    requires inp.resolveDomainIP == other.resolveDomainIP
    requires multiset(inp.userDomains) == multiset(other.userDomains)
    requires Distinct(inp.userDomains) && Distinct(other.userDomains)
    ensures Route(m, Compiled(inp), c, dns) == Route(m, Compiled(other), c, dns)
  {
    SameMatchInAnyOrder(m, inp, other, c, Known(c));
    SameMatchInAnyOrder(m, inp, other, c, dns);
    hide FirstMatch, Distinct;
  }
}
