/** The filter compiler of src/internal/xraygen/xraygen.go and the routing
    semantics it targets.

    A rule matches a connection when every non-empty field matches; the first
    matching rule decides; a connection that matches no rule goes to the first
    outbound, "direct".  What a domain or address matcher means is left open. */
module Routing {
  import opened Options

  datatype Outbound = Direct | Block

  datatype Network = Tcp | Udp

  datatype Rule = Rule(user: seq<string>,
                       protocol: seq<string>,
                       domain: seq<string>,
                       ip: seq<string>,
                       network: seq<Network>,
                       outbound: Outbound)

  /** A connection asks for a domain or for an address. */
  datatype Target = Domain(name: string) | Address(ip: string)

  datatype Conn = Conn(user: string, protocol: string, network: Network, target: Target)

  /** The meaning of matchers such as `geosite:` categories and CIDRs. */
  datatype Matchers = Matchers(domain: (string, string) -> bool, ip: (string, string) -> bool)

  predicate DomainHit(m: Matchers, list: seq<string>, c: Conn) {
    c.target.Domain? && exists p | p in list :: m.domain(p, c.target.name)
  }

  predicate IPHit(m: Matchers, list: seq<string>, ips: seq<string>) {
    exists p, a | p in list && a in ips :: m.ip(p, a)
  }

  /** Does the rule match, when the addresses `ips` are known? */
  predicate Matches(m: Matchers, r: Rule, c: Conn, ips: seq<string>) {
    && (r.user == [] || c.user in r.user)
    && (r.protocol == [] || c.protocol in r.protocol)
    && (r.domain == [] || DomainHit(m, r.domain, c))
    && (r.ip == [] || IPHit(m, r.ip, ips))
    && (r.network == [] || c.network in r.network)
  }

  function FirstMatch(m: Matchers, rules: seq<Rule>, c: Conn, ips: seq<string>): Option<Outbound> {
    if rules == [] then None
    else if Matches(m, rules[0], c, ips) then Some(rules[0].outbound)
    else FirstMatch(m, rules[1..], c, ips)
  }

  function OrDirect(o: Option<Outbound>): Outbound {
    if o.Some? then o.value else Direct
  }

  /** The addresses known without asking DNS. */
  function Known(c: Conn): seq<string> {
    if c.target.Address? then [c.target.ip] else []
  }

  // ---- the compiler ----

  datatype UserPolicy = UserPolicy(email: string, mode: string, domains: seq<string>, ips: seq<string>)

  /** The part of xraygen.Input that decides routing. */
  datatype Input = Input(blockBittorrent: bool,
                         blockIPs: seq<string>,
                         resolveDomainIP: bool,
                         userDomains: seq<UserPolicy>)

  datatype Strategy = AsIs | IPIfNonMatch

  datatype Config = Config(strategy: Strategy, rules: seq<Rule>)

  function UserDomainRules(u: UserPolicy): seq<Rule> {
    if u.email == "" || (u.domains == [] && u.ips == []) then []
    else
      var user := [u.email];
      if u.mode == "blacklist" then
        (if u.domains != [] then [Rule(user, [], u.domains, [], [], Block)] else [])
        + (if u.ips != [] then [Rule(user, [], [], u.ips, [], Block)] else [])
      else if u.mode == "whitelist" then
        (if u.domains != [] then [Rule(user, [], u.domains, [], [], Direct)] else [])
        + (if u.ips != [] then [Rule(user, [], [], u.ips, [], Direct)] else [])
        + [Rule(user, [], [], [], [Tcp, Udp], Block)]
      else []
  }

  /** The rules of all users, in order. */
  function AllUserRules(us: seq<UserPolicy>): seq<Rule> {
    if us == [] then [] else AllUserRules(us[..|us| - 1]) + UserDomainRules(us[|us| - 1])
  }

  function GlobalRules(inp: Input): seq<Rule> {
    (if inp.blockBittorrent then [Rule([], ["bittorrent"], [], [], [], Block)] else [])
    + (if inp.blockIPs != [] then [Rule([], [], [], inp.blockIPs, [], Block)] else [])
  }

  function Compiled(inp: Input): Config {
    Config(if inp.resolveDomainIP then IPIfNonMatch else AsIs, GlobalRules(inp) + AllUserRules(inp.userDomains))
  }

  method Generate(inp: Input) returns (cfg: Config)
    ensures cfg == Compiled(inp)
    ensures cfg.strategy == IPIfNonMatch <==> inp.resolveDomainIP
  {
    hide UserDomainRules;
    var strategy := AsIs;
    if inp.resolveDomainIP {
      strategy := IPIfNonMatch;
    }
    var rules: seq<Rule> := [];
    if inp.blockBittorrent {
      rules := rules + [Rule([], ["bittorrent"], [], [], [], Block)];
    }
    if |inp.blockIPs| > 0 {
      rules := rules + [Rule([], [], [], inp.blockIPs, [], Block)];
    }
    assert rules == GlobalRules(inp);
    for i := 0 to |inp.userDomains|
      invariant rules == GlobalRules(inp) + AllUserRules(inp.userDomains[..i])
    {
      rules := rules + UserDomainRules(inp.userDomains[i]);
      assert inp.userDomains[..i + 1][..i] == inp.userDomains[..i];
    }
    assert inp.userDomains[..|inp.userDomains|] == inp.userDomains;
    cfg := Config(strategy, rules);
  }

  // ---- what a policy means ----

  /** The filter names this connection: one of its matchers hits the domain or
      a known address. */
  predicate Listed(m: Matchers, u: UserPolicy, c: Conn, ips: seq<string>) {
    DomainHit(m, u.domains, c) || IPHit(m, u.ips, ips)
  }

  /** An empty filter, or one for nobody, filters nothing. */
  predicate Effective(u: UserPolicy) {
    u.email != "" && (u.domains != [] || u.ips != []) && (u.mode == "blacklist" || u.mode == "whitelist")
  }

  /** A blacklist blocks what it lists and says nothing else; a whitelist lets
      through what it lists and blocks the rest; other users are untouched. */
  function Verdict(m: Matchers, u: UserPolicy, c: Conn, ips: seq<string>): Option<Outbound> {
    if !Effective(u) || u.email != c.user then None
    else if u.mode == "blacklist" then (if Listed(m, u, c, ips) then Some(Block) else None)
    else Some(if Listed(m, u, c, ips) then Direct else Block)
  }

  /** The first policy that has something to say. */
  function Verdicts(m: Matchers, us: seq<UserPolicy>, c: Conn, ips: seq<string>): Option<Outbound> {
    if us == [] then None
    else
      var v := Verdict(m, us[0], c, ips);
      if v.Some? then v else Verdicts(m, us[1..], c, ips)
  }

  predicate GloballyBlocked(m: Matchers, inp: Input, c: Conn, ips: seq<string>) {
    (inp.blockBittorrent && c.protocol == "bittorrent") || IPHit(m, inp.blockIPs, ips)
  }

  lemma {:induction false} FirstMatchConcat(m: Matchers, a: seq<Rule>, b: seq<Rule>, c: Conn, ips: seq<string>)
    ensures FirstMatch(m, a + b, c, ips)
            == if FirstMatch(m, a, c, ips).Some? then FirstMatch(m, a, c, ips) else FirstMatch(m, b, c, ips)
  {
    hide Matches;
    if a == [] {
      assert a + b == b;
    } else {
      assert (a + b)[1..] == a[1..] + b;
      FirstMatchConcat(m, a[1..], b, c, ips);
    }
  }

  lemma OneRule(m: Matchers, r: Rule, c: Conn, ips: seq<string>)
    ensures FirstMatch(m, [r], c, ips) == if Matches(m, r, c, ips) then Some(r.outbound) else None
  {
    hide Matches;
  }

  /** Zero or one rule. */
  function Maybe(on: bool, r: Rule): seq<Rule> {
    if on then [r] else []
  }

  lemma MaybeRule(m: Matchers, on: bool, r: Rule, rest: seq<Rule>, c: Conn, ips: seq<string>)
    ensures FirstMatch(m, Maybe(on, r) + rest, c, ips)
            == if on && Matches(m, r, c, ips) then Some(r.outbound) else FirstMatch(m, rest, c, ips)
  {
    FirstMatchConcat(m, Maybe(on, r), rest, c, ips);
    OneRule(m, r, c, ips);
    hide Matches;
  }

  /** The rules of one user mean what the policy says. */
  lemma UserRulesMean(m: Matchers, u: UserPolicy, c: Conn, ips: seq<string>)
    ensures FirstMatch(m, UserDomainRules(u), c, ips) == Verdict(m, u, c, ips)
  {
    if Effective(u) {
      var out := if u.mode == "blacklist" then Block else Direct;
      var d := Rule([u.email], [], u.domains, [], [], out);
      var i := Rule([u.email], [], [], u.ips, [], out);
      var all := Rule([u.email], [], [], [], [Tcp, Udp], Block);
      var tail := Maybe(u.mode == "whitelist", all);
      var wanted := Maybe(u.domains != [], d) + (Maybe(u.ips != [], i) + (tail + []));
      assert UserDomainRules(u) == wanted by {
        assert tail + [] == tail;
        assert wanted == Maybe(u.domains != [], d) + Maybe(u.ips != [], i) + tail;
        if u.mode == "blacklist" {
          assert tail == [];
        } else {
          assert u.mode == "whitelist" && u.mode != "blacklist";
        }
      }
      hide UserDomainRules;
      MaybeRule(m, u.domains != [], d, Maybe(u.ips != [], i) + (tail + []), c, ips);
      MaybeRule(m, u.ips != [], i, tail + [], c, ips);
      MaybeRule(m, u.mode == "whitelist", all, [], c, ips);
      assert [Tcp, Udp][0] == Tcp && [Tcp, Udp][1] == Udp;
      assert c.network == Tcp || c.network == Udp;
      assert u.email == c.user <==> c.user in [u.email];
    }
  }

  /** One user's rules in plain words: they touch nobody else; a blacklist blocks
      what one of its matchers hits and says nothing else; a whitelist lets that
      through and blocks the rest; an empty list, an unknown mode and a user
      without a name make no difference. */
  lemma {:induction false} UserRulesPlain(m: Matchers, u: UserPolicy, c: Conn, ips: seq<string>)
    ensures var first := FirstMatch(m, UserDomainRules(u), c, ips);
            var hit := || (c.target.Domain? && exists p | p in u.domains :: m.domain(p, c.target.name))
                       || (exists p, a | p in u.ips && a in ips :: m.ip(p, a));
            && (u.email != c.user || u.email == "" || (u.domains == [] && u.ips == []) ==> first == None)
            && (u.mode != "blacklist" && u.mode != "whitelist" ==> first == None)
            && (u.email == c.user != "" && u.mode == "blacklist" ==> first == if hit then Some(Block) else None)
            && (u.email == c.user != "" && u.mode == "whitelist" && (u.domains != [] || u.ips != []) ==>
                  first == Some(if hit then Direct else Block))
  {
    UserRulesMean(m, u, c, ips);
    assert DomainHit(m, u.domains, c) <==> c.target.Domain? && exists p | p in u.domains :: m.domain(p, c.target.name);
    assert IPHit(m, u.ips, ips) <==> exists p, a | p in u.ips && a in ips :: m.ip(p, a);
    assert u.domains == [] ==> !DomainHit(m, u.domains, c);
    assert u.ips == [] ==> !IPHit(m, u.ips, ips);
    hide FirstMatch, UserDomainRules, DomainHit, IPHit;
  }

  lemma {:induction false} VerdictsSnoc(m: Matchers, us: seq<UserPolicy>, u: UserPolicy, c: Conn, ips: seq<string>)
    ensures Verdicts(m, us + [u], c, ips)
            == if Verdicts(m, us, c, ips).Some? then Verdicts(m, us, c, ips) else Verdict(m, u, c, ips)
  {
    hide Verdict;
    if us == [] {
      assert us + [u] == [u] && [u][1..] == [];
    } else {
      assert (us + [u])[1..] == us[1..] + [u];
      VerdictsSnoc(m, us[1..], u, c, ips);
    }
  }

  lemma {:induction false} AllUserRulesMean(m: Matchers, us: seq<UserPolicy>, c: Conn, ips: seq<string>)
    ensures FirstMatch(m, AllUserRules(us), c, ips) == Verdicts(m, us, c, ips)
  {
    hide Verdict, UserDomainRules, Matches;
    if us != [] {
      var front, u := us[..|us| - 1], us[|us| - 1];
      AllUserRulesMean(m, front, c, ips);
      FirstMatchConcat(m, AllUserRules(front), UserDomainRules(u), c, ips);
      UserRulesMean(m, u, c, ips);
      VerdictsSnoc(m, front, u, c, ips);
      assert us == front + [u];
    }
  }

  lemma GlobalRulesMean(m: Matchers, inp: Input, c: Conn, ips: seq<string>)
    ensures FirstMatch(m, GlobalRules(inp), c, ips) == if GloballyBlocked(m, inp, c, ips) then Some(Block) else None
  {
    var b := Rule([], ["bittorrent"], [], [], [], Block);
    var i := Rule([], [], [], inp.blockIPs, [], Block);
    assert GlobalRules(inp) == Maybe(inp.blockBittorrent, b) + (Maybe(inp.blockIPs != [], i) + []);
    MaybeRule(m, inp.blockBittorrent, b, Maybe(inp.blockIPs != [], i) + [], c, ips);
    MaybeRule(m, inp.blockIPs != [], i, [], c, ips);
  }

  /** The compiler preserves meaning, for any list of policies: the first match
      is the global block, or else the verdict of the first policy of that user
      that has one. */
  lemma CompiledMeans(m: Matchers, inp: Input, c: Conn, ips: seq<string>)
    ensures FirstMatch(m, Compiled(inp).rules, c, ips)
            == if GloballyBlocked(m, inp, c, ips) then Some(Block) else Verdicts(m, inp.userDomains, c, ips)
  {
    FirstMatchConcat(m, GlobalRules(inp), AllUserRules(inp.userDomains), c, ips);
    GlobalRulesMean(m, inp, c, ips);
    AllUserRulesMean(m, inp.userDomains, c, ips);
  }

  // ---- distinct users ----

  ghost predicate Distinct(us: seq<UserPolicy>) {
    forall i, j | 0 <= i < j < |us| :: us[i].email != us[j].email
  }

  /** The declarative policy: bittorrent, then the global address list, then
      the filter of that very user, else direct. */
  ghost predicate Policy(m: Matchers, inp: Input, c: Conn, ips: seq<string>, decision: Outbound) {
    if GloballyBlocked(m, inp, c, ips) then decision == Block
    else if exists u :: u in inp.userDomains && u.email == c.user && Effective(u) then
      forall u | u in inp.userDomains && u.email == c.user && Effective(u) ::
        if u.mode == "blacklist"
        then (decision == Block <==> Listed(m, u, c, ips))
        else (decision == Direct <==> Listed(m, u, c, ips))
    else decision == Direct
  }

  /** With distinct users the verdict is that of the user's own policy. */
  lemma {:induction false} VerdictsDistinct(m: Matchers, us: seq<UserPolicy>, u: UserPolicy, c: Conn, ips: seq<string>)
    requires Distinct(us) && u in us && u.email == c.user
    ensures Verdicts(m, us, c, ips) == Verdict(m, u, c, ips)
  {
    hide Listed;
    if us[0] == u {
      NobodyElse(m, us[1..], c, ips);
    } else {
      var k :| 0 <= k < |us| && us[k] == u;
      assert us[1..][k - 1] == u;
      VerdictsDistinct(m, us[1..], u, c, ips);
    }
  }

  lemma {:induction false} NobodyElse(m: Matchers, us: seq<UserPolicy>, c: Conn, ips: seq<string>)
    requires forall v | v in us :: v.email != c.user || !Effective(v)
    ensures Verdicts(m, us, c, ips) == None
  {
    hide Listed;
    if us != [] {
      assert us[0] in us;
      NobodyElse(m, us[1..], c, ips);
    }
  }

  /** For distinct users, first-match evaluation of the generated rules is the
      declarative policy. */
  lemma CompiledIsPolicy(m: Matchers, inp: Input, c: Conn, ips: seq<string>)
    requires Distinct(inp.userDomains)
    ensures Policy(m, inp, c, ips, OrDirect(FirstMatch(m, Compiled(inp).rules, c, ips)))
  {
    CompiledMeans(m, inp, c, ips);
    hide Listed, Compiled, FirstMatch;
    var us := inp.userDomains;
    if u :| u in us && u.email == c.user && Effective(u) {
      VerdictsDistinct(m, us, u, c, ips);
      forall v | v in us && v.email == c.user ensures v == u {
        var i :| 0 <= i < |us| && us[i] == u;
        var j :| 0 <= j < |us| && us[j] == v;
      }
    } else {
      NobodyElse(m, us, c, ips);
    }
  }

  /** The policies of one user, in order. */
  ghost function PoliciesOf(us: seq<UserPolicy>, user: string): seq<UserPolicy> {
    if us == [] then []
    else (if us[0].email == user then [us[0]] else []) + PoliciesOf(us[1..], user)
  }

  lemma {:induction false} VerdictsOfUser(m: Matchers, us: seq<UserPolicy>, c: Conn, ips: seq<string>)
    ensures Verdicts(m, us, c, ips) == Verdicts(m, PoliciesOf(us, c.user), c, ips)
  {
    hide Listed;
    if us != [] {
      VerdictsOfUser(m, us[1..], c, ips);
      var rest := PoliciesOf(us[1..], c.user);
      if us[0].email == c.user {
        assert ([us[0]] + rest)[1..] == rest;
      } else {
        assert [] + rest == rest;
      }
    }
  }

  /** Non-interference of one pass: given the addresses, what matches depends on
      the global rules and on that user's own policies only.  Whether there is a
      second pass depends on everybody: see Resolution.RouteInterference. */
  lemma NonInterference(m: Matchers, inp: Input, inp': Input, c: Conn, ips: seq<string>)
    requires inp.blockBittorrent == inp'.blockBittorrent && inp.blockIPs == inp'.blockIPs
    requires PoliciesOf(inp.userDomains, c.user) == PoliciesOf(inp'.userDomains, c.user)
    ensures FirstMatch(m, Compiled(inp).rules, c, ips) == FirstMatch(m, Compiled(inp').rules, c, ips)
  {
    CompiledMeans(m, inp, c, ips);
    CompiledMeans(m, inp', c, ips);
    VerdictsOfUser(m, inp.userDomains, c, ips);
    VerdictsOfUser(m, inp'.userDomains, c, ips);
    hide FirstMatch, Compiled, Verdicts;
  }

  /** Permuting the policies of distinct users changes no match, given the
      addresses. */
  lemma SameMatchInAnyOrder(m: Matchers, inp: Input, inp': Input, c: Conn, ips: seq<string>)
    requires inp.blockBittorrent == inp'.blockBittorrent && inp.blockIPs == inp'.blockIPs
    requires multiset(inp.userDomains) == multiset(inp'.userDomains)
    requires Distinct(inp.userDomains) && Distinct(inp'.userDomains)
    ensures FirstMatch(m, Compiled(inp).rules, c, ips) == FirstMatch(m, Compiled(inp').rules, c, ips)
  {
    CompiledMeans(m, inp, c, ips);
    CompiledMeans(m, inp', c, ips);
    hide FirstMatch, Compiled, Listed, Verdicts;
    var us, us' := inp.userDomains, inp'.userDomains;
    SameMembers(us, us');
    if u :| u in us && u.email == c.user {
      VerdictsDistinct(m, us, u, c, ips);
      VerdictsDistinct(m, us', u, c, ips);
    } else {
      NobodyElse(m, us, c, ips);
      NobodyElse(m, us', c, ips);
    }
  }

  lemma SameMembers(us: seq<UserPolicy>, us': seq<UserPolicy>)
    requires multiset(us) == multiset(us')
    ensures forall u :: u in us <==> u in us'
  {
    forall u ensures u in us <==> u in us' {
      assert u in us <==> u in multiset(us);
      assert u in us' <==> u in multiset(us');
    }
  }
}
