/** What a config does to a connection, said of the config's own entries:
    src/internal/commands/node.go:443-501 and README.md:232-237, 430-449. */
module FilterLaws {
  import opened Options
  import opened Text
  import D = DomainList
  import L = DomainListLaws
  import S = SourceLaws
  import opened Routing
  import opened Resolution
  import opened FilterPipeline

  /** The node's own blocks come first, whoever asks: bittorrent, and an address in
      a private range. */
  lemma {:induction false} NodeBlocks(m: Matchers, fs: D.Store, cfg: AppConfig, c: Conn, dns: seq<string>, p: string)
    ensures "bittorrent" in cfg.blockProtocols && c.protocol == "bittorrent" ==>
              Route(m, Compiled(InputFor(fs, cfg)), c, dns) == Block
    ensures !cfg.allowPrivateIP && c.target.Address? && p in D.PRIVATE_CIDRS && m.ip(p, c.target.ip) ==>
              Route(m, Compiled(InputFor(fs, cfg)), c, dns) == Block
  {
    CompiledMeans(m, InputFor(fs, cfg), c, Known(c));
    if c.target.Address? {
      assert c.target.ip in Known(c);
    }
    hide FirstMatch, Compiled, Verdicts, Policies, AnyCountry;
  }

  /** The node blocks nothing that this connection could meet. */
  predicate Unblocked(cfg: AppConfig, c: Conn) {
    cfg.allowPrivateIP && (c.protocol != "bittorrent" || "bittorrent" !in cfg.blockProtocols)
  }

  /** An unfiltered client goes anywhere. */
  lemma {:induction false} UnfilteredGoes(m: Matchers, fs: D.Store, cfg: AppConfig, cl: Client,
                                          c: Conn, dns: seq<string>)
    requires DistinctClients(cfg.clients) && cl in cfg.clients && c.user == cl.uuid && Unblocked(cfg, c)
    requires cl.domains == [] || (cl.mode != "blacklist" && cl.mode != "whitelist")
    ensures Route(m, Compiled(InputFor(fs, cfg)), c, dns) == Direct
  {
    EmptyFilterIsNoFilter(m, fs, cfg, cl, c, dns);
    hide Route, Compiled, AnyCountry, InputFor, StandsForSomething, DistinctClients;
  }

  // ----- plain domains -----

  /** Sources that are matchers for domains, with no mark. */
  predicate PlainSources(sources: seq<string>) {
    sources != [] && forall s | s in sources :: Trimmed(s) && s != "" && !S.Marked(s)
  }

  /** The domain asked for is on the list. */
  predicate OnList(m: Matchers, sources: seq<string>, c: Conn) {
    c.target.Domain? && exists s | s in sources :: m.domain(s, c.target.name)
  }

  lemma PlainItem(fs: D.Store, s: string)
    requires Trimmed(s) && s != "" && !S.Marked(s)
    ensures D.SourceItems(fs, s) == [D.Dom(s)]
  {
    L.PlainIsItself(fs, s);
    hide D.SourceItems;
  }

  lemma {:induction false} PlainNames(m: Matchers, fs: D.Store, cl: Client, c: Conn, ips: seq<string>)
    requires PlainSources(cl.domains)
    ensures Names(m, fs, cl, c, ips) <==> OnList(m, cl.domains, c)
    ensures StandsForSomething(fs, cl)
  {
    hide D.SourceItems, S.Marked;
    forall s | s in cl.domains ensures D.SourceItems(fs, s) == [D.Dom(s)] {
      PlainItem(fs, s);
    }
    assert cl.domains[0] in cl.domains && StandsFor(fs, cl, cl.domains[0], D.Dom(cl.domains[0]));
    if Names(m, fs, cl, c, ips) {
      var s, i :| s in cl.domains && i in D.SourceItems(fs, s) && Hits(m, i, c, ips);
      assert i == D.Dom(s);
    }
    if OnList(m, cl.domains, c) {
      var s :| s in cl.domains && m.domain(s, c.target.name);
      assert D.Dom(s) in D.SourceItems(fs, s) && Hits(m, D.Dom(s), c, ips);
    }
  }

  /** A list of domains, as the config gives it: a blacklist blocks exactly the
      domains on it, a whitelist lets exactly these through, whatever DNS says
      and whatever others have configured. */
  lemma {:induction false} DomainsFilter(m: Matchers, fs: D.Store, cfg: AppConfig, cl: Client,
                                         c: Conn, dns: seq<string>)
    requires DistinctClients(cfg.clients) && cl in cfg.clients && c.user == cl.uuid && Unblocked(cfg, c)
    requires PlainSources(cl.domains)
    ensures cl.mode == "blacklist" ==>
              (Route(m, Compiled(InputFor(fs, cfg)), c, dns) == Block <==> OnList(m, cl.domains, c))
    ensures cl.mode == "whitelist" ==>
              (Route(m, Compiled(InputFor(fs, cfg)), c, dns) == Direct <==> OnList(m, cl.domains, c))
  {
    PlainNames(m, fs, cl, c, Known(c));
    PlainNames(m, fs, cl, c, dns);
    EndToEndRoute(m, fs, cfg, cl, c, dns);
    hide Route, Compiled, AnyCountry, InputFor, StandsForSomething, DistinctClients, Names, OnList;
  }

  // ----- a list of domains -----

  lemma PlainLinesStand(lines: seq<string>)
    requires PlainSources(lines)
    ensures S.Flat(lines) == lines
  {
    S.FlatAll(lines);
    assert forall l | l in lines :: !S.RefersToList(l);
  }

  lemma {:induction false} ListNames(m: Matchers, fs: D.Store, cl: Client, t: string, lines: seq<string>,
                                     c: Conn, ips: seq<string>)
    requires cl.domains == [t] && S.StandsForLines(fs, t, lines) && PlainSources(lines)
    ensures Names(m, fs, cl, c, ips) <==> OnList(m, lines, c)
    ensures StandsForSomething(fs, cl)
  {
    PlainLinesStand(lines);
    assert D.Resolution(fs, [t]) == D.Resolution(fs, lines);
    hide Names, StandsForSomething, OnList, PlainSources, D.Resolution, S.StandsForLines, S.Flat;
    ListedIsNamed(m, fs, cl, c, ips);
    ListedIsNamed(m, fs, cl.(domains := lines), c, ips);
    PlainNames(m, fs, cl.(domains := lines), c, ips);
  }

  /** A list that could be read and holds plain domains filters as these would:
      see SourceLaws.RemoteList and CustomList for the files it is read from. */
  lemma {:induction false} ListFilter(m: Matchers, fs: D.Store, cfg: AppConfig, cl: Client, t: string,
                                      lines: seq<string>, c: Conn, dns: seq<string>)
    requires DistinctClients(cfg.clients) && cl in cfg.clients && c.user == cl.uuid && Unblocked(cfg, c)
    requires cl.domains == [t] && S.StandsForLines(fs, t, lines) && PlainSources(lines)
    ensures cl.mode == "blacklist" ==>
              (Route(m, Compiled(InputFor(fs, cfg)), c, dns) == Block <==> OnList(m, lines, c))
    ensures cl.mode == "whitelist" ==>
              (Route(m, Compiled(InputFor(fs, cfg)), c, dns) == Direct <==> OnList(m, lines, c))
  {
    hide Route, Compiled, AnyCountry, InputFor, StandsForSomething, DistinctClients, Names, OnList, PlainSources;
    hide S.StandsForLines;
    ListNames(m, fs, cl, t, lines, c, Known(c));
    ListNames(m, fs, cl, t, lines, c, dns);
    EndToEndRoute(m, fs, cfg, cl, c, dns);
  }

  // ----- one country -----

  /** Its addresses are known or no data file is needed to tell. */
  predicate Installed(fs: D.Store) {
    fs.dir == None
    || ("geoip.dat" in fs.dir.value && fs.dir.value["geoip.dat"].File? && fs.dir.value["geoip.dat"].size > 0)
  }

  lemma CountryItem(fs: D.Store, t: string)
    requires Trimmed(t) && "geoip:" <= t && !EqualFold(Trim(t[6..]), "private") && Installed(fs)
    ensures D.SourceItems(fs, t) == [D.Ip(t)] && CountryToken(t)
  {
    L.Prefixes(t);
    TrimOnce(t);
    assert !D.IsPrivate(t);
    assert D.CustomRef(t) == None && D.UrlRef(t) == None && D.DatAsset(t) == Some("geoip.dat");
    hide Trim, D.CustomRef, D.UrlRef, D.DatAsset, D.IsPrivate, EqualFold;
  }

  lemma {:induction false} CountryNames(m: Matchers, fs: D.Store, cl: Client, t: string, c: Conn, ips: seq<string>)
    requires cl.domains == [t] && D.SourceItems(fs, t) == [D.Ip(t)] && CountryToken(t)
    ensures Names(m, fs, cl, c, ips) <==> exists a | a in ips :: m.ip(t, a)
    ensures StandsForSomething(fs, cl)
  {
    hide D.SourceItems, CountryToken;
    assert t in cl.domains && StandsFor(fs, cl, t, D.Ip(t));
    if a :| a in ips && m.ip(t, a) {
      assert D.Ip(t) in D.SourceItems(fs, t) && Hits(m, D.Ip(t), c, ips);
    }
  }

  lemma CountrySwitches(fs: D.Store, cfg: AppConfig, cl: Client, t: string)
    requires cl in cfg.clients && FiltersDomains(cl) && cl.domains == [t]
    requires D.SourceItems(fs, t) == [D.Ip(t)] && CountryToken(t)
    ensures AnyCountry(fs, cfg.clients)
  {
    hide D.SourceItems, CountryToken, D.Resolution;
    L.ResolveComplete(fs, cl.domains, t);
    assert t in cl.domains;
  }

  /** A blacklist of one country blocks its addresses, and the domains that DNS
      places there; a whitelist of one country lets its addresses through and
      no domain. */
  lemma {:induction false} CountryFilter(m: Matchers, fs: D.Store, cfg: AppConfig, cl: Client, t: string,
                                         c: Conn, dns: seq<string>)
    requires DistinctClients(cfg.clients) && cl in cfg.clients && c.user == cl.uuid && Unblocked(cfg, c)
    requires cl.domains == [t] && Trimmed(t) && "geoip:" <= t && !EqualFold(Trim(t[6..]), "private") && Installed(fs)
    ensures cl.mode == "blacklist" ==>
              (Route(m, Compiled(InputFor(fs, cfg)), c, dns) == Block
               <==> if c.target.Address? then m.ip(t, c.target.ip) else exists a | a in dns :: m.ip(t, a))
    ensures cl.mode == "whitelist" ==>
              (Route(m, Compiled(InputFor(fs, cfg)), c, dns) == Direct <==> c.target.Address? && m.ip(t, c.target.ip))
  {
    hide Route, Compiled, AnyCountry, InputFor, StandsForSomething, DistinctClients, Names, CountryToken, D.SourceItems;
    CountryItem(fs, t);
    CountryNames(m, fs, cl, t, c, Known(c));
    CountryNames(m, fs, cl, t, c, dns);
    if FiltersDomains(cl) {
      CountrySwitches(fs, cfg, cl, t);
    }
    EndToEndRoute(m, fs, cfg, cl, c, dns);
    if c.target.Address? {
      assert c.target.ip in Known(c);
    }
  }
}
