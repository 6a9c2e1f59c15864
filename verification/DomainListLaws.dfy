/** Laws of source resolution. */
module DomainListLaws {
  import opened Options
  import opened Text
  import opened DomainList

  /** The entries of `ys` that are not in `xs`, in order. */
  function Unseen(ys: seq<string>, xs: seq<string>): seq<string> {
    if ys == [] then []
    else
      var y := ys[|ys| - 1];
      Unseen(ys[..|ys| - 1], xs) + if y in xs then [] else [y]
  }

  lemma {:induction false} UnseenMembers(ys: seq<string>, xs: seq<string>)
    ensures forall x :: x in Unseen(ys, xs) <==> x in ys && x !in xs
  {
    if ys != [] {
      UnseenMembers(ys[..|ys| - 1], xs);
      assert ys == ys[..|ys| - 1] + [ys[|ys| - 1]];
    }
  }

  lemma UnseenSnoc(ys: seq<string>, y: string, xs: seq<string>)
    ensures Unseen(ys + [y], xs) == if y in xs then Unseen(ys, xs) else Unseen(ys, xs) + [y]
  {
    assert (ys + [y])[..|ys|] == ys;
  }

  lemma {:induction false} DedupAppend(xs: seq<string>, ys: seq<string>)
    ensures Dedup(xs + ys) == Dedup(xs) + Unseen(Dedup(ys), xs)
  {
    assert ys == [] ==> Dedup(ys) == [] && xs + ys == xs && Unseen([], xs) == [];
    hide Dedup, Unseen;
    if ys != [] {
      var front, y := ys[..|ys| - 1], ys[|ys| - 1];
      assert xs + ys == (xs + front) + [y] && ys == front + [y];
      DedupAppend(xs, front);
      AppendStep(xs, front, y);
    }
  }

  lemma {:induction false} AppendStep(xs: seq<string>, front: seq<string>, y: string)
    requires Dedup(xs + front) == Dedup(xs) + Unseen(Dedup(front), xs)
    ensures Dedup((xs + front) + [y]) == Dedup(xs) + Unseen(Dedup(front + [y]), xs)
  {
    hide Dedup, Unseen;
    DedupMembers(xs + front);
    DedupMembers(front);
    DedupSnoc(xs + front, y);
    DedupSnoc(front, y);
    UnseenSnoc(Dedup(front), y, xs);
    assert y in xs + front <==> y in xs || y in front;
  }

  lemma {:induction false} ItemsAppend(fs: Store, a: seq<string>, b: seq<string>)
    ensures Items(fs, a + b) == Items(fs, a) + Items(fs, b)
  {
    hide SourceItems;
    if b == [] {
      assert a + b == a;
    } else {
      assert (a + b)[..|a + b| - 1] == a + b[..|b| - 1];
      ItemsAppend(fs, a, b[..|b| - 1]);
    }
  }

  lemma {:induction false} PartsAppend(a: seq<Item>, b: seq<Item>)
    ensures DomsOf(a + b) == DomsOf(a) + DomsOf(b)
    ensures IpsOf(a + b) == IpsOf(a) + IpsOf(b)
    ensures WarnsOf(a + b) == WarnsOf(a) + WarnsOf(b)
  {
    if b == [] {
      assert a + b == a;
    } else {
      PartsAppend(a, b[..|b| - 1]);
      PartsMore(a, b[..|b| - 1], b[|b| - 1]);
      assert b == b[..|b| - 1] + [b[|b| - 1]];
      hide DomsOf, IpsOf, WarnsOf;
    }
  }

  lemma {:induction false} PartsMore(a: seq<Item>, front: seq<Item>, i: Item)
    requires DomsOf(a + front) == DomsOf(a) + DomsOf(front)
    requires IpsOf(a + front) == IpsOf(a) + IpsOf(front)
    requires WarnsOf(a + front) == WarnsOf(a) + WarnsOf(front)
    ensures DomsOf(a + (front + [i])) == DomsOf(a) + DomsOf(front + [i])
    ensures IpsOf(a + (front + [i])) == IpsOf(a) + IpsOf(front + [i])
    ensures WarnsOf(a + (front + [i])) == WarnsOf(a) + WarnsOf(front + [i])
  {
    hide DomsOf, IpsOf, WarnsOf;
    assert a + (front + [i]) == (a + front) + [i];
    Snoc(a + front, i);
    Snoc(front, i);
  }

  /** Resolution is an order-preserving homomorphism: resolving a ++ b is
      resolving a, then the entries of b not seen before, field by field, with
      the warnings one after the other.  So one bad source never affects what
      the others contribute. */
  lemma {:induction false} ResolveAppend(fs: Store, a: seq<string>, b: seq<string>)
    ensures var ra, rb, r := Resolution(fs, a), Resolution(fs, b), Resolution(fs, a + b);
            && r.domains == ra.domains + Unseen(rb.domains, ra.domains)
            && r.ips == ra.ips + Unseen(rb.ips, ra.ips)
            && r.warnings == ra.warnings + rb.warnings
            && (forall x :: x in Unseen(rb.domains, ra.domains) <==> x in rb.domains && x !in ra.domains)
            && (forall x :: x in Unseen(rb.ips, ra.ips) <==> x in rb.ips && x !in ra.ips)
  {
    var x, y := Items(fs, a), Items(fs, b);
    ItemsAppend(fs, a, b);
    PartsAppend(x, y);
    DedupAppend(DomsOf(x), DomsOf(y));
    DedupAppend(IpsOf(x), IpsOf(y));
    SeenEitherWay(Dedup(DomsOf(y)), DomsOf(x));
    SeenEitherWay(Dedup(IpsOf(y)), IpsOf(x));
    UnseenMembers(Dedup(DomsOf(y)), Dedup(DomsOf(x)));
    UnseenMembers(Dedup(IpsOf(y)), Dedup(IpsOf(x)));
    hide Items, DomsOf, IpsOf, WarnsOf, Dedup, Unseen;
  }

  lemma {:induction false} SeenEitherWay(ys: seq<string>, xs: seq<string>)
    ensures Unseen(ys, xs) == Unseen(ys, Dedup(xs))
  {
    DedupMembers(xs);
    if ys != [] {
      SeenEitherWay(ys[..|ys| - 1], xs);
    }
  }

  ghost predicate NoDuplicates(xs: seq<string>) {
    forall i, j | 0 <= i < j < |xs| :: xs[i] != xs[j]
  }

  lemma {:induction false} DedupUnique(xs: seq<string>)
    ensures NoDuplicates(Dedup(xs))
  {
    if xs != [] {
      DedupUnique(xs[..|xs| - 1]);
      DedupMembers(xs[..|xs| - 1]);
    }
  }

  lemma {:induction false} DedupOfUnique(xs: seq<string>)
    requires NoDuplicates(xs)
    ensures Dedup(xs) == xs
  {
    if xs != [] {
      DedupOfUnique(xs[..|xs| - 1]);
      assert xs == xs[..|xs| - 1] + [xs[|xs| - 1]];
    }
  }

  /** What can come out as a domain matcher: trimmed, not blank, no list
      reference, no address matcher, with its data file in place. */
  ghost predicate PlainDomain(fs: Store, t: string) {
    && t != "" && Trimmed(t)
    && CustomRef(t) == None && UrlRef(t) == None
    && !("geoip:" <= t)
    && (DatAsset(t).Some? ==> AssetPresent(fs, DatAsset(t).value))
  }

  /** What can come out as an address matcher: a literal private range, or a
      country with the country file in place. */
  ghost predicate Country(fs: Store, t: string) {
    "geoip:" <= t && Trimmed(t) && !IsPrivate(t) && AssetPresent(fs, "geoip.dat")
  }

  ghost predicate Fine(fs: Store, i: Item) {
    match i
    case Dom(t) => PlainDomain(fs, t)
    case Ip(t) => t in PRIVATE_CIDRS || Country(fs, t)
    case Warn(_) => true
  }

  ghost predicate AllFine(fs: Store, items: seq<Item>) {
    forall i | i in items :: Fine(fs, i)
  }

  lemma {:induction false} AsIpsFine(fs: Store, cidrs: seq<string>)
    requires forall c | c in cidrs :: c in PRIVATE_CIDRS
    ensures AllFine(fs, AsIps(cidrs))
  {
    hide Country;
    if cidrs != [] {
      AsIpsFine(fs, cidrs[..|cidrs| - 1]);
    }
  }

  /** A token that starts like an address or a list is nothing else. */
  lemma Prefixes(t: string)
    ensures "geoip:" <= t ==> CustomRef(t) == None && UrlRef(t) == None && !("geosite:" <= t) && !("ext:" <= t)
  {
    if "geoip:" <= t {
      assert t[0] == 'g' && t[3] == 'i';
      assert "geosite:"[3] == 's' && "ext:"[0] == 'e';
      assert "file:"[0] == 'f' && "list:"[0] == 'l' && "@"[0] == '@' && "url:"[0] == 'u';
    }
  }

  lemma TokenFine(fs: Store, t: string)
    requires Trimmed(t)
    ensures AllFine(fs, TokenItems(fs, t))
  {
    AsIpsFine(fs, PRIVATE_CIDRS);
    Prefixes(t);
    hide AsIps, Trim, Trimmed, CustomRef, UrlRef;
  }

  lemma {:induction false} LinesFine(fs: Store, lines: seq<string>)
    ensures AllFine(fs, LineItems(fs, lines))
  {
    hide TokenItems, Fine, Trimmed, Trim;
    if lines != [] {
      LinesFine(fs, lines[..|lines| - 1]);
      TrimOnce(lines[|lines| - 1]);
      TokenFine(fs, Trim(lines[|lines| - 1]));
    }
  }

  lemma {:induction false} SourceFine(fs: Store, source: string)
    ensures AllFine(fs, SourceItems(fs, source))
  {
    hide TokenItems, LineItems, NamedList, ListFile, Trim, Trimmed, CacheName, PlainDomain, Country;
    var s := Trim(source);
    TrimOnce(source);
    TokenFine(fs, s);
    forall lines: seq<string> ensures AllFine(fs, LineItems(fs, lines)) {
      LinesFine(fs, lines);
    }
  }

  lemma {:induction false} ItemsFine(fs: Store, sources: seq<string>)
    ensures AllFine(fs, Items(fs, sources))
  {
    hide SourceItems, Fine;
    if sources != [] {
      ItemsFine(fs, sources[..|sources| - 1]);
      SourceFine(fs, sources[|sources| - 1]);
    }
  }

  lemma {:induction false} PartsMembers(items: seq<Item>)
    ensures forall t :: t in DomsOf(items) <==> Dom(t) in items
    ensures forall t :: t in IpsOf(items) <==> Ip(t) in items
  {
    if items != [] {
      PartsMembers(items[..|items| - 1]);
      assert items == items[..|items| - 1] + [items[|items| - 1]];
    }
  }

  lemma {:induction false} ItemOfSource(fs: Store, sources: seq<string>)
    ensures forall i :: i in Items(fs, sources) <==> exists s :: s in sources && i in SourceItems(fs, s)
  {
    hide SourceItems;
    if sources != [] {
      var front, last := sources[..|sources| - 1], sources[|sources| - 1];
      assert sources == front + [last];
      ItemOfSource(fs, front);
      forall i ensures i in Items(fs, sources) <==> exists s :: s in sources && i in SourceItems(fs, s) {
        if i in Items(fs, front) {
          var s :| s in front && i in SourceItems(fs, s);
          assert s in sources;
        } else if i in SourceItems(fs, last) {
          assert last in sources;
        }
      }
    }
  }

  /** Completeness: a matcher is in the result exactly when some source stands
      for it. */
  lemma {:induction false} ResolveComplete(fs: Store, sources: seq<string>, t: string)
    ensures t in Resolution(fs, sources).domains <==> exists s :: s in sources && Dom(t) in SourceItems(fs, s)
    ensures t in Resolution(fs, sources).ips <==> exists s :: s in sources && Ip(t) in SourceItems(fs, s)
  {
    var items := Items(fs, sources);
    ItemOfSource(fs, sources);
    PartsMembers(items);
    DedupMembers(DomsOf(items));
    DedupMembers(IpsOf(items));
    hide Items, DomsOf, IpsOf, WarnsOf, Dedup, SourceItems;
  }

  /** The outputs have no duplicates, and no list reference, blank or address
      among the domains; the addresses are literal private ranges or countries
      whose data file is in place. */
  lemma {:induction false} ResolveClean(fs: Store, sources: seq<string>)
    ensures var r := Resolution(fs, sources);
            && NoDuplicates(r.domains) && NoDuplicates(r.ips)
            && (forall t | t in r.domains :: PlainDomain(fs, t))
            && (forall t | t in r.ips :: t in PRIVATE_CIDRS || Country(fs, t))
  {
    var items := Items(fs, sources);
    ItemsFine(fs, sources);
    PartsMembers(items);
    DedupMembers(DomsOf(items));
    DedupMembers(IpsOf(items));
    DedupUnique(DomsOf(items));
    DedupUnique(IpsOf(items));
    hide Items, DomsOf, IpsOf, WarnsOf, Dedup, PlainDomain, Country, NoDuplicates;
    forall t | t in Resolution(fs, sources).domains ensures PlainDomain(fs, t) {
      assert Fine(fs, Dom(t));
    }
    forall t | t in Resolution(fs, sources).ips ensures t in PRIVATE_CIDRS || Country(fs, t) {
      assert Fine(fs, Ip(t));
    }
  }

  lemma PlainIsItself(fs: Store, t: string)
    requires PlainDomain(fs, t)
    ensures SourceItems(fs, t) == [Dom(t)]
  {
    TrimOnce(t);
    hide Trim, Trimmed, CustomRef, UrlRef, DatAsset, AssetPresent, AsIps, NamedList, ListFile;
  }

  lemma {:induction false} PlainItems(fs: Store, ts: seq<string>)
    requires forall t | t in ts :: PlainDomain(fs, t)
    ensures DomsOf(Items(fs, ts)) == ts && IpsOf(Items(fs, ts)) == [] && WarnsOf(Items(fs, ts)) == []
  {
    hide PlainDomain, SourceItems;
    if ts != [] {
      var front, t := ts[..|ts| - 1], ts[|ts| - 1];
      PlainItems(fs, front);
      PlainIsItself(fs, t);
      Snoc(Items(fs, front), Dom(t));
      assert ts == front + [t];
      hide DomsOf, IpsOf, WarnsOf;
    }
  }

  /** Resolving the domain output again, on the same files, gives it back
      unchanged, without addresses and without warnings. */
  lemma {:induction false} ResolveIdempotent(fs: Store, sources: seq<string>)
    ensures var d := Resolution(fs, sources).domains; Resolution(fs, d) == Resolved(d, [], [])
  {
    var d := Resolution(fs, sources).domains;
    ResolveClean(fs, sources);
    PlainItems(fs, d);
    DedupOfUnique(d);
    hide Items, DomsOf, IpsOf, WarnsOf, PlainDomain, NoDuplicates;
  }
}
