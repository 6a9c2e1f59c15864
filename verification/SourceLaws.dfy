/** What each kind of filter source resolves to, said of the source's own text
    and of the files: src/internal/domainlist/domainlist.go:1-26, 84-163. */
module SourceLaws {
  import opened Options
  import opened Text
  import opened DomainList
  import L = DomainListLaws

  lemma One(fs: Store, s: string)
    ensures Items(fs, [s]) == SourceItems(fs, s)
  {
    assert [s][..0] == [];
    assert [] + SourceItems(fs, s) == SourceItems(fs, s);
    hide SourceItems;
  }

  lemma OneItem(i: Item)
    ensures Outcome([i]) == Resolved(if i.Dom? then [i.text] else [], if i.Ip? then [i.text] else [],
                                     if i.Warn? then [i.w] else [])
  {
    var none: seq<Item> := [];
    assert none + [i] == [i];
    Snoc(none, i);
    var empty: seq<string> := [];
    if !i.Warn? {
      assert empty + [i.text] == [i.text];
      DedupSnoc(empty, i.text);
    }
  }

  /** Spaces around a source do not matter, and blank sources stand for nothing. */
  lemma {:induction false} SpacesDoNotMatter(fs: Store, s: string)
    ensures Resolution(fs, [s]) == Resolution(fs, [Trim(s)])
    ensures Trim(s) == "" ==> Resolution(fs, [s]) == Resolved([], [], [])
  {
    One(fs, s);
    One(fs, Trim(s));
    TrimOnce(s);
    hide Trim, Trimmed, NamedList, ListFile, CacheName, LineItems;
  }

  // ----- single matchers -----

  /** Does the text say that it is a list, or needs a data file? */
  predicate Marked(t: string) {
    "file:" <= t || "list:" <= t || "@" <= t || "url:" <= t
    || "geosite:" <= t || "geoip:" <= t || "ext:" <= t
  }

  /** Anything without a mark is a domain matcher and stands for itself. */
  lemma {:induction false} PlainSource(fs: Store, t: string)
    requires Trimmed(t) && t != "" && !Marked(t)
    ensures Resolution(fs, [t]) == Resolved([t], [], [])
  {
    L.PlainIsItself(fs, t);
    One(fs, t);
    OneItem(Dom(t));
    hide SourceItems, Items, Outcome;
  }

  /** The items of a source that is no list. */
  lemma TokenSource(fs: Store, t: string, i: Item)
    requires Trimmed(t) && CustomRef(t) == None && UrlRef(t) == None && TokenItems(fs, t) == [i]
    ensures Resolution(fs, [t]) == Outcome([i])
  {
    TrimOnce(t);
    One(fs, t);
    hide Trim, TokenItems, Outcome;
  }

  /** A geosite category is a domain matcher if geosite.dat is a file with something
      in it, or no directory is known; otherwise it is skipped with a warning. */
  lemma {:induction false} GeositeSource(fs: Store, t: string)
    requires Trimmed(t) && "geosite:" <= t
    ensures Resolution(fs, [t])
            == if fs.dir.Some? && !("geosite.dat" in fs.dir.value && fs.dir.value["geosite.dat"].File?
                                    && fs.dir.value["geosite.dat"].size > 0)
               then Resolved([], [], [NotInstalled(t, "geosite.dat")])
               else Resolved([t], [], [])
  {
    assert t[0] == 'g' && t[3] == 's' && "geoip:"[3] == 'i';
    assert "file:"[0] == 'f' && "list:"[0] == 'l' && "@"[0] == '@' && "url:"[0] == 'u';
    var i := if AssetPresent(fs, "geosite.dat") then Dom(t) else Warn(NotInstalled(t, "geosite.dat"));
    assert TokenItems(fs, t) == [i];
    TokenSource(fs, t, i);
    OneItem(i);
    hide Outcome, TokenItems, Trim;
  }

  /** A country is an address matcher on the same terms. */
  lemma {:induction false} CountrySource(fs: Store, t: string)
    requires Trimmed(t) && "geoip:" <= t && !EqualFold(Trim(t[6..]), "private")
    ensures Resolution(fs, [t])
            == if fs.dir.Some? && !("geoip.dat" in fs.dir.value && fs.dir.value["geoip.dat"].File?
                                    && fs.dir.value["geoip.dat"].size > 0)
               then Resolved([], [], [NotInstalled(t, "geoip.dat")])
               else Resolved([], [t], [])
  {
    L.Prefixes(t);
    var i := if AssetPresent(fs, "geoip.dat") then Ip(t) else Warn(NotInstalled(t, "geoip.dat"));
    assert !IsPrivate(t);
    assert TokenItems(fs, t) == [i];
    TokenSource(fs, t, i);
    OneItem(i);
    hide Outcome, TokenItems, Trim;
  }

  /** The private ranges need no data file. */
  lemma {:induction false} PrivateSource(fs: Store, t: string)
    requires Trimmed(t) && "geoip:" <= t && EqualFold(Trim(t[6..]), "private")
    ensures var r := Resolution(fs, [t]);
            r.domains == [] && r.warnings == [] && forall c :: c in r.ips <==> c in PRIVATE_CIDRS
  {
    L.Prefixes(t);
    TrimOnce(t);
    One(fs, t);
    assert SourceItems(fs, t) == AsIps(PRIVATE_CIDRS) by {
      hide AsIps, Trim;
    }
    IpsAlone(PRIVATE_CIDRS);
    DedupMembers(PRIVATE_CIDRS);
    hide SourceItems, AsIps, DomsOf, IpsOf, WarnsOf, Trim;
  }

  lemma AsIpsMore(cidrs: seq<string>)
    requires cidrs != []
    ensures AsIps(cidrs) == AsIps(cidrs[..|cidrs| - 1]) + [Ip(cidrs[|cidrs| - 1])]
  {}

  lemma {:induction false} IpsAlone(cidrs: seq<string>)
    ensures DomsOf(AsIps(cidrs)) == [] && IpsOf(AsIps(cidrs)) == cidrs && WarnsOf(AsIps(cidrs)) == []
  {
    if cidrs != [] {
      var front, c := cidrs[..|cidrs| - 1], cidrs[|cidrs| - 1];
      hide DomsOf, IpsOf, WarnsOf, AsIps;
      IpsAlone(front);
      AsIpsMore(cidrs);
      Snoc(AsIps(front), Ip(c));
      assert cidrs == front + [c];
    }
  }

  /** In any case of letters. */
  lemma PrivateInCapitals(fs: Store)
    ensures var r := Resolution(fs, ["geoip:PRIVATE"]); "10.0.0.0/8" in r.ips && r.warnings == []
  {
    var t := "geoip:PRIVATE";
    assert t[6..] == "PRIVATE" && PRIVATE_CIDRS[1] == "10.0.0.0/8";
    CapitalsFold();
    TrimOnce("PRIVATE");
    hide Trim, Resolution, EqualFold;
    PrivateSource(fs, t);
  }

  lemma CapitalsFold()
    ensures EqualFold("PRIVATE", "private")
  {
    var a, b := "PRIVATE", "private";
    assert Lower(a[0]) == b[0] && Lower(a[1]) == b[1] && Lower(a[2]) == b[2] && Lower(a[3]) == b[3];
    assert Lower(a[4]) == b[4] && Lower(a[5]) == b[5] && Lower(a[6]) == b[6];
  }

  /** A category of an external file needs that file. */
  lemma {:induction false} ExternalSource(fs: Store, file: string, category: string)
    requires var t := "ext:" + file + ":" + category; Trimmed(t)
    requires file != "" && ':' !in file
    ensures var t := "ext:" + file + ":" + category;
            Resolution(fs, [t])
            == if fs.dir.Some? && !(file in fs.dir.value && fs.dir.value[file].File? && fs.dir.value[file].size > 0)
               then Resolved([], [], [NotInstalled(t, file)])
               else Resolved([t], [], [])
  {
    var t := "ext:" + file + ":" + category;
    assert After("ext:", t) == file + ":" + category;
    FirstColon(file, category);
    assert t[0] == 'e' && "geosite:"[0] == 'g' && "geoip:"[0] == 'g';
    assert "file:"[0] == 'f' && "list:"[0] == 'l' && "@"[0] == '@' && "url:"[0] == 'u';
    var i := if AssetPresent(fs, file) then Dom(t) else Warn(NotInstalled(t, file));
    assert DatAsset(t) == Some(file);
    hide DatAsset;
    assert TokenItems(fs, t) == [i];
    TokenSource(fs, t, i);
    OneItem(i);
    hide Outcome, TokenItems, Trim;
  }

  /** Without a file name or without a category it is taken for a domain. */
  lemma {:induction false} ExternalUnnamed(fs: Store, t: string)
    requires Trimmed(t) && "ext:" <= t && (':' !in t[4..] || t[4] == ':')
    ensures Resolution(fs, [t]) == Resolved([t], [], [])
  {
    assert t[0] == 'e' && "geosite:"[0] == 'g' && "geoip:"[0] == 'g';
    assert "file:"[0] == 'f' && "list:"[0] == 'l' && "@"[0] == '@' && "url:"[0] == 'u';
    var rest := After("ext:", t);
    assert rest == t[4..] && IndexOf(rest, ':') <= 0;
    assert DatAsset(t) == None;
    hide DatAsset;
    assert TokenItems(fs, t) == [Dom(t)];
    TokenSource(fs, t, Dom(t));
    OneItem(Dom(t));
    hide Outcome, TokenItems, Trim;
  }

  lemma {:induction false} FirstColon(file: string, category: string)
    requires ':' !in file
    ensures IndexOf(file + ":" + category, ':') == |file|
    ensures (file + ":" + category)[..|file|] == file
  {
    var s := file + ":" + category;
    if file == "" {
      assert s[0] == ':';
    } else {
      assert s[0] == file[0] && s[1..] == file[1..] + ":" + category;
      FirstColon(file[1..], category);
    }
  }

  // ----- list files -----

  /** A comment reaches to the end of its line; what stands before it counts,
      without the spaces around it. */
  lemma {:induction false} CommentCut(a: string, b: string)
    requires '#' !in a
    ensures CleanLine(a) == Trim(a) && CleanLine(a + ['#'] + b) == Trim(a)
  {
    TrimKeeps(a, '#');
    TrimLeftKeeps(a, '#');
    TrimAround(a, '#', b);
    CleanAt(TrimLeft(a), TrimRight(b), a + ['#'] + b);
    hide Trim, TrimLeft, TrimRight, IsSpace;
  }

  lemma CleanAt(p: string, q: string, raw: string)
    requires '#' !in p && Trim(raw) == p + ['#'] + q && (p == "" ==> Trim(p) == "")
    ensures CleanLine(raw) == Trim(p)
  {
    var line := p + ['#'] + q;
    assert line[|p|] == '#' && line[..|p|] == p;
    assert IndexOf(line, '#') == |p|;
    hide Trim, IndexOf;
  }

  /** The entries of a file are those of its lines, in order. */
  lemma {:induction false} LinesInOrder(a: seq<string>, b: seq<string>)
    ensures Clean(a + b) == Clean(a) + Clean(b)
  {
    hide CleanLine;
    if b == [] {
      assert a + b == a;
    } else {
      assert (a + b)[..|a + b| - 1] == a + b[..|b| - 1] && (a + b)[|a + b| - 1] == b[|b| - 1];
      LinesInOrder(a, b[..|b| - 1]);
    }
  }

  lemma OneLine(raw: string)
    ensures Clean([raw]) == if CleanLine(raw) == "" then [] else [CleanLine(raw)]
  {
    assert [raw][..0] == [];
    hide CleanLine;
  }

  // ----- lists -----

  /** Does a line of a list refer to a list itself? */
  predicate RefersToList(t: string) {
    "file:" <= t || "list:" <= t || "@" <= t || "url:" <= t
  }

  lemma RefersIff(t: string)
    ensures RefersToList(t) <==> CustomRef(t).Some? || UrlRef(t).Some?
  {
    hide Trim;
  }

  /** The lines of a list that refer to no list. */
  function Flat(lines: seq<string>): seq<string> {
    if lines == [] then []
    else
      var l := lines[|lines| - 1];
      Flat(lines[..|lines| - 1]) + if RefersToList(l) then [] else [l]
  }

  /** The entries of a list stand for what they would as sources, one by one; a
      reference to another list gives just its warning. */
  ghost predicate LineByLine(fs: Store, lines: seq<string>) {
    var items, flat := LineItems(fs, lines), Items(fs, Flat(lines));
    && DomsOf(items) == DomsOf(flat) && IpsOf(items) == IpsOf(flat)
    && |Flat(lines)| <= |lines| && |WarnsOf(items)| == |WarnsOf(flat)| + |lines| - |Flat(lines)|
    && (forall l | l in lines && RefersToList(l) :: Nested(l) in WarnsOf(items))
    && (Flat(lines) == lines ==> items == flat)
  }

  lemma {:induction false} EntriesStand(fs: Store, lines: seq<string>)
    requires forall l | l in lines :: Entrylike(l)
    ensures LineByLine(fs, lines)
  {
    if lines != [] {
      var front, l := lines[..|lines| - 1], lines[|lines| - 1];
      assert lines == front + [l];
      hide LineByLine, Entrylike;
      EntriesStand(fs, front);
      if RefersToList(l) {
        NestedMore(fs, front, l);
      } else {
        EntryMore(fs, front, l);
      }
    }
  }

  lemma {:induction false} NestedMore(fs: Store, front: seq<string>, l: string)
    requires LineByLine(fs, front) && Entrylike(l) && RefersToList(l)
    ensures LineByLine(fs, front + [l])
  {
    hide LineItems, Items, DomsOf, IpsOf, WarnsOf, RefersToList, Flat, Entrylike;
    LineMore(fs, front, l);
    FlatMore(front, l);
    Snoc(LineItems(fs, front), Warn(Nested(l)));
  }

  lemma {:induction false} EntryMore(fs: Store, front: seq<string>, l: string)
    requires LineByLine(fs, front) && Entrylike(l) && !RefersToList(l)
    ensures LineByLine(fs, front + [l])
  {
    hide LineItems, Items, DomsOf, IpsOf, WarnsOf, RefersToList, Flat, Entrylike, SourceItems;
    LineMore(fs, front, l);
    FlatMore(front, l);
    L.PartsAppend(LineItems(fs, front), SourceItems(fs, l));
    L.PartsAppend(Items(fs, Flat(front)), SourceItems(fs, l));
  }

  lemma FlatMore(front: seq<string>, l: string)
    ensures Flat(front + [l]) == if RefersToList(l) then Flat(front) else Flat(front) + [l]
    ensures Flat(front + [l]) == front + [l] && |Flat(front)| <= |front| ==> Flat(front) == front && !RefersToList(l)
  {
    assert (front + [l])[..|front|] == front;
    hide RefersToList;
  }

  lemma LineMore(fs: Store, front: seq<string>, l: string)
    requires Entrylike(l)
    ensures LineItems(fs, front + [l])
            == LineItems(fs, front) + if RefersToList(l) then [Warn(Nested(l))] else SourceItems(fs, l)
    ensures Items(fs, front + [l]) == Items(fs, front) + SourceItems(fs, l)
    ensures Items(fs, Flat(front) + [l]) == Items(fs, Flat(front)) + SourceItems(fs, l)
  {
    assert (front + [l])[..|front|] == front;
    assert (Flat(front) + [l])[..|Flat(front)|] == Flat(front);
    EntryItems(fs, l);
    hide SourceItems, TokenItems, Entrylike, Trim;
  }

  lemma EntryItems(fs: Store, l: string)
    requires Entrylike(l)
    ensures Trim(l) == l
    ensures TokenItems(fs, l) == if RefersToList(l) then [Warn(Nested(l))] else SourceItems(fs, l)
  {
    TrimOnce(l);
    RefersIff(l);
    hide Trim, RefersToList, CustomRef, UrlRef, IsPrivate, DatAsset, NamedList, ListFile;
  }

  /** A list whose lines can be read resolves to what its lines would as sources,
      those that refer to lists left out; each of these adds one warning.  With
      none of these, the list is as good as its lines. */
  ghost predicate StandsForLines(fs: Store, source: string, lines: seq<string>) {
    var r, plain := Resolution(fs, [source]), Resolution(fs, Flat(lines));
    && r.domains == plain.domains && r.ips == plain.ips
    && |Flat(lines)| <= |lines| && |r.warnings| == |plain.warnings| + |lines| - |Flat(lines)|
    && (forall l | l in lines && RefersToList(l) :: Nested(l) in r.warnings)
    && (Flat(lines) == lines ==> r == Resolution(fs, lines))
  }

  lemma ListStands(fs: Store, source: string, lines: seq<string>)
    requires SourceItems(fs, source) == LineItems(fs, lines) && forall l | l in lines :: Entrylike(l)
    ensures StandsForLines(fs, source, lines)
  {
    One(fs, source);
    EntriesStand(fs, lines);
    hide SourceItems, LineItems, Items, DomsOf, IpsOf, WarnsOf, Dedup, RefersToList, Flat, Entrylike;
  }

  /** Flat drops nothing exactly when no line refers to a list. */
  lemma {:induction false} FlatAll(lines: seq<string>)
    ensures |Flat(lines)| <= |lines|
    ensures Flat(lines) == lines <==> forall l | l in lines :: !RefersToList(l)
  {
    hide RefersToList;
    if lines != [] {
      var front, l := lines[..|lines| - 1], lines[|lines| - 1];
      assert lines == front + [l];
      FlatAll(front);
      FlatMore(front, l);
    }
  }

  /** A cached remote list.  `file` is the cache file of the list; if it can be
      read, the source stands for its lines, otherwise for one warning. */
  lemma {:induction false} RemoteList(fs: Store, t: string)
    requires Trimmed(t) && "url:" <= t
    ensures var url := Trim(t[4..]);
            var file := Base("url-" + fs.digest(url) + ".txt");
            if fs.dir.Some? && file in fs.dir.value && fs.dir.value[file].File? && !fs.dir.value[file].scanFails
            then StandsForLines(fs, t, Clean(fs.dir.value[file].lines))
            else exists e :: Resolution(fs, [t]) == Resolved([], [], [NotCached(url, e)])
  {
    var url := Trim(t[4..]);
    hide Trim, Trimmed, Base, CacheName, ListFile, StandsForLines, Outcome, Clean, Entrylike, SourceItems, Resolution;
    RemoteItems(fs, t);
    TrimOnce(t[4..]);
    CacheFile(fs, url);
    match ListFile(fs, CacheName(fs, url))
    case Lines(lines) =>
      CleanEntries(fs.dir.value[Base("url-" + fs.digest(url) + ".txt")].lines);
      ListStands(fs, t, lines);
    case Err(e) => WarnedList(fs, t, NotCached(url, e));
  }

  lemma WarnedList(fs: Store, t: string, w: Warning)
    requires SourceItems(fs, t) == [Warn(w)]
    ensures Resolution(fs, [t]) == Resolved([], [], [w])
  {
    One(fs, t);
    OneItem(Warn(w));
    hide SourceItems, Outcome, Items;
  }

  lemma RemoteItems(fs: Store, t: string)
    requires Trimmed(t) && "url:" <= t
    ensures var url := Trim(t[4..]);
            var r := ListFile(fs, CacheName(fs, url));
            SourceItems(fs, t) == if r.Lines? then LineItems(fs, r.lines) else [Warn(NotCached(url, r.error))]
  {
    TrimOnce(t);
    UrlMark(t);
    hide Trim, Base, CacheName, ListFile, LineItems, NamedList, CustomRef, UrlRef, TokenItems;
  }

  lemma UrlMark(t: string)
    requires "url:" <= t
    ensures CustomRef(t) == None && UrlRef(t) == Some(Trim(t[4..]))
  {
    assert t[0] == 'u' && "file:"[0] == 'f' && "list:"[0] == 'l' && "@"[0] == '@';
    hide Trim;
  }

  /** Spaces around a URL lead to the same cache file. */
  lemma {:induction false} SameCacheFile(fs: Store, url: string)
    ensures CacheName(fs, url) == "url-" + fs.digest(Trim(url)) + ".txt" == CacheName(fs, Trim(url))
  {
    TrimOnce(url);
    hide Trim;
  }

  lemma CacheFile(fs: Store, url: string)
    requires Trim(url) == url
    ensures var file, r := Base("url-" + fs.digest(url) + ".txt"), ListFile(fs, CacheName(fs, url));
            && (r.Lines? <==> && fs.dir.Some? && file in fs.dir.value && fs.dir.value[file].File?
                              && !fs.dir.value[file].scanFails)
            && (r.Lines? ==> r.lines == Clean(fs.dir.value[file].lines))
  {
    TxtBase("url-" + fs.digest(url));
    assert CacheName(fs, url) == "url-" + fs.digest(url) + ".txt";
    hide Trim, Base, Clean, CacheName;
  }

  /** A custom list, by any of its three marks. */
  lemma {:induction false} CustomList(fs: Store, t: string, name: string)
    requires Trimmed(t)
    requires || ("file:" <= t && name == Trim(t[5..])) || ("list:" <= t && name == Trim(t[5..]))
             || ("@" <= t && name == Trim(t[1..]))
    ensures var r := NamedList(fs, name);
            && (r.Lines? ==> StandsForLines(fs, t, r.lines))
            && (!r.Lines? ==> Resolution(fs, [t]) == Resolved([], [], [BadList(name, r.error)]))
  {
    hide Trim, Trimmed, NamedList, StandsForLines, Outcome, Entrylike, CleanLine, SourceItems, Resolution;
    CustomItems(fs, t, name);
    NamedListIs(fs, name);
    match NamedList(fs, name)
    case Lines(lines) => ListStands(fs, t, lines);
    case Err(e) => WarnedList(fs, t, BadList(name, e));
  }

  lemma CustomItems(fs: Store, t: string, name: string)
    requires Trimmed(t)
    requires || ("file:" <= t && name == Trim(t[5..])) || ("list:" <= t && name == Trim(t[5..]))
             || ("@" <= t && name == Trim(t[1..]))
    ensures var r := NamedList(fs, name);
            SourceItems(fs, t) == if r.Lines? then LineItems(fs, r.lines) else [Warn(BadList(name, r.error))]
  {
    TrimOnce(t);
    assert "file:"[0] == 'f' && "list:"[0] == 'l' && "@"[0] == '@';
    assert CustomRef(t) == Some(name);
    hide Trim, CustomRef, NamedList, LineItems;
  }

  /** Which file a plain list name stands for. */
  lemma {:induction false} ListFileName(x: string)
    requires x != "" && '/' !in x && !(|x| >= 4 && x[|x| - 4..] == ".txt")
    ensures OpenedName(x) == x + ".txt" && OpenedName(x + ".txt") == x + ".txt"
  {
    assert TrimTxt(x) == x;
    TrimsTxt(x);
    BaseOfPlain(x);
    BaseOfPlain(x + ".txt");
    hide Base, TrimTxt;
  }

  lemma TrimsTxt(x: string)
    ensures TrimTxt(x + ".txt") == x
  {
    assert (x + ".txt")[|x|..] == ".txt" && (x + ".txt")[..|x|] == x;
  }
}
