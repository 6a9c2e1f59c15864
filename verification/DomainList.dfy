/** Filter sources and their resolution: src/internal/domainlist/domainlist.go. */
module DomainList {
  import opened Options
  import opened Text

  const PRIVATE_CIDRS: seq<string> := [
    "0.0.0.0/8", "10.0.0.0/8", "100.64.0.0/10", "127.0.0.0/8", "169.254.0.0/16", "172.16.0.0/12",
    "192.0.0.0/24", "192.0.2.0/24", "192.168.0.0/16", "198.18.0.0/15", "198.51.100.0/24",
    "203.0.113.0/24", "240.0.0.0/4", "::1/128", "fc00::/7", "fe80::/10"]

  /** What a name in the lists directory is: a directory, or a file of some
      size whose lines the scanner yields until it ends or fails. */
  datatype Entry = Folder | File(size: nat, lines: seq<string>, scanFails: bool)

  /** The lists directory, if one is known, and the digest in the cache name of
      a remote list. */
  datatype Store = Store(dir: Option<map<string, Entry>>, digest: string -> string)

  datatype ListError = NoDirectory | InvalidName | NotFound | ReadFailed

  datatype ListResult = Lines(lines: seq<string>) | Err(error: ListError)

  datatype Warning =
    | Nested(token: string)
    | NotInstalled(token: string, asset: string)
    | BadList(name: string, error: ListError)
    | NotCached(url: string, error: ListError)

  datatype Resolved = Resolved(domains: seq<string>, ips: seq<string>, warnings: seq<Warning>)

  // ---- tokens ----

  function CustomRef(s: string): Option<string> {
    if "file:" <= s then Some(Trim(After("file:", s)))
    else if "list:" <= s then Some(Trim(After("list:", s)))
    else if "@" <= s then Some(Trim(After("@", s)))
    else None
  }

  function UrlRef(s: string): Option<string> {
    if "url:" <= s then Some(Trim(After("url:", s))) else None
  }

  predicate IsPrivate(s: string) {
    "geoip:" <= s && EqualFold(Trim(After("geoip:", s)), "private")
  }

  /** The data file a token depends on. */
  function DatAsset(s: string): Option<string> {
    if "geosite:" <= s then Some("geosite.dat")
    else if "ext:" <= s && IndexOf(After("ext:", s), ':') > 0 then
      var rest := After("ext:", s);
      Some(rest[..IndexOf(rest, ':')])
    else if "geoip:" <= s then (if IsPrivate(s) then None else Some("geoip.dat"))
    else None
  }

  predicate AssetPresent(fs: Store, name: string) {
    fs.dir == None ||
    (name in fs.dir.value && fs.dir.value[name].File? && fs.dir.value[name].size > 0)
  }

  // ---- list files ----

  predicate BadBase(base: string) {
    base == "" || base == "." || base == ".."
  }

  function CacheName(fs: Store, url: string): string {
    "url-" + fs.digest(Trim(url)) + ".txt"
  }

  /** One line of a list file without comment and spaces; empty if nothing is
      left. */
  function CleanLine(raw: string): string {
    var line := Trim(raw);
    if line == "" || "#" <= line then ""
    else
      var i := IndexOf(line, '#');
      if i >= 0 then Trim(line[..i]) else line
  }

  function Clean(raw: seq<string>): seq<string> {
    if raw == [] then []
    else
      var line := CleanLine(raw[|raw| - 1]);
      Clean(raw[..|raw| - 1]) + if line != "" then [line] else []
  }

  function ListFile(fs: Store, filename: string): ListResult {
    if fs.dir == None then Err(NoDirectory)
    else
      var base := Base(filename);
      if BadBase(base) then Err(InvalidName)
      else if base !in fs.dir.value then Err(NotFound)
      else match fs.dir.value[base]
        case Folder => Err(ReadFailed)
        case File(_, lines, scanFails) => if scanFails then Err(ReadFailed) else Lines(Clean(lines))
  }

  function TrimTxt(name: string): string {
    if |name| >= 4 && name[|name| - 4..] == ".txt" then name[..|name| - 4] else name
  }

  function NamedList(fs: Store, name: string): ListResult {
    var base := Base(TrimTxt(name));
    if BadBase(base) then Err(InvalidName) else ListFile(fs, base + ".txt")
  }

  method ReadListFile(fs: Store, filename: string) returns (r: ListResult)
    ensures r == ListFile(fs, filename)
  {
    if fs.dir == None {
      return Err(NoDirectory);
    }
    var base := Base(filename);
    if BadBase(base) {
      return Err(InvalidName);
    }
    if base !in fs.dir.value {
      return Err(NotFound);
    }
    var f := fs.dir.value[base];
    if f.Folder? || f.scanFails {
      return Err(ReadFailed);
    }
    var out: seq<string> := [];
    for i := 0 to |f.lines|
      invariant out == Clean(f.lines[..i])
    {
      assert f.lines[..i + 1][..i] == f.lines[..i];
      var line := Trim(f.lines[i]);
      if line == "" || "#" <= line {
        continue;
      }
      var k := IndexOf(line, '#');
      if k >= 0 {
        line := Trim(line[..k]);
      }
      if line != "" {
        out := out + [line];
      }
    }
    assert f.lines[..|f.lines|] == f.lines;
    return Lines(out);
  }

  /** The file name a list reference opens. */
  function OpenedName(name: string): string {
    Base(Base(TrimTxt(name)) + ".txt")
  }

  /** A file in the directory that can be read to its end. */
  predicate Readable(fs: Store, file: string) {
    && fs.dir.Some? && file in fs.dir.value
    && fs.dir.value[file].File? && !fs.dir.value[file].scanFails
  }

  /** What a list entry looks like: no blank, no outer space, no comment. */
  predicate Entrylike(l: string) {
    l != "" && Trimmed(l) && '#' !in l
  }

  lemma CleanLineClean(raw: string)
    ensures CleanLine(raw) == "" || Entrylike(CleanLine(raw))
  {
    var line := Trim(raw);
    TrimOnce(raw);
    var i := IndexOf(line, '#');
    if i >= 0 {
      TrimOnce(line[..i]);
      TrimKeeps(line[..i], '#');
    }
    hide Trim, Trimmed;
  }

  /** Every entry is what is left of some line, and every line with something
      left is an entry. */
  lemma {:induction false} CleanEntries(raw: seq<string>)
    ensures forall l | l in Clean(raw) :: Entrylike(l)
    ensures forall l :: l in Clean(raw) <==> l != "" && exists r :: r in raw && CleanLine(r) == l
  {
    hide CleanLine, Entrylike;
    if raw != [] {
      var front, last := raw[..|raw| - 1], raw[|raw| - 1];
      assert raw == front + [last];
      CleanEntries(front);
      CleanLineClean(last);
      forall l ensures l in Clean(raw) <==> l != "" && exists r :: r in raw && CleanLine(r) == l {
        if l in Clean(front) {
          var r :| r in front && CleanLine(r) == l;
          assert r in raw;
        } else if l != "" && CleanLine(last) == l {
          assert last in raw;
        }
      }
    }
  }

  /** A named list is read if and only if its name is usable and the one file it
      stands for can be read; then it is what is left of the lines of that
      file.  Otherwise the error says why. */
  lemma NamedListIs(fs: Store, name: string)
    ensures var r, file := NamedList(fs, name), OpenedName(name);
            && (r.Lines? <==> !BadBase(Base(TrimTxt(name))) && Readable(fs, file))
            && (r.Lines? ==>
                  && (forall l | l in r.lines :: Entrylike(l))
                  && (forall l :: l in r.lines <==>
                        l != "" && exists raw :: raw in fs.dir.value[file].lines && CleanLine(raw) == l))
            && (r == Err(InvalidName) <==> BadBase(Base(TrimTxt(name))))
            && (r == Err(NoDirectory) <==> !BadBase(Base(TrimTxt(name))) && fs.dir == None)
            && (r == Err(NotFound) <==>
                  !BadBase(Base(TrimTxt(name))) && fs.dir.Some? && file !in fs.dir.value)
  {
    TxtBase(Base(TrimTxt(name)));
    if Readable(fs, OpenedName(name)) {
      CleanEntries(fs.dir.value[OpenedName(name)].lines);
    }
    hide Clean, CleanLine, Entrylike, Base, TrimTxt;
  }

  /** The state of one name in the directory. */
  predicate SameEntry(fs: Store, other: Store, file: string) {
    && fs.dir.Some? && other.dir.Some?
    && (file in fs.dir.value <==> file in other.dir.value)
    && (file in fs.dir.value ==> fs.dir.value[file] == other.dir.value[file])
  }

  /** A list depends on the one file that its name stands for and on no other. */
  lemma ListReadsOneFile(fs: Store, other: Store, name: string)
    ensures SameEntry(fs, other, OpenedName(name)) ==> NamedList(fs, name) == NamedList(other, name)
    ensures SameEntry(fs, other, Base(name)) ==> ListFile(fs, name) == ListFile(other, name)
  {
    hide Clean, Base, TrimTxt, BadBase;
  }

  lemma TxtBase(x: string)
    ensures var b := Base(x + ".txt"); '/' !in b && !BadBase(b)
  {
    var p := x + ".txt";
    assert p[|p| - 1] == 't' && p[..|p| - 1][|p| - 2] == 'x' && p[..|p| - 1][..|p| - 2][|p| - 3] == 't';
    assert StripSlashes(p) == p;
    var e := LastElement(p);
    assert LastElement(p) == LastElement(p[..|p| - 1]) + ['t'];
    assert LastElement(p[..|p| - 1]) == LastElement(p[..|p| - 1][..|p| - 2]) + ['x'];
    assert LastElement(p[..|p| - 1][..|p| - 2]) == LastElement(p[..|p| - 1][..|p| - 2][..|p| - 3]) + ['t'];
    assert |e| >= 3;
  }

  /** A source cannot leave the lists directory: whatever name it gives, and
      whatever URL, the file opened is one plain path element. */
  lemma {:induction false} ListsStayInDirectory(fs: Store, name: string)
    ensures '/' !in OpenedName(name) && !BadBase(OpenedName(name))
    ensures var c := Base(CacheName(fs, name)); '/' !in c && !BadBase(c)
  {
    TxtBase(Base(TrimTxt(name)));
    TxtBase("url-" + fs.digest(Trim(name)));
  }

  // ---- what a source stands for ----

  datatype Item = Dom(text: string) | Ip(text: string) | Warn(w: Warning)

  function AsIps(cidrs: seq<string>): seq<Item> {
    if cidrs == [] then [] else AsIps(cidrs[..|cidrs| - 1]) + [Ip(cidrs[|cidrs| - 1])]
  }

  /** A single token, after trimming. */
  function TokenItems(fs: Store, t: string): seq<Item> {
    if t == "" then []
    else if CustomRef(t).Some? || UrlRef(t).Some? then [Warn(Nested(t))]
    else if IsPrivate(t) then AsIps(PRIVATE_CIDRS)
    else if DatAsset(t).Some? && !AssetPresent(fs, DatAsset(t).value) then
      [Warn(NotInstalled(t, DatAsset(t).value))]
    else if "geoip:" <= t then [Ip(t)]
    else [Dom(t)]
  }

  function LineItems(fs: Store, lines: seq<string>): seq<Item> {
    if lines == [] then []
    else LineItems(fs, lines[..|lines| - 1]) + TokenItems(fs, Trim(lines[|lines| - 1]))
  }

  /** One source of a client. */
  function SourceItems(fs: Store, source: string): seq<Item> {
    var s := Trim(source);
    if CustomRef(s).Some? then
      match NamedList(fs, CustomRef(s).value)
      case Lines(lines) => LineItems(fs, lines)
      case Err(e) => [Warn(BadList(CustomRef(s).value, e))]
    else if UrlRef(s).Some? then
      match ListFile(fs, CacheName(fs, UrlRef(s).value))
      case Lines(lines) => LineItems(fs, lines)
      case Err(e) => [Warn(NotCached(UrlRef(s).value, e))]
    else TokenItems(fs, s)
  }

  /** All sources, in order. */
  function Items(fs: Store, sources: seq<string>): seq<Item> {
    if sources == [] then []
    else Items(fs, sources[..|sources| - 1]) + SourceItems(fs, sources[|sources| - 1])
  }

  function DomsOf(items: seq<Item>): seq<string> {
    if items == [] then []
    else
      var i := items[|items| - 1];
      DomsOf(items[..|items| - 1]) + if i.Dom? then [i.text] else []
  }

  function IpsOf(items: seq<Item>): seq<string> {
    if items == [] then []
    else
      var i := items[|items| - 1];
      IpsOf(items[..|items| - 1]) + if i.Ip? then [i.text] else []
  }

  function WarnsOf(items: seq<Item>): seq<Warning> {
    if items == [] then []
    else
      var i := items[|items| - 1];
      WarnsOf(items[..|items| - 1]) + if i.Warn? then [i.w] else []
  }

  /** Keep the first of equal entries. */
  function Dedup(xs: seq<string>): seq<string> {
    if xs == [] then []
    else
      var front, x := xs[..|xs| - 1], xs[|xs| - 1];
      Dedup(front) + if x in front then [] else [x]
  }

  function Outcome(items: seq<Item>): Resolved {
    Resolved(Dedup(DomsOf(items)), Dedup(IpsOf(items)), WarnsOf(items))
  }

  /** What resolving the sources yields. */
  function Resolution(fs: Store, sources: seq<string>): Resolved {
    Outcome(Items(fs, sources))
  }

  // ---- the resolver ----

  lemma {:induction false} DedupMembers(xs: seq<string>)
    ensures forall x :: x in Dedup(xs) <==> x in xs
  {
    if xs != [] {
      DedupMembers(xs[..|xs| - 1]);
      assert xs == xs[..|xs| - 1] + [xs[|xs| - 1]];
    }
  }

  lemma Snoc(items: seq<Item>, i: Item)
    ensures DomsOf(items + [i]) == if i.Dom? then DomsOf(items) + [i.text] else DomsOf(items)
    ensures IpsOf(items + [i]) == if i.Ip? then IpsOf(items) + [i.text] else IpsOf(items)
    ensures WarnsOf(items + [i]) == if i.Warn? then WarnsOf(items) + [i.w] else WarnsOf(items)
  {
    assert (items + [i])[..|items|] == items;
  }

  lemma DedupSnoc(xs: seq<string>, x: string)
    ensures Dedup(xs + [x]) == if x in Dedup(xs) then Dedup(xs) else Dedup(xs) + [x]
  {
    assert (xs + [x])[..|xs|] == xs;
    DedupMembers(xs);
  }

  /** The result under construction, with the entries already seen. */
  class Collector {
    var domains: seq<string>
    var ips: seq<string>
    var warnings: seq<Warning>
    var seenDomains: set<string>
    var seenIPs: set<string>
    ghost var items: seq<Item>   // everything that was added, in order

    ghost predicate Valid() reads this {
      && Resolved(domains, ips, warnings) == Outcome(items)
      && (forall e :: e in seenDomains <==> e in domains)
      && (forall e :: e in seenIPs <==> e in ips)
    }

    constructor ()
      ensures Valid() && items == []
    {
      domains, ips, warnings, seenDomains, seenIPs, items := [], [], [], {}, {}, [];
    }

    method AddDomain(e: string)
      requires Valid()
      modifies this
      ensures Valid() && items == old(items) + [Dom(e)]
    {
      Snoc(items, Dom(e));
      DedupSnoc(DomsOf(items), e);
      hide Dedup, DomsOf, IpsOf, WarnsOf;
      items := items + [Dom(e)];
      if e !in seenDomains {
        seenDomains := seenDomains + {e};
        domains := domains + [e];
      }
    }

    method AddIP(e: string)
      requires Valid()
      modifies this
      ensures Valid() && items == old(items) + [Ip(e)]
    {
      Snoc(items, Ip(e));
      DedupSnoc(IpsOf(items), e);
      hide Dedup, DomsOf, IpsOf, WarnsOf;
      items := items + [Ip(e)];
      if e !in seenIPs {
        seenIPs := seenIPs + {e};
        ips := ips + [e];
      }
    }

    method AddWarning(w: Warning)
      requires Valid()
      modifies this
      ensures Valid() && items == old(items) + [Warn(w)]
    {
      Snoc(items, Warn(w));
      hide Dedup, DomsOf, IpsOf, WarnsOf;
      items := items + [Warn(w)];
      warnings := warnings + [w];
    }

    method AddPrivate()
      requires Valid()
      modifies this
      ensures Valid() && items == old(items) + AsIps(PRIVATE_CIDRS)
    {
      hide Dedup, DomsOf, IpsOf, WarnsOf, Outcome;
      var cidrs := PRIVATE_CIDRS;
      for i := 0 to |cidrs|
        invariant Valid() && items == old(items) + AsIps(cidrs[..i])
      {
        AddIP(cidrs[i]);
        assert cidrs[..i + 1][..i] == cidrs[..i];
      }
      assert cidrs[..|cidrs|] == cidrs;
    }

    method Classify(fs: Store, token: string)
      requires Valid()
      modifies this
      ensures Valid() && items == old(items) + TokenItems(fs, Trim(token))
    {
      hide Dedup, DomsOf, IpsOf, WarnsOf, Trim, Outcome, DatAsset, IsPrivate, CustomRef, UrlRef, AsIps;
      var t := Trim(token);
      if t == "" {
        return;
      }
      if CustomRef(t).Some? || UrlRef(t).Some? {
        AddWarning(Nested(t));
        return;
      }
      if IsPrivate(t) {
        AddPrivate();
        return;
      }
      var asset := DatAsset(t);
      if asset.Some? && !AssetPresent(fs, asset.value) {
        AddWarning(NotInstalled(t, asset.value));
        return;
      }
      if "geoip:" <= t {
        AddIP(t);
      } else {
        AddDomain(t);
      }
    }

    method ClassifyAll(fs: Store, lines: seq<string>)
      requires Valid()
      modifies this
      ensures Valid() && items == old(items) + LineItems(fs, lines)
    {
      hide Dedup, DomsOf, IpsOf, WarnsOf, Trim, Outcome, TokenItems;
      for i := 0 to |lines|
        invariant Valid() && items == old(items) + LineItems(fs, lines[..i])
      {
        Classify(fs, lines[i]);
        assert lines[..i + 1][..i] == lines[..i];
      }
      assert lines[..|lines|] == lines;
    }
  }

  /** Resolver.Resolve. */
  method Resolve(fs: Store, sources: seq<string>) returns (res: Resolved)
    ensures res == Resolution(fs, sources)
  {
    hide Dedup, DomsOf, IpsOf, WarnsOf, Trim, Outcome, TokenItems, LineItems;
    hide CustomRef, UrlRef, NamedList, ListFile, CacheName, Base, TrimTxt, BadBase;
    var acc := new Collector();
    for i := 0 to |sources|
      invariant fresh(acc) && acc.Valid() && acc.items == Items(fs, sources[..i])
    {
      assert sources[..i + 1][..i] == sources[..i];
      ResolveOne(fs, acc, sources[i]);
    }
    assert sources[..|sources|] == sources;
    res := Resolved(acc.domains, acc.ips, acc.warnings);
  }

  /** The body of the loop over sources. */
  method ResolveOne(fs: Store, acc: Collector, source: string)
    requires acc.Valid()
    modifies acc
    ensures acc.Valid() && acc.items == old(acc.items) + SourceItems(fs, source)
  {
    hide Dedup, DomsOf, IpsOf, WarnsOf, Outcome, LineItems, CacheName, ListFile, TrimTxt, Base, BadBase;
    TrimOnce(source);
    var s := Trim(source);
    if s == "" {
      EmptySource(fs, source);
      return;
    }
    if CustomRef(s).Some? {
      var name := CustomRef(s).value;
      var r := ReadNamedList(fs, name);
      if r.Err? {
        acc.AddWarning(BadList(name, r.error));
        return;
      }
      acc.ClassifyAll(fs, r.lines);
      return;
    }
    if UrlRef(s).Some? {
      var raw := UrlRef(s).value;
      var r := ReadListFile(fs, CacheName(fs, raw));
      if r.Err? {
        acc.AddWarning(NotCached(raw, r.error));
        return;
      }
      acc.ClassifyAll(fs, r.lines);
      return;
    }
    acc.Classify(fs, s);
  }

  lemma EmptySource(fs: Store, source: string)
    requires Trim(source) == ""
    ensures SourceItems(fs, source) == []
  {}

  method ReadNamedList(fs: Store, name: string) returns (r: ListResult)
    ensures r == NamedList(fs, name)
    ensures r.Lines? <==> !BadBase(Base(TrimTxt(name))) && Readable(fs, OpenedName(name))
    ensures r.Lines? ==> forall l | l in r.lines :: Entrylike(l)
    ensures r.Lines? ==>
              forall l :: l in r.lines <==>
                l != "" && exists raw :: raw in fs.dir.value[OpenedName(name)].lines && CleanLine(raw) == l
    ensures r == Err(InvalidName) <==> BadBase(Base(TrimTxt(name)))
  {
    NamedListIs(fs, name);
    hide Entrylike, CleanLine, Readable, Base, TrimTxt;
    var base := Base(TrimTxt(name));
    if BadBase(base) {
      return Err(InvalidName);
    }
    r := ReadListFile(fs, base + ".txt");
  }
}
