/** Certificate files and when they count as good: EnsureCert, needsRenewal,
    obtain and writeFileAtomic of src/internal/acme/acme.go.  Any system call may
    be the last one that takes effect. */
module CertIssue {
  import opened Text

  const RENEW_BEFORE: int := 30 * 24 * 3600

  datatype Name = CertFile | KeyFile | EnvFile | Temp(of: Name)

  /** What a parsed certificate says. */
  datatype Leaf = Leaf(domains: set<string>, notAfter: int)

  /** File contents; `issue` tells which order they come from. */
  datatype Content =
    | CertOf(issue: int, leaf: Leaf)
    | KeyOf(issue: int)
    | EnvOf(issue: int, text: string)
    | Junk

  type Disk = map<Name, Content>

  // ----- Deciding -----

  function EnvName(staging: bool): string {
    if staging then "staging" else "prod"
  }

  /** A marker that cannot be read counts as empty. */
  function EnvText(d: Disk): string {
    if EnvFile in d && d[EnvFile].EnvOf? then d[EnvFile].text else ""
  }

  /** The recorded environment differs from this build's. */
  predicate EnvMarker(d: Disk, staging: bool) {
    Trim(EnvText(d)) != EnvName(staging)
  }

  predicate Good(leaf: Leaf, domain: string, now: int) {
    domain in leaf.domains && now + RENEW_BEFORE <= leaf.notAfter
  }

  predicate NeedsRenewal(d: Disk, domain: string, staging: bool, now: int) {
    if CertFile !in d || !d[CertFile].CertOf? then true
    else if domain !in d[CertFile].leaf.domains then true
    else if EnvMarker(d, staging) then true
    else now + RENEW_BEFORE > d[CertFile].leaf.notAfter
  }

  /** Certificate, key and marker of one issue are in place. */
  predicate Complete(d: Disk, issue: int) {
    && CertFile in d && d[CertFile].CertOf? && d[CertFile].issue == issue
    && KeyFile in d && d[KeyFile] == KeyOf(issue)
    && EnvFile in d && d[EnvFile].EnvOf? && d[EnvFile].issue == issue
  }

  // ----- Writing -----

  /** One system call that takes effect. */
  datatype Call = Create(f: Name) | Fill(f: Name, c: Content) | Rename(f: Name)

  function Do(d: Disk, c: Call): Disk {
    match c
    case Create(f) => d[Temp(f) := Junk]
    case Fill(f, x) => d[Temp(f) := x]
    case Rename(f) => if Temp(f) in d then (d - {Temp(f)})[f := d[Temp(f)]] else d
  }

  function DoAll(d: Disk, calls: seq<Call>): Disk
    decreases |calls|
  {
    if calls == [] then d else DoAll(Do(d, calls[0]), calls[1..])
  }

  /** Temporary file first, then the rename. */
  function AtomicWrite(f: Name, c: Content): seq<Call> {
    [Create(f), Fill(f, c), Rename(f)]
  }

  /** Certificate, key, marker. */
  function Plan(issue: int, leaf: Leaf, staging: bool): seq<Call> {
    AtomicWrite(CertFile, CertOf(issue, leaf)) + AtomicWrite(KeyFile, KeyOf(issue))
    + AtomicWrite(EnvFile, EnvOf(issue, EnvName(staging) + "\n"))
  }

  function First(calls: seq<Call>, n: nat): seq<Call> {
    if n < |calls| then calls[..n] else calls
  }

  lemma {:induction false} DoAllAppend(d: Disk, a: seq<Call>, b: seq<Call>)
    ensures DoAll(d, a + b) == DoAll(DoAll(d, a), b)
    decreases |a|
  {
    hide Do;
    if a == [] {
      assert a + b == b;
    } else {
      assert (a + b)[1..] == a[1..] + b;
      DoAllAppend(Do(d, a[0]), a[1..], b);
    }
  }

  lemma FirstOfTwo(d: Disk, a: seq<Call>, b: seq<Call>, n: nat)
    ensures DoAll(d, First(a + b, n))
            == if n < |a| then DoAll(d, First(a, n)) else DoAll(DoAll(d, First(a, n)), First(b, n - |a|))
  {
    hide DoAll;
    if n < |a| {
      assert First(a + b, n) == First(a, n);
    } else {
      assert First(a, n) == a;
      assert First(a + b, n) == a + First(b, n - |a|);
      DoAllAppend(d, a, First(b, n - |a|));
    }
  }

  class CertDir {
    var files: Disk
    /** How many more system calls will take effect. */
    var calls: nat

    constructor (files: Disk, calls: nat)
      ensures this.files == files && this.calls == calls
    {
      this.files, this.calls := files, calls;
    }

    method Try(c: Call) returns (ok: bool)
      modifies this
      ensures ok <==> old(calls) > 0
      ensures files == if ok then Do(old(files), c) else old(files)
      ensures calls == if ok then old(calls) - 1 else 0
    {
      ok := calls > 0;
      if ok {
        files := Do(files, c);
        calls := calls - 1;
      }
    }

    method WriteFileAtomic(f: Name, c: Content) returns (ok: bool)
      modifies this
      ensures ok <==> old(calls) >= 3
      ensures files == DoAll(old(files), First(AtomicWrite(f, c), old(calls)))
      ensures calls == if ok then old(calls) - 3 else 0
    {
      ThreeCalls(files, f, c);
      hide Do, DoAll;
      ok := Try(Create(f));
      if !ok { return; }
      ok := Try(Fill(f, c));
      if !ok { return; }
      ok := Try(Rename(f));
    }

    /** The write sequence of an order that the CA has answered. */
    method Obtain(issue: int, leaf: Leaf, staging: bool) returns (ok: bool)
      modifies this
      ensures ok <==> old(calls) >= 9
      ensures files == DoAll(old(files), First(Plan(issue, leaf, staging), old(calls)))
    {
      hide DoAll, First;
      var cert, key := AtomicWrite(CertFile, CertOf(issue, leaf)), AtomicWrite(KeyFile, KeyOf(issue));
      var env := AtomicWrite(EnvFile, EnvOf(issue, EnvName(staging) + "\n"));
      FirstOfTwo(files, cert + key, env, calls);
      FirstOfTwo(files, cert, key, calls);
      ok := WriteFileAtomic(CertFile, CertOf(issue, leaf));
      if !ok { return; }
      ok := WriteFileAtomic(KeyFile, KeyOf(issue));
      if !ok { return; }
      ok := WriteFileAtomic(EnvFile, EnvOf(issue, EnvName(staging) + "\n"));
    }

    /** EnsureCert, when the CA would answer with `leaf` as order `issue`. */
    method EnsureCert(domain: string, staging: bool, agreed: bool, now: int, issue: int, leaf: Leaf)
      returns (outcome: Outcome)
      modifies this
      ensures outcome == Outcome.NoDomain <==> domain == ""
      ensures domain != "" ==>
                && (outcome == Kept <==> !NeedsRenewal(old(files), domain, staging, now))
                && (outcome == NotAgreed <==> NeedsRenewal(old(files), domain, staging, now) && !agreed)
                && (outcome == Issued <==> NeedsRenewal(old(files), domain, staging, now) && agreed && old(calls) >= 9)
      ensures files == if domain != "" && agreed && NeedsRenewal(old(files), domain, staging, now)
                       then DoAll(old(files), First(Plan(issue, leaf, staging), old(calls)))
                       else old(files)
      ensures domain != "" && agreed ==>
                files == Ensured(old(files), staging, Attempt(domain, now, issue, leaf, old(calls)))
    {
      if domain == "" {
        return NoDomain;
      }
      if !NeedsRenewal(files, domain, staging, now) {
        return Kept;
      }
      if !agreed {
        return NotAgreed;
      }
      var ok := Obtain(issue, leaf, staging);
      return if ok then Issued else Failed;
    }
  }

  datatype Outcome = NoDomain | Kept | NotAgreed | Issued | Failed

  lemma DoOne(d: Disk, a: Call)
    ensures DoAll(d, [a]) == Do(d, a)
  {
    hide Do;
    assert [a][1..] == [];
  }

  lemma DoThree(d: Disk, a: Call, b: Call, c: Call)
    ensures DoAll(d, [a, b]) == Do(Do(d, a), b)
    ensures DoAll(d, [a, b, c]) == Do(Do(Do(d, a), b), c)
  {
    hide Do, DoAll;
    DoOne(d, a);
    DoOne(Do(d, a), b);
    DoOne(Do(Do(d, a), b), c);
    assert [a] + [b] == [a, b] && [a, b] + [c] == [a, b, c];
    DoAllAppend(d, [a], [b]);
    DoAllAppend(d, [a, b], [c]);
  }

  lemma ThreeCalls(d: Disk, f: Name, c: Content)
    ensures var w := AtomicWrite(f, c);
            && DoAll(d, First(w, 0)) == d && DoAll(d, First(w, 1)) == Do(d, w[0])
            && DoAll(d, First(w, 2)) == Do(Do(d, w[0]), w[1])
            && forall n: nat | n >= 3 :: DoAll(d, First(w, n)) == Do(Do(Do(d, w[0]), w[1]), w[2])
  {
    var w := AtomicWrite(f, c);
    assert DoAll(d, []) == d;
    hide Do, DoAll, AtomicWrite;
    assert First(w, 0) == [] && First(w, 1) == [w[0]] && First(w, 2) == [w[0], w[1]];
    assert forall n: nat | n >= 3 :: First(w, n) == [w[0], w[1], w[2]];
    DoOne(d, w[0]);
    DoThree(d, w[0], w[1], w[2]);
  }

  // ----- Cut off anywhere -----

  predicate SameFile(d: Disk, e: Disk, f: Name) {
    (f in d <==> f in e) && (f in d ==> d[f] == e[f])
  }

  predicate Holds(d: Disk, f: Name, c: Content) {
    f in d && d[f] == c
  }

  lemma WriteEffect(d: Disk, f: Name, c: Content, n: nat, g: Name)
    requires !f.Temp? && !g.Temp?
    ensures var e := DoAll(d, First(AtomicWrite(f, c), n));
            if n >= 3 && g == f then Holds(e, g, c) else SameFile(d, e, g)
  {
    hide DoAll, First;
    ThreeCalls(d, f, c);
    var k: nat := if n < 3 then n else 3;
    assert DoAll(d, First(AtomicWrite(f, c), n)) == DoAll(d, First(AtomicWrite(f, c), k)) by {
      if n >= 3 {
        assert DoAll(d, First(AtomicWrite(f, c), 3)) == Do(Do(Do(d, Create(f)), Fill(f, c)), Rename(f));
      }
    }
  }

  /** The files when the write sequence is cut off after `n` calls. */
  ghost function CutAt(d: Disk, issue: int, leaf: Leaf, staging: bool, n: nat): Disk {
    DoAll(d, First(Plan(issue, leaf, staging), n))
  }

  /** Nothing is half-written: each file is either as it was or new, and they
      change in the order certificate, key, marker. */
  lemma CutEffect(d: Disk, issue: int, leaf: Leaf, staging: bool, n: nat)
    ensures var e := CutAt(d, issue, leaf, staging, n);
            && (if n >= 3 then Holds(e, CertFile, CertOf(issue, leaf)) else SameFile(d, e, CertFile))
            && (if n >= 6 then Holds(e, KeyFile, KeyOf(issue)) else SameFile(d, e, KeyFile))
            && (if n >= 9 then Holds(e, EnvFile, EnvOf(issue, EnvName(staging) + "\n")) else SameFile(d, e, EnvFile))
  {
    hide DoAll, First;
    var cert, key := CertOf(issue, leaf), KeyOf(issue);
    var env := EnvOf(issue, EnvName(staging) + "\n");
    var w, x, y := AtomicWrite(CertFile, cert), AtomicWrite(KeyFile, key), AtomicWrite(EnvFile, env);
    FirstOfTwo(d, w + x, y, n);
    FirstOfTwo(d, w, x, n);
    var a := DoAll(d, First(w, n));
    OneWrite(d, CertFile, cert, n);
    if n >= 3 {
      var b := DoAll(a, First(x, n - 3));
      OneWrite(a, KeyFile, key, n - 3);
      if n >= 6 {
        OneWrite(b, EnvFile, env, n - 6);
      }
    }
    hide AtomicWrite, EnvName;
  }

  lemma OneWrite(d: Disk, f: Name, c: Content, n: nat)
    requires !f.Temp?
    ensures var e := DoAll(d, First(AtomicWrite(f, c), n));
            && (if n >= 3 then Holds(e, f, c) else SameFile(d, e, f))
            && (f != CertFile ==> SameFile(d, e, CertFile))
            && (f != KeyFile ==> SameFile(d, e, KeyFile))
            && (f != EnvFile ==> SameFile(d, e, EnvFile))
  {
    hide DoAll, First, AtomicWrite;
    WriteEffect(d, f, c, n, f);
    WriteEffect(d, f, c, n, CertFile);
    WriteEffect(d, f, c, n, KeyFile);
    WriteEffect(d, f, c, n, EnvFile);
  }

  lemma TrimEnv(staging: bool)
    ensures Trim(EnvName(staging) + "\n") == EnvName(staging)
  {
    var e := EnvName(staging);
    assert (e + "\n")[..|e|] == e;
    assert TrimLeft(e + "\n") == e + "\n";
    assert TrimRight(e) == e;
  }

  /** A finished issue is accepted by the build that made it for as long as the
      certificate itself is good, and never by the other build. */
  lemma FinishedIssue(d: Disk, issue: int, leaf: Leaf, staging: bool, n: nat, domain: string, later: int)
    requires n >= 9
    ensures var e := CutAt(d, issue, leaf, staging, n);
            && Complete(e, issue)
            && (NeedsRenewal(e, domain, staging, later) <==> !Good(leaf, domain, later))
            && NeedsRenewal(e, domain, !staging, later)
  {
    CutEffect(d, issue, leaf, staging, n);
    TrimEnv(staging);
    hide CutAt, Trim;
  }

  /** No file on the disk comes from this order. */
  predicate Unused(d: Disk, issue: int) {
    && (CertFile in d && d[CertFile].CertOf? ==> d[CertFile].issue != issue)
    && (KeyFile in d ==> d[KeyFile] != KeyOf(issue))
    && (EnvFile in d && d[EnvFile].EnvOf? ==> d[EnvFile].issue != issue)
  }

  /** After the cut, a renewal is still asked for, or the issue is complete. */
  ghost predicate SafeCut(d: Disk, issue: int, leaf: Leaf, staging: bool, n: nat, domain: string, later: int) {
    var e := CutAt(d, issue, leaf, staging, n);
    NeedsRenewal(e, domain, staging, later) || Complete(e, issue)
  }

  lemma OneCut(d: Disk, issue: int, leaf: Leaf, staging: bool, n: nat, domain: string, now: int, later: int)
    requires NeedsRenewal(d, domain, staging, now) && now <= later && Unused(d, issue)
    ensures SafeCut(d, issue, leaf, staging, n, domain, later)
            <==> n < 3 || n >= 9 || EnvMarker(d, staging) || !Good(leaf, domain, later)
  {
    CutEffect(d, issue, leaf, staging, n);
    hide CutAt, Trim;
  }

  /** Interrupting an issue is safe at every point if and only if the marker did
      not match when it started, or the new certificate is not good anyway. */
  lemma CutSafeIff(d: Disk, issue: int, leaf: Leaf, staging: bool, domain: string, now: int, later: int)
    requires NeedsRenewal(d, domain, staging, now) && now <= later && Unused(d, issue)
    ensures (forall n: nat :: SafeCut(d, issue, leaf, staging, n, domain, later))
            <==> EnvMarker(d, staging) || !Good(leaf, domain, later)
  {
    hide SafeCut, EnvMarker, Good, NeedsRenewal, Unused;
    forall n: nat
      ensures SafeCut(d, issue, leaf, staging, n, domain, later)
              <==> n < 3 || n >= 9 || EnvMarker(d, staging) || !Good(leaf, domain, later)
    {
      OneCut(d, issue, leaf, staging, n, domain, now, later);
    }
    assert SafeCut(d, issue, leaf, staging, 3, domain, later) <==> EnvMarker(d, staging) || !Good(leaf, domain, later);
  }

  // ----- Retrying -----

  /** One EnsureCert call: the order it would place, and how far it gets. */
  datatype Attempt = Attempt(domain: string, now: int, issue: int, leaf: Leaf, calls: nat)

  ghost function Ensured(d: Disk, staging: bool, a: Attempt): Disk {
    if NeedsRenewal(d, a.domain, staging, a.now) then CutAt(d, a.issue, a.leaf, staging, a.calls) else d
  }

  ghost function Retried(d: Disk, staging: bool, tries: seq<Attempt>): Disk {
    if tries == [] then d else Ensured(Retried(d, staging, tries[..|tries| - 1]), staging, tries[|tries| - 1])
  }

  lemma {:induction false} MarkerStays(d: Disk, staging: bool, tries: seq<Attempt>)
    requires EnvMarker(d, staging) && forall i | 0 <= i < |tries| :: tries[i].calls < 9
    ensures EnvMarker(Retried(d, staging, tries), staging)
  {
    if tries != [] {
      var before, a := tries[..|tries| - 1], tries[|tries| - 1];
      MarkerStays(d, staging, before);
      CutEffect(Retried(d, staging, before), a.issue, a.leaf, staging, a.calls);
      hide CutAt, Trim, NeedsRenewal;
    }
  }

  /** First issue, or a switch of CA environment: with any number of cut-off
      attempts before it, only an attempt that got through makes the files count
      as good, and then all three are its own. */
  lemma {:induction false} FirstIssueSafe(d: Disk, staging: bool, tries: seq<Attempt>, last: Attempt,
                                              domain: string, later: int)
    requires EnvMarker(d, staging) && forall i | 0 <= i < |tries| :: tries[i].calls < 9
    ensures var e := Retried(d, staging, tries + [last]);
            !NeedsRenewal(e, domain, staging, later) ==> last.calls >= 9 && Complete(e, last.issue)
  {
    MarkerStays(d, staging, tries);
    var c := Retried(d, staging, tries);
    assert (tries + [last])[..|tries|] == tries;
    assert Retried(d, staging, tries + [last]) == Ensured(c, staging, last);
    CutEffect(c, last.issue, last.leaf, staging, last.calls);
    hide CutAt, Trim, Retried;
  }

  // ----- Where a cut is not safe -----

  /** A renewal with the same CA, cut off after the certificate: the new
      certificate stands beside the old key, and no renewal is asked for. */
  lemma RenewalCutUnsafe(domain: string)
    ensures var d := map[CertFile := CertOf(1, Leaf({domain}, 0)), KeyFile := KeyOf(1), EnvFile := EnvOf(1, "prod\n")];
            var leaf := Leaf({domain}, 2 * RENEW_BEFORE);
            var e := CutAt(d, 2, leaf, false, 3);
            && Complete(d, 1) && NeedsRenewal(d, domain, false, 0) && !NeedsRenewal(e, domain, false, 0)
            && Holds(e, CertFile, CertOf(2, leaf)) && Holds(e, KeyFile, KeyOf(1))
  {
    var d := map[CertFile := CertOf(1, Leaf({domain}, 0)), KeyFile := KeyOf(1), EnvFile := EnvOf(1, "prod\n")];
    CutEffect(d, 2, Leaf({domain}, 2 * RENEW_BEFORE), false, 3);
    TrimEnv(false);
    hide CutAt, Trim;
  }

  /** A switch away from a complete issue, cut off anywhere: when the earlier
      build comes back it asks for a renewal, or finds one issue complete, if and
      only if the cut was before the first rename or after the last, or the new
      certificate is not good. */
  lemma SwitchBackIff(d: Disk, earlier: int, issue: int, leaf: Leaf, staging: bool, n: nat,
                      domain: string, later: int)
    requires Complete(d, earlier) && earlier != issue && !EnvMarker(d, staging)
    ensures var e := CutAt(d, issue, leaf, !staging, n);
            NeedsRenewal(e, domain, staging, later) || Complete(e, earlier) || Complete(e, issue)
            <==> n < 3 || n >= 9 || !Good(leaf, domain, later)
  {
    CutEffect(d, issue, leaf, !staging, n);
    TrimEnv(staging);
    TrimEnv(!staging);
    hide CutAt, Trim;
  }

  /** What the earlier build takes for good then: cut off before the key is
      renamed, the other environment's certificate with the old key; cut off
      later, certificate and key of the other environment, under the old
      marker. */
  lemma SwitchBackUnsafe(d: Disk, earlier: int, issue: int, leaf: Leaf, staging: bool, n: nat,
                         domain: string, later: int)
    requires Complete(d, earlier) && earlier != issue && !EnvMarker(d, staging)
    requires 3 <= n < 9 && Good(leaf, domain, later)
    ensures var e := CutAt(d, issue, leaf, !staging, n);
            && !NeedsRenewal(e, domain, staging, later)
            && Holds(e, CertFile, CertOf(issue, leaf))
            && Holds(e, KeyFile, KeyOf(if n < 6 then earlier else issue))
            && Holds(e, EnvFile, d[EnvFile])
  {
    CutEffect(d, issue, leaf, !staging, n);
    hide CutAt, Trim;
  }

  // ----- What counts as good, in the files' own terms -----

  /** The files count as good exactly when there is a certificate for the domain
      with thirty days left, and a marker file that names this build's
      environment. */
  lemma {:induction false} AcceptedIff(d: Disk, domain: string, staging: bool, now: int)
    ensures !NeedsRenewal(d, domain, staging, now)
            <==> && CertFile in d && d[CertFile].CertOf? && domain in d[CertFile].leaf.domains
                 && now + 2_592_000 <= d[CertFile].leaf.notAfter
                 && EnvFile in d && d[EnvFile].EnvOf?
                 && Trim(d[EnvFile].text) == if staging then "staging" else "prod"
  {
    NothingTrimmed();
    hide Trim;
  }

  lemma NothingTrimmed()
    ensures Trim("") == ""
  {}

  /** A missing or foreign marker: no marker file, one that is no text, or one that
      does not name this build's environment. */
  predicate NoMarkerFor(d: Disk, staging: bool) {
    EnvFile in d && d[EnvFile].EnvOf? ==> Trim(d[EnvFile].text) != if staging then "staging" else "prod"
  }

  /** Cut off before the marker is renamed, a first issue still needs renewal. */
  lemma {:induction false} FirstCutNeedsRenewal(d: Disk, issue: int, leaf: Leaf, staging: bool, n: nat,
                                                domain: string, later: int)
    requires EnvFile !in d && n < 9
    ensures NeedsRenewal(CutAt(d, issue, leaf, staging, n), domain, staging, later)
  {
    CutEffect(d, issue, leaf, staging, n);
    AcceptedIff(CutAt(d, issue, leaf, staging, n), domain, staging, later);
    hide CutAt, Trim, NeedsRenewal;
  }

  /** So does a switch from another environment. */
  lemma {:induction false} SwitchCutNeedsRenewal(d: Disk, issue: int, leaf: Leaf, staging: bool, n: nat,
                                                 domain: string, later: int)
    requires NoMarkerFor(d, staging) && n < 9
    ensures NeedsRenewal(CutAt(d, issue, leaf, staging, n), domain, staging, later)
  {
    CutEffect(d, issue, leaf, staging, n);
    AcceptedIff(CutAt(d, issue, leaf, staging, n), domain, staging, later);
    hide CutAt, Trim, NeedsRenewal;
  }

  lemma {:induction false} OtherMarker(d: Disk, issue: int, staging: bool)
    requires EnvFile !in d || d[EnvFile] == EnvOf(issue, if staging then "prod\n" else "staging\n")
    ensures NoMarkerFor(d, staging)
  {
    TrimEnv(!staging);
    assert "staging"[0] == 's' && "prod"[0] == 'p';
    assert "prod" + "\n" == "prod\n" && "staging" + "\n" == "staging\n";
    hide Trim;
  }

  lemma NoMarkerMismatches(d: Disk, staging: bool)
    requires NoMarkerFor(d, staging)
    ensures EnvMarker(d, staging)
  {
    NothingTrimmed();
    hide Trim;
  }

  /** First issue on a disk without a marker, or with the other environment's:
      after any number of cut-off attempts only one that got through makes the
      files count as good, and then certificate, key and marker are its own. */
  lemma {:induction false} FreshIssueSafe(d: Disk, staging: bool, tries: seq<Attempt>, last: Attempt,
                                              domain: string, later: int)
    requires NoMarkerFor(d, staging)
    requires forall i | 0 <= i < |tries| :: tries[i].calls < 9
    ensures var e := Retried(d, staging, tries + [last]);
            !NeedsRenewal(e, domain, staging, later) ==>
              && last.calls >= 9
              && Holds(e, KeyFile, KeyOf(last.issue))
              && CertFile in e && e[CertFile].CertOf? && e[CertFile].issue == last.issue
              && EnvFile in e && e[EnvFile].EnvOf? && e[EnvFile].issue == last.issue
  {
    NoMarkerMismatches(d, staging);
    FirstIssueSafe(d, staging, tries, last, domain, later);
    hide Retried, NeedsRenewal, EnvMarker;
  }
}
