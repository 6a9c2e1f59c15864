/** The string helpers the source takes from Go's standard library. */
module Text {

  /** unicode.IsSpace. */
  predicate IsSpace(c: char) {
    || ('\t' <= c <= '\r') || c == ' '
    || c == '\U{85}' || c == '\U{A0}' || c == '\U{1680}'
    || ('\U{2000}' <= c <= '\U{200A}')
    || c == '\U{2028}' || c == '\U{2029}' || c == '\U{202F}' || c == '\U{205F}' || c == '\U{3000}'
  }

  function TrimLeft(s: string): string {
    if s != [] && IsSpace(s[0]) then TrimLeft(s[1..]) else s
  }

  function TrimRight(s: string): string {
    if s != [] && IsSpace(s[|s| - 1]) then TrimRight(s[..|s| - 1]) else s
  }

  /** strings.TrimSpace. */
  function Trim(s: string): string {
    TrimRight(TrimLeft(s))
  }

  /** Neither end is a space. */
  predicate Trimmed(s: string) {
    s == [] || (!IsSpace(s[0]) && !IsSpace(s[|s| - 1]))
  }

  lemma {:induction false} TrimLeftClean(s: string)
    ensures TrimLeft(s) == [] || !IsSpace(TrimLeft(s)[0])
  {
    hide IsSpace;
    if s != [] && IsSpace(s[0]) {
      TrimLeftClean(s[1..]);
    }
  }

  lemma {:induction false} TrimRightClean(s: string)
    requires s == [] || !IsSpace(s[0])
    ensures Trimmed(TrimRight(s))
  {
    hide IsSpace;
    if s != [] && IsSpace(s[|s| - 1]) {
      TrimRightClean(s[..|s| - 1]);
    }
  }

  /** A trimmed string is trimmed, and trimming it again changes nothing. */
  lemma TrimOnce(s: string)
    ensures Trimmed(Trim(s)) && Trim(Trim(s)) == Trim(s)
    ensures Trimmed(s) ==> Trim(s) == s
  {
    TrimLeftClean(s);
    TrimRightClean(TrimLeft(s));
    hide IsSpace;
  }

  lemma {:induction false} TrimLeftKeeps(s: string, c: char)
    ensures c in TrimLeft(s) ==> c in s
  {
    hide IsSpace;
    if s != [] && IsSpace(s[0]) {
      TrimLeftKeeps(s[1..], c);
    }
  }

  lemma {:induction false} TrimRightKeeps(s: string, c: char)
    ensures c in TrimRight(s) ==> c in s
  {
    hide IsSpace;
    if s != [] && IsSpace(s[|s| - 1]) {
      TrimRightKeeps(s[..|s| - 1], c);
    }
  }

  /** Trimming brings in no character. */
  lemma TrimKeeps(s: string, c: char)
    ensures c in Trim(s) ==> c in s
  {
    TrimLeftKeeps(s, c);
    TrimRightKeeps(TrimLeft(s), c);
    hide TrimLeft, TrimRight;
  }

  lemma {:induction false} TrimLeftCuts(s: string) returns (i: nat)
    ensures i <= |s| && TrimLeft(s) == s[i..] && forall k | 0 <= k < i :: IsSpace(s[k])
  {
    hide IsSpace;
    if s != [] && IsSpace(s[0]) {
      i := TrimLeftCuts(s[1..]);
      i := i + 1;
    } else {
      i := 0;
    }
  }

  lemma {:induction false} TrimRightCuts(s: string) returns (j: nat)
    ensures j <= |s| && TrimRight(s) == s[..j] && forall k | j <= k < |s| :: IsSpace(s[k])
  {
    hide IsSpace;
    if s != [] && IsSpace(s[|s| - 1]) {
      j := TrimRightCuts(s[..|s| - 1]);
    } else {
      j := |s|;
    }
  }

  /** Only spaces are cut off, and all at both ends. */
  lemma {:induction false} TrimCuts(s: string) returns (i: nat, j: nat)
    ensures i <= j <= |s| && Trim(s) == s[i..j] && Trimmed(s[i..j])
    ensures forall k | 0 <= k < i || j <= k < |s| :: IsSpace(s[k])
  {
    hide IsSpace, TrimLeft, TrimRight, Trimmed;
    i := TrimLeftCuts(s);
    j := TrimRightCuts(s[i..]);
    TrimOnce(s);
    j := i + j;
    assert s[i..][..j - i] == s[i..j];
    assert forall k | j <= k < |s| :: s[k] == s[i..][k - i];
  }

  lemma {:induction false} TrimLeftBefore(a: string, r: string)
    requires r != [] && !IsSpace(r[0])
    ensures TrimLeft(a + r) == TrimLeft(a) + r
    ensures TrimLeft(TrimLeft(a)) == TrimLeft(a)
  {
    hide IsSpace;
    if a != [] && IsSpace(a[0]) {
      assert (a + r)[1..] == a[1..] + r;
      TrimLeftBefore(a[1..], r);
    } else if a == [] {
      assert a + r == r;
    }
  }

  lemma {:induction false} TrimRightAfter(p: string, b: string)
    requires p != [] && !IsSpace(p[|p| - 1])
    ensures TrimRight(p + b) == p + TrimRight(b)
  {
    hide IsSpace;
    if b == [] {
      assert p + b == p;
    } else {
      assert (p + b)[..|p + b| - 1] == p + b[..|b| - 1] && (p + b)[|p + b| - 1] == b[|b| - 1];
      if IsSpace(b[|b| - 1]) {
        TrimRightAfter(p, b[..|b| - 1]);
      }
    }
  }

  /** Trimming on either side of a character that is no space. */
  lemma TrimAround(a: string, c: char, b: string)
    requires !IsSpace(c)
    ensures Trim(a + [c] + b) == TrimLeft(a) + [c] + TrimRight(b) && Trim(TrimLeft(a)) == Trim(a)
  {
    hide IsSpace, TrimLeft, TrimRight;
    assert a + [c] + b == a + ([c] + b);
    TrimLeftBefore(a, [c] + b);
    assert TrimLeft(a) + ([c] + b) == (TrimLeft(a) + [c]) + b;
    TrimRightAfter(TrimLeft(a) + [c], b);
  }

  /** A plain name is its own base. */
  lemma {:induction false} BaseOfPlain(x: string)
    requires x != [] && '/' !in x
    ensures Base(x) == x
  {
    assert StripSlashes(x) == x;
    LastOfPlain(x);
  }

  /** Of a path only the last element counts, with or without a slash at the end. */
  lemma {:induction false} BaseOfPath(dir: string, x: string)
    requires x != [] && '/' !in x
    ensures Base(dir + ['/'] + x) == x && Base(dir + ['/'] + x + ['/']) == x
  {
    var p := dir + ['/'] + x;
    assert p[|p| - 1] == x[|x| - 1];
    assert StripSlashes(p) == p;
    assert (p + ['/'])[..|p|] == p;
    LastAfterSlash(dir, x);
  }

  lemma {:induction false} LastAfterSlash(dir: string, x: string)
    requires '/' !in x
    ensures LastElement(dir + ['/'] + x) == x
  {
    var p := dir + ['/'] + x;
    if x == [] {
      assert p[|p| - 1] == '/';
    } else {
      assert p[..|p| - 1] == dir + ['/'] + x[..|x| - 1] && p[|p| - 1] == x[|x| - 1];
      LastAfterSlash(dir, x[..|x| - 1]);
    }
  }

  lemma {:induction false} LastOfPlain(x: string)
    requires '/' !in x
    ensures LastElement(x) == x
  {
    if x != [] {
      LastOfPlain(x[..|x| - 1]);
    }
  }

  /** strings.CutPrefix: the rest of `s` after the prefix `p`. */
  function After(p: string, s: string): string
    requires p <= s
  {
    s[|p|..]
  }

  function Lower(c: char): char {
    if 'A' <= c <= 'Z' then c - 'A' + 'a' else c
  }

  /** strings.EqualFold against a word of ASCII letters that fold only among
      themselves. */
  predicate EqualFold(a: string, b: string) {
    |a| == |b| && forall i | 0 <= i < |a| :: Lower(a[i]) == Lower(b[i])
  }

  /** strings.IndexByte; -1 when absent. */
  function IndexOf(s: string, c: char): (i: int)
    ensures -1 <= i < |s|
    ensures i >= 0 ==> s[i] == c && c !in s[..i]
    ensures i < 0 ==> c !in s
  {
    if s == [] then -1
    else if s[0] == c then 0
    else
      var j := IndexOf(s[1..], c);
      assert s == [s[0]] + s[1..];
      if j < 0 then -1
      else
        assert s[..j + 1] == [s[0]] + s[1..][..j];
        j + 1
  }

  function StripSlashes(p: string): string {
    if p != [] && p[|p| - 1] == '/' then StripSlashes(p[..|p| - 1]) else p
  }

  function LastElement(p: string): (e: string)
    ensures '/' !in e
    ensures |e| <= |p| && e == p[|p| - |e|..]
    ensures p != [] && p[|p| - 1] != '/' ==> e != []
  {
    if p == [] || p[|p| - 1] == '/' then []
    else
      var e := LastElement(p[..|p| - 1]);
      assert p == p[..|p| - 1] + [p[|p| - 1]];
      e + [p[|p| - 1]]
  }

  /** filepath.Base on a system that separates paths with slashes. */
  function Base(p: string): string {
    if p == [] then "."
    else if StripSlashes(p) == [] then "/"
    else LastElement(StripSlashes(p))
  }
}
