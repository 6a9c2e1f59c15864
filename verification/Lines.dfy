/** Bytes as newline-terminated lines. */
module Lines {
  import opened Octets

  /** bytes.IndexByte, with the length standing for "not found". */
  function Find(s: Bytes, b: byte): (i: nat)
    ensures i <= |s| && b !in s[..i]
    ensures i < |s| ==> s[i] == b
  {
    if s == [] || s[0] == b then 0
    else
      var j := Find(s[1..], b);
      assert s[..j + 1] == [s[0]] + s[1..][..j];
      j + 1
  }

  lemma {:induction false} FindHere(a: Bytes, b: byte, rest: Bytes)
    requires b !in a
    ensures Find(a + [b] + rest, b) == |a|
  {
    var s := a + [b] + rest;
    if a == [] {
      assert s[0] == b;
    } else {
      assert s[0] == a[0] && s[1..] == a[1..] + [b] + rest;
      FindHere(a[1..], b, rest);
    }
  }

  lemma FindNone(s: Bytes, b: byte)
    ensures Find(s, b) == |s| <==> b !in s
  {
    assert s[..|s|] == s;
  }

  /** The lines of `s` that a newline ends, without it. */
  function CompleteLines(s: Bytes): seq<Bytes> {
    var i := Find(s, NL);
    if i == |s| then [] else [s[..i]] + CompleteLines(s[i + 1..])
  }

  /** The bytes after the last newline. */
  function Rest(s: Bytes): Bytes {
    var i := Find(s, NL);
    if i == |s| then s else Rest(s[i + 1..])
  }

  /** A line, and what follows it. */
  lemma LineStep(l: Bytes, more: Bytes)
    requires NL !in l
    ensures CompleteLines(l + [NL] + more) == [l] + CompleteLines(more)
    ensures Rest(l + [NL] + more) == Rest(more)
  {
    FindHere(l, NL, more);
    var s := l + [NL] + more;
    assert s[..|l|] == l && s[|l| + 1..] == more;
  }

  lemma NoLine(s: Bytes)
    requires NL !in s
    ensures CompleteLines(s) == [] && Rest(s) == s
  {
    FindNone(s, NL);
  }

  /** Where the first line ends. */
  lemma FirstLine(s: Bytes) returns (l: Bytes, more: Bytes)
    requires NL in s
    ensures s == l + [NL] + more && NL !in l
  {
    FindNone(s, NL);
    var i := Find(s, NL);
    l, more := s[..i], s[i + 1..];
  }

  function Unlines(ls: seq<Bytes>): Bytes {
    if ls == [] then [] else ls[0] + [NL] + Unlines(ls[1..])
  }

  lemma UnlinesMore(l: Bytes, ls: seq<Bytes>)
    ensures Unlines([l] + ls) == l + [NL] + Unlines(ls)
  {
    assert ([l] + ls)[1..] == ls;
  }

  ghost predicate OneLiners(ls: seq<Bytes>) {
    forall i | 0 <= i < |ls| :: NL !in ls[i]
  }

  /** Cutting into lines loses nothing. */
  lemma {:induction false} LinesRejoin(s: Bytes)
    ensures Unlines(CompleteLines(s)) + Rest(s) == s
    ensures OneLiners(CompleteLines(s)) && NL !in Rest(s)
    decreases |s|
  {
    hide CompleteLines, Rest;
    if NL !in s {
      NoLine(s);
    } else {
      var l, more := FirstLine(s);
      LinesRejoin(more);
      LineStep(l, more);
      UnlinesMore(l, CompleteLines(more));
      hide Unlines;
    }
  }

  /** There is no other way to cut. */
  lemma {:induction false} LinesUnique(ls: seq<Bytes>, r: Bytes)
    requires OneLiners(ls) && NL !in r
    ensures CompleteLines(Unlines(ls) + r) == ls && Rest(Unlines(ls) + r) == r
  {
    hide CompleteLines, Rest;
    if ls == [] {
      assert Unlines(ls) + r == r;
      NoLine(r);
    } else {
      var more := Unlines(ls[1..]) + r;
      assert Unlines(ls) + r == ls[0] + [NL] + more;
      LineStep(ls[0], more);
      LinesUnique(ls[1..], r);
      hide Unlines;
    }
  }

  /** Appending completes the pending line first. */
  lemma {:induction false} LinesAppend(a: Bytes, b: Bytes)
    ensures CompleteLines(a + b) == CompleteLines(a) + CompleteLines(Rest(a) + b)
    ensures Rest(a + b) == Rest(Rest(a) + b)
    decreases |a|
  {
    hide CompleteLines, Rest;
    if NL !in a {
      NoLine(a);
    } else {
      var l, more := FirstLine(a);
      assert a + b == l + [NL] + (more + b);
      LineStep(l, more);
      LineStep(l, more + b);
      LinesAppend(more, b);
    }
  }

  /** Nothing, or ended by a newline. */
  predicate Terminated(s: Bytes) {
    s == [] || s[|s| - 1] == NL
  }

  lemma {:induction false} TerminatedRest(s: Bytes)
    ensures Terminated(s) <==> Rest(s) == []
    decreases |s|
  {
    hide CompleteLines, Rest;
    if NL !in s {
      NoLine(s);
    } else {
      var l, more := FirstLine(s);
      LineStep(l, more);
      TerminatedRest(more);
    }
  }
}
