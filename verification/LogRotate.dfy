/** The size-capped log file: rotatingSyncer of src/internal/nodelog/nodelog.go. */
module LogRotate {
  import opened Octets
  import opened Lines

  /** How the system calls of one rotation end: whether Stat works, how many
      bytes ReadAt delivers, whether Truncate works, how many bytes the final
      Write takes. */
  datatype Calls = Calls(stat: bool, got: nat, truncate: bool, wrote: nat)

  /** Go's division truncates. */
  function Half(n: int): int {
    if n >= 0 then n / 2 else -(-n / 2)
  }

  /** How many bytes a rotation looks at. */
  function KeepOf(size: nat, maxBytes: int): (keep: nat)
    ensures size > maxBytes ==> keep <= size
  {
    if Half(maxBytes) > 0 then Half(maxBytes) else size / 2
  }

  function Least(a: nat, b: nat): nat {
    if a < b then a else b
  }

  function LastBytes(s: Bytes, n: nat): Bytes {
    if n <= |s| then s[|s| - n..] else s
  }

  /** Without its first line, when a newline ends one. */
  function DropLine(s: Bytes): Bytes {
    if NL in s then s[Find(s, NL) + 1..] else s
  }

  predicate Rewrites(data: Bytes, maxBytes: int, c: Calls) {
    && c.stat && |data| > maxBytes && c.truncate
    && (c.got > 0 || KeepOf(|data|, maxBytes) == 0)
  }

  /** The file after a rotation. */
  function Rotated(data: Bytes, maxBytes: int, c: Calls): Bytes {
    if !Rewrites(data, maxBytes, c) then data
    else
      var tail := LastBytes(data, KeepOf(|data|, maxBytes));
      var kept := DropLine(tail[..Least(c.got, |tail|)]);
      kept[..Least(c.wrote, |kept|)]
  }

  class RotatingFile {
    var data: Bytes

    constructor (existing: Bytes)
      ensures data == existing
    {
      data := existing;
    }

    /** Append; a short write leaves a prefix. */
    method Write(p: Bytes, taken: nat) returns (n: nat)
      modifies this
      ensures n == Least(taken, |p|) && data == old(data) + p[..n]
    {
      n := Least(taken, |p|);
      data := data + p[..n];
    }

    method Rotate(maxBytes: int, c: Calls)
      modifies this
      ensures data == Rotated(old(data), maxBytes, c)
    {
      hide DropLine, LastBytes, Half;
      if !c.stat || |data| <= maxBytes {
        return;
      }
      var keep := Half(maxBytes);
      if keep <= 0 {
        keep := |data| / 2;
      }
      assert keep == KeepOf(|data|, maxBytes);
      LastOf(data, keep);
      var buf := data[|data| - keep..];
      if c.got < keep && c.got == 0 {
        return;
      }
      buf := buf[..Least(c.got, keep)];
      DropAt(buf);
      var i := Find(buf, NL);
      if i < |buf| {
        buf := buf[i + 1..];
      }
      if !c.truncate {
        return;
      }
      data := [];
      data := data + buf[..Least(c.wrote, |buf|)];
      assert data == buf[..Least(c.wrote, |buf|)];
    }
  }

  lemma LastOf(s: Bytes, n: nat)
    requires n <= |s|
    ensures LastBytes(s, n) == s[|s| - n..]
  {}

  lemma DropAt(s: Bytes)
    ensures DropLine(s) == if Find(s, NL) < |s| then s[Find(s, NL) + 1..] else s
  {
    hide Find;
    FindNone(s, NL);
  }

  // ----- One rotation -----

  /** A position where a line of `s` starts, or its end. */
  predicate Boundary(s: Bytes, k: nat)
    requires k <= |s|
  {
    k == 0 || s[k - 1] == NL
  }

  /** No call of the rotation ends halfway. */
  predicate Clean(data: Bytes, maxBytes: int, c: Calls) {
    Rewrites(data, maxBytes, c) ==> c.got >= KeepOf(|data|, maxBytes) && c.wrote >= KeepOf(|data|, maxBytes)
  }

  /** What a clean rotation leaves is a suffix.  It starts a line exactly when the
      tail it looked at has a newline or starts a line itself. */
  lemma SuffixOnCleanRotate(data: Bytes, maxBytes: int, c: Calls) returns (k: nat)
    requires Rewrites(data, maxBytes, c) && Clean(data, maxBytes, c)
    ensures k <= |data| && Rotated(data, maxBytes, c) == data[k..]
    ensures var from := |data| - KeepOf(|data|, maxBytes);
            && from <= k
            && (Boundary(data, k) <==> NL in data[from..] || Boundary(data, from))
  {
    hide Half, DropLine, LastBytes, KeepOf, Boundary;
    var keep := KeepOf(|data|, maxBytes);
    var tail := data[|data| - keep..];
    LastOf(data, keep);
    assert tail[..|tail|] == tail;
    k := DropPoint(data, |data| - keep);
    assert data[k..][..|data| - k] == data[k..];
  }

  lemma DropPoint(data: Bytes, from: nat) returns (k: nat)
    requires from <= |data|
    ensures from <= k <= |data| && DropLine(data[from..]) == data[k..]
    ensures Boundary(data, k) <==> NL in data[from..] || Boundary(data, from)
  {
    hide Find;
    var tail := data[from..];
    FindNone(tail, NL);
    if NL in tail {
      k := from + Find(tail, NL) + 1;
      assert tail[Find(tail, NL)] == data[k - 1];
    } else {
      k := from;
    }
  }

  /** No line of `s` has more than `most` bytes, its newline included. */
  ghost predicate LinesWithin(s: Bytes, most: nat) {
    forall i, j | 0 <= i <= j <= |s| && NL !in s[i..j] :: j - i < most
  }

  /** A clean rotation leaves at most what it looked at, and at most one line
      less. */
  lemma RotationSize(data: Bytes, maxBytes: int, c: Calls, most: nat)
    requires Rewrites(data, maxBytes, c) && Clean(data, maxBytes, c) && LinesWithin(data, most)
    ensures var keep := KeepOf(|data|, maxBytes);
            keep - most <= |Rotated(data, maxBytes, c)| <= keep
  {
    hide Half, DropLine, LastBytes, KeepOf, LinesWithin;
    var keep := KeepOf(|data|, maxBytes);
    var tail := data[|data| - keep..];
    LastOf(data, keep);
    assert tail[..|tail|] == tail;
    DropSize(data, |data| - keep, most);
    var kept := DropLine(tail);
    assert kept[..|kept|] == kept;
  }

  lemma DropSize(data: Bytes, from: nat, most: nat)
    requires from <= |data| && LinesWithin(data, most)
    ensures |data| - from - most <= |DropLine(data[from..])| <= |data| - from
  {
    var tail := data[from..];
    DropAt(tail);
    var i := Find(tail, NL);
    if i < |tail| {
      assert data[from..from + i] == tail[..i];
    }
    hide Find, DropLine;
  }

  // ----- Whole runs -----

  datatype Step = Append(p: Bytes) | Turn(maxBytes: int, calls: Calls)

  function After(data: Bytes, s: Step): Bytes {
    match s
    case Append(p) => data + p
    case Turn(maxBytes, c) => Rotated(data, maxBytes, c)
  }

  function FileAfter(base: Bytes, steps: seq<Step>): Bytes {
    if steps == [] then base else After(FileAfter(base, steps[..|steps| - 1]), steps[|steps| - 1])
  }

  /** Everything ever written. */
  function History(base: Bytes, steps: seq<Step>): Bytes {
    if steps == [] then base
    else
      var s := steps[|steps| - 1];
      History(base, steps[..|steps| - 1]) + if s.Append? then s.p else []
  }

  predicate ProperStep(data: Bytes, s: Step) {
    match s
    case Append(p) => Terminated(p)
    case Turn(maxBytes, c) => Clean(data, maxBytes, c)
  }

  /** Writes end with a newline, and no rotation is cut short. */
  predicate Proper(base: Bytes, steps: seq<Step>) {
    steps == [] ||
    (Proper(base, steps[..|steps| - 1]) && ProperStep(FileAfter(base, steps[..|steps| - 1]), steps[|steps| - 1]))
  }

  /** `data` is what `h` ends with from the start of a line on. */
  predicate WholeLinesFrom(data: Bytes, h: Bytes, k: nat) {
    k <= |h| && data == h[k..] && Boundary(h, k) && Terminated(h)
  }

  lemma TurnKeepsLines(data: Bytes, s: Step, h: Bytes, k: nat) returns (m: nat)
    requires s.Turn? && ProperStep(data, s) && WholeLinesFrom(data, h, k)
    ensures WholeLinesFrom(After(data, s), h, m)
  {
    hide Rotated, KeepOf, WholeLinesFrom, Terminated;
    if Rewrites(data, s.maxBytes, s.calls) {
      SuffixTerminated(data, h, k);
      TailHasLine(data, |data| - KeepOf(|data|, s.maxBytes));
      var j := SuffixOnCleanRotate(data, s.maxBytes, s.calls);
      m := k + j;
      CutFurther(data, h, k, j);
    } else {
      m := k;
      NotRewritten(data, s.maxBytes, s.calls);
    }
  }

  lemma SuffixTerminated(data: Bytes, h: Bytes, k: nat)
    requires WholeLinesFrom(data, h, k)
    ensures Terminated(data)
  {}

  lemma CutFurther(data: Bytes, h: Bytes, k: nat, j: nat)
    requires WholeLinesFrom(data, h, k) && j <= |data| && Boundary(data, j)
    ensures WholeLinesFrom(data[j..], h, k + j)
  {
    assert h[k + j..] == data[j..];
    assert j > 0 ==> data[j - 1] == h[k + j - 1];
  }

  lemma NotRewritten(data: Bytes, maxBytes: int, c: Calls)
    requires !Rewrites(data, maxBytes, c)
    ensures Rotated(data, maxBytes, c) == data
  {}

  lemma TailHasLine(data: Bytes, from: nat)
    requires Terminated(data) && from <= |data|
    ensures NL in data[from..] || Boundary(data, from)
  {
    if from < |data| {
      assert data[from..][|data| - from - 1] == NL;
    }
  }

  lemma AppendKeepsLines(data: Bytes, s: Step, h: Bytes, k: nat)
    requires s.Append? && ProperStep(data, s) && WholeLinesFrom(data, h, k)
    ensures WholeLinesFrom(After(data, s), h + s.p, k)
  {}

  lemma {:induction false} RunKeepsLines(base: Bytes, steps: seq<Step>) returns (k: nat)
    requires Terminated(base) && Proper(base, steps)
    ensures WholeLinesFrom(FileAfter(base, steps), History(base, steps), k)
  {
    if steps == [] {
      k := 0;
    } else {
      hide After, WholeLinesFrom, ProperStep, Terminated;
      var before, s := steps[..|steps| - 1], steps[|steps| - 1];
      k := RunKeepsLines(base, before);
      var data, h := FileAfter(base, before), History(base, before);
      if s.Append? {
        AppendKeepsLines(data, s, h, k);
      } else {
        k := TurnKeepsLines(data, s, h, k);
        assert h + [] == h;
      }
    }
  }

  /** Over any mix of writes and rotations, the lines of the file are the last
      lines ever written: none is cut, lost in between, repeated or reordered. */
  lemma FileIsRecentLines(base: Bytes, steps: seq<Step>) returns (n: nat)
    requires Terminated(base) && Proper(base, steps)
    ensures var file, h := FileAfter(base, steps), History(base, steps);
            && n <= |CompleteLines(h)| && CompleteLines(file) == CompleteLines(h)[n..]
            && Rest(file) == [] && file == Unlines(CompleteLines(h)[n..])
  {
    var k := RunKeepsLines(base, steps);
    n := CutAtLine(FileAfter(base, steps), History(base, steps), k);
  }

  lemma CutAtLine(data: Bytes, h: Bytes, k: nat) returns (n: nat)
    requires WholeLinesFrom(data, h, k)
    ensures n <= |CompleteLines(h)| && CompleteLines(data) == CompleteLines(h)[n..]
    ensures Rest(data) == [] && data == Unlines(CompleteLines(h)[n..])
  {
    hide CompleteLines, Rest, Unlines;
    var before := h[..k];
    assert h == before + data;
    LinesAppend(before, data);
    TerminatedRest(before);
    TerminatedRest(data);
    assert Rest(before) + data == data;
    n := |CompleteLines(before)|;
    LinesRejoin(data);
  }

  lemma SuffixLinesWithin(h: Bytes, k: nat, most: nat)
    requires k <= |h| && LinesWithin(h, most)
    ensures LinesWithin(h[k..], most)
  {
    var s := h[k..];
    forall i, j | 0 <= i <= j <= |s| && NL !in s[i..j] ensures j - i < most {
      var a, b := k + i, k + j;
      assert h[a..b] == s[i..j];
    }
  }

  /** The bound holds at every rotation of a run, for the longest line ever
      written. */
  lemma {:induction false} RunRotationSize(base: Bytes, steps: seq<Step>, maxBytes: int, c: Calls, most: nat)
    requires Terminated(base) && Proper(base, steps) && LinesWithin(History(base, steps), most)
    requires var file := FileAfter(base, steps); Rewrites(file, maxBytes, c) && Clean(file, maxBytes, c)
    ensures var file := FileAfter(base, steps);
            var half := if maxBytes >= 2 then maxBytes / 2 else |file| / 2;
            half - most <= |Rotated(file, maxBytes, c)| <= half
  {
    KeepIsHalf(|FileAfter(base, steps)|, maxBytes);
    hide Half, KeepOf, Rotated, Rewrites, Clean, LinesWithin, Proper, FileAfter, History;
    var k := RunKeepsLines(base, steps);
    SuffixLinesWithin(History(base, steps), k, most);
    RotationSize(FileAfter(base, steps), maxBytes, c, most);
  }

  /** A line is cut: five bytes without a newline, of which two are kept. */
  lemma RotationCutsLine(a: byte)
    requires a != NL
    ensures var c := Calls(true, 2, true, 2);
            Rewrites([a, a, a, a, a], 4, c) && Clean([a, a, a, a, a], 4, c)
            && Rotated([a, a, a, a, a], 4, c) == [a, a, a, a, a][3..] && !Boundary([a, a, a, a, a], 3)
  {
    var data, c := [a, a, a, a, a], Calls(true, 2, true, 2);
    assert LastBytes(data, 2) == data[3..] == [a, a];
    assert DropLine([a, a]) == [a, a];
  }

  // ----- In plain numbers -----

  /** Up to the cap nothing happens; and nothing happens when a call fails before
      the file is emptied. */
  lemma {:induction false} RotateLeavesAlone(data: Bytes, maxBytes: int, c: Calls)
    ensures |data| <= maxBytes ==> Rotated(data, maxBytes, c) == data
    ensures !c.stat || !c.truncate ==> Rotated(data, maxBytes, c) == data
    ensures c.got == 0 && (maxBytes >= 2 || |data| >= 2) ==> Rotated(data, maxBytes, c) == data
  {
    hide DropLine, LastBytes;
  }

  lemma KeepIsHalf(size: nat, maxBytes: int)
    ensures KeepOf(size, maxBytes) == if maxBytes >= 2 then maxBytes / 2 else size / 2
  {}

  /** A file over the cap, rotated without a fault, keeps at most half of the cap,
      and at most one line less; with a cap below two bytes, half of the file. */
  lemma {:induction false} RotateKeepsHalf(data: Bytes, maxBytes: int, c: Calls, most: nat)
    requires |data| > maxBytes && c.stat && c.truncate && LinesWithin(data, most)
    requires var half := if maxBytes >= 2 then maxBytes / 2 else |data| / 2; c.got >= half && c.wrote >= half
    ensures var half := if maxBytes >= 2 then maxBytes / 2 else |data| / 2;
            half - most <= |Rotated(data, maxBytes, c)| <= half
  {
    KeepIsHalf(|data|, maxBytes);
    hide KeepOf, Rotated, LinesWithin, Half;
    RotationSize(data, maxBytes, c, most);
  }

  /** Whatever fails, what is left is one piece of what was there. */
  lemma {:induction false} RotateLeavesPiece(data: Bytes, maxBytes: int, c: Calls) returns (a: nat, b: nat)
    ensures a <= b <= |data| && Rotated(data, maxBytes, c) == data[a..b]
  {
    if !Rewrites(data, maxBytes, c) {
      a, b := 0, |data|;
      assert data[0..|data|] == data;
    } else {
      hide DropLine, LastBytes, Half;
      var keep := KeepOf(|data|, maxBytes);
      LastOf(data, keep);
      var from := |data| - keep;
      var m := Least(c.got, keep);
      var k := DropPiece(data[from..][..m]);
      var n := Least(c.wrote, m - k);
      a, b := from + k, from + k + n;
      PieceOfPiece(data, from, m, k, n);
    }
  }

  lemma PieceOfPiece(s: Bytes, from: nat, m: nat, k: nat, n: nat)
    requires from + m <= |s| && k + n <= m
    ensures s[from..][..m][k..][..n] == s[from + k..from + k + n]
  {}

  lemma DropPiece(s: Bytes) returns (k: nat)
    ensures k <= |s| && DropLine(s) == s[k..]
  {
    FindNone(s, NL);
    k := if NL in s then Find(s, NL) + 1 else 0;
    assert s[0..] == s;
  }
}
