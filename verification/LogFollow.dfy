/** Showing and following the log: src/internal/commands/logs.go. */
module LogFollow {
  import opened Octets
  import opened Lines

  const LOGS_TAIL: nat := 200

  /** strings.SplitN on one byte: at most `n` fields, the last one unsplit. */
  function SplitN(s: Bytes, b: byte, n: nat): seq<Bytes> {
    if n == 0 then []
    else
      var i := Find(s, b);
      if n == 1 || i == |s| then [s] else [s[..i]] + SplitN(s[i + 1..], b, n - 1)
  }

  predicate LineMatches(line: Bytes, src: Bytes) {
    src == [] ||
    var parts := SplitN(line, TAB, 4);
    |parts| >= 3 && parts[2] == src
  }

  /** A line as the logger writes it. */
  function Entry(time: Bytes, level: Bytes, name: Bytes, message: Bytes): Bytes {
    time + [TAB] + level + [TAB] + name + [TAB] + message
  }

  lemma SplitStep(a: Bytes, b: byte, more: Bytes, n: nat)
    requires b !in a && n >= 2
    ensures SplitN(a + [b] + more, b, n) == [a] + SplitN(more, b, n - 1)
  {
    FindHere(a, b, more);
    var s := a + [b] + more;
    assert s[..|a|] == a && s[|a| + 1..] == more;
  }

  /** The filter reads back the source that the logger wrote, whatever the
      message holds. */
  lemma EntryMatches(time: Bytes, level: Bytes, name: Bytes, message: Bytes, src: Bytes)
    requires TAB !in time && TAB !in level && TAB !in name
    ensures LineMatches(Entry(time, level, name, message), src) <==> src == [] || src == name
  {
    hide SplitN;
    var tail := name + [TAB] + message;
    var rest := level + [TAB] + tail;
    assert Entry(time, level, name, message) == time + [TAB] + rest;
    SplitStep(time, TAB, rest, 4);
    SplitStep(level, TAB, tail, 3);
    SplitStep(name, TAB, message, 2);
  }

  /** A line of just three fields matches by the third. */
  lemma {:induction false} ShortEntryMatches(time: Bytes, level: Bytes, name: Bytes, src: Bytes)
    requires TAB !in time && TAB !in level && TAB !in name
    ensures LineMatches(time + [TAB] + level + [TAB] + name, src) <==> src == [] || src == name
  {
    FindNone(name, TAB);
    assert SplitN(name, TAB, 2) == [name];
    hide SplitN;
    assert time + [TAB] + level + [TAB] + name == time + [TAB] + (level + [TAB] + name);
    SplitStep(time, TAB, level + [TAB] + name, 4);
    SplitStep(level, TAB, name, 3);
  }

  /** A line with fewer than two tabs passes no filter. */
  lemma {:induction false} UntaggedNeverMatches(line: Bytes, src: Bytes)
    requires src != []
    requires forall i, j | 0 <= i < j < |line| :: line[i] != TAB || line[j] != TAB
    ensures !LineMatches(line, src)
  {
    FindNone(line, TAB);
    var i := Find(line, TAB);
    if i < |line| {
      var rest := line[i + 1..];
      assert TAB !in rest by {
        forall k | 0 <= k < |rest| ensures rest[k] != TAB {
          assert rest[k] == line[i + 1 + k];
        }
      }
      FindNone(rest, TAB);
      assert SplitN(line, TAB, 4) == [line[..i]] + SplitN(rest, TAB, 3) == [line[..i]] + [rest];
    }
  }

  /** The lines a source filter lets through. */
  function Matching(ls: seq<Bytes>, src: Bytes): seq<Bytes> {
    if ls == [] then []
    else (if LineMatches(ls[0], src) then [ls[0]] else []) + Matching(ls[1..], src)
  }

  lemma {:induction false} MatchingAppend(a: seq<Bytes>, b: seq<Bytes>, src: Bytes)
    ensures Matching(a + b, src) == Matching(a, src) + Matching(b, src)
  {
    hide LineMatches;
    if a == [] {
      assert a + b == b;
    } else {
      assert (a + b)[1..] == a[1..] + b;
      MatchingAppend(a[1..], b, src);
    }
  }

  lemma MatchingSnoc(a: seq<Bytes>, l: Bytes, src: Bytes)
    ensures Matching(a + [l], src) == Matching(a, src) + if LineMatches(l, src) then [l] else []
  {
    hide LineMatches;
    MatchingAppend(a, [l], src);
    assert [l][1..] == [];
  }

  lemma {:induction false} AllMatch(ls: seq<Bytes>)
    ensures Matching(ls, []) == ls
  {
    if ls != [] {
      AllMatch(ls[1..]);
    }
  }

  /** Print complete lines; hand back the trailing partial one. */
  method PrintStream(input: Bytes, src: Bytes) returns (printed: seq<Bytes>, left: Bytes)
    ensures printed == Matching(CompleteLines(input), src) && left == Rest(input)
  {
    assert Matching([], src) == [];
    hide Matching, LineMatches;
    left := input;
    ghost var seen: seq<Bytes> := [];
    printed := [];
    while true
      invariant CompleteLines(input) == seen + CompleteLines(left) && Rest(input) == Rest(left)
      invariant printed == Matching(seen, src)
      decreases |left|
    {
      var i := Find(left, NL);
      if i == |left| {
        assert seen + [] == seen;
        return;
      }
      var line := left[..i];
      left := left[i + 1..];
      MatchingSnoc(seen, line, src);
      seen := seen + [line];
      if LineMatches(line, src) {
        printed := printed + [line];
      }
    }
  }

  // ----- The existing tail -----

  /** strings.Split. */
  function Split(s: Bytes, b: byte): seq<Bytes> {
    var i := Find(s, b);
    if i == |s| then [s] else [s[..i]] + Split(s[i + 1..], b)
  }

  /** strings.TrimRight on newlines. */
  function TrimNewlines(s: Bytes): Bytes {
    if s != [] && s[|s| - 1] == NL then TrimNewlines(s[..|s| - 1]) else s
  }

  function LastLines(ls: seq<Bytes>, max: nat): seq<Bytes> {
    if |ls| > max then ls[|ls| - max..] else ls
  }

  /** The last of the matching lines, as many as there are up to `max`. */
  method PrintTail(data: Bytes, src: Bytes, max: nat) returns (printed: seq<Bytes>)
    ensures printed == LastLines(Matching(Split(TrimNewlines(data), NL), src), max)
    ensures var all := Matching(Split(TrimNewlines(data), NL), src);
            && |printed| == (if |all| < max then |all| else max)
            && printed == all[|all| - |printed|..]
  {
    assert Matching([], src) == [];
    hide Matching, LineMatches, Split, TrimNewlines, Find, CompleteLines, Rest;
    var lines := Split(TrimNewlines(data), NL);
    var kept: seq<Bytes> := [];
    for i := 0 to |lines|
      invariant kept == Matching(lines[..i], src)
    {
      MatchingNext(lines, i, src);
      if LineMatches(lines[i], src) {
        kept := kept + [lines[i]];
      }
    }
    assert lines[..|lines|] == lines;
    if |kept| > max {
      kept := kept[|kept| - max..];
    }
    return kept;
  }

  lemma LastLinesAre(ls: seq<Bytes>, max: nat)
    ensures |LastLines(ls, max)| == if |ls| < max then |ls| else max
    ensures LastLines(ls, max) == ls[|ls| - |LastLines(ls, max)|..]
  {}

  lemma MatchingNext(ls: seq<Bytes>, i: nat, src: Bytes)
    requires i < |ls|
    ensures Matching(ls[..i + 1], src) == Matching(ls[..i], src) + if LineMatches(ls[i], src) then [ls[i]] else []
  {
    hide Matching, LineMatches;
    assert ls[..i + 1] == ls[..i] + [ls[i]];
    MatchingSnoc(ls[..i], ls[i], src);
  }

  lemma {:induction false} SplitIsLines(s: Bytes)
    ensures Split(s, NL) == CompleteLines(s) + [Rest(s)]
  {
    var i := Find(s, NL);
    if i < |s| {
      SplitIsLines(s[i + 1..]);
    }
  }

  lemma BlankEnd(s: Bytes)
    ensures Split(s + [NL], NL) == Split(s, NL) + [[]]
    ensures CompleteLines(s + [NL]) == CompleteLines(s) + [Rest(s)] && Rest(s + [NL]) == []
  {
    hide CompleteLines, Rest, Split;
    SplitIsLines(s);
    SplitIsLines(s + [NL]);
    LinesAppend(s, [NL]);
    LinesRejoin(s);
    NoLine([]);
    assert Rest(s) + [NL] + [] == Rest(s) + [NL];
    LineStep(Rest(s), []);
  }

  /** A filter never shows a blank line. */
  lemma BlankNeverMatches(src: Bytes)
    requires src != []
    ensures !LineMatches([], src)
  {
    assert Find([], TAB) == 0;
  }

  /** With a filter, trimming hides nothing: the tail shown is the last matching
      lines of the file, a trailing partial line included. */
  lemma {:induction false} TailShowsLast(data: Bytes, src: Bytes)
    requires src != []
    ensures Matching(Split(TrimNewlines(data), NL), src) == Matching(CompleteLines(data) + [Rest(data)], src)
    decreases |data|
  {
    hide CompleteLines, Rest, Split, Matching, LineMatches;
    if data != [] && data[|data| - 1] == NL {
      var s := data[..|data| - 1];
      assert data == s + [NL];
      TailShowsLast(s, src);
      BlankEnd(s);
      BlankNeverMatches(src);
      MatchingSnoc(CompleteLines(s) + [Rest(s)], [], src);
    } else {
      SplitIsLines(data);
    }
  }

  /** The line that no newline has ended yet, if there is one. */
  function Partial(s: Bytes): seq<Bytes> {
    if Rest(s) == [] then [] else [Rest(s)]
  }

  /** Something was logged, and the last line is not blank. */
  predicate EndsInLine(data: Bytes) {
    data != [] && !(|data| >= 2 && data[|data| - 1] == NL && data[|data| - 2] == NL)
  }

  lemma {:induction false} TrimShortens(s: Bytes)
    ensures |Split(TrimNewlines(s), NL)| <= |CompleteLines(s)| + 1
    decreases |s|
  {
    hide CompleteLines, Rest, Split;
    SplitIsLines(s);
    if s != [] && s[|s| - 1] == NL {
      var t := s[..|s| - 1];
      assert s == t + [NL];
      TrimShortens(t);
      BlankEnd(t);
    }
  }

  /** Trailing blank lines are lost. */
  lemma {:induction false} BlankLinesLost(t: Bytes)
    ensures |Split(TrimNewlines(t + [NL] + [NL]), NL)| < |CompleteLines(t + [NL] + [NL])|
    ensures Rest(t + [NL] + [NL]) == []
  {
    assert (t + [NL] + [NL])[..|t| + 1] == t + [NL] && (t + [NL])[..|t|] == t;
    assert TrimNewlines(t + [NL] + [NL]) == TrimNewlines(t + [NL]) == TrimNewlines(t);
    hide CompleteLines, Rest, Split, TrimNewlines;
    TrimShortens(t);
    BlankEnd(t);
    BlankEnd(t + [NL]);
  }

  lemma TrimOne(s: Bytes)
    ensures TrimNewlines(s) == if s != [] && s[|s| - 1] == NL then TrimNewlines(s[..|s| - 1]) else s
  {}

  lemma {:induction false} LineKept(data: Bytes)
    requires EndsInLine(data)
    ensures Split(TrimNewlines(data), NL) == CompleteLines(data) + Partial(data)
  {
    hide CompleteLines, Rest, Split, TrimNewlines, Find;
    if data[|data| - 1] == NL {
      var s := data[..|data| - 1];
      assert data == s + [NL];
      TrimOne(data);
      TrimOne(s);
      SplitIsLines(s);
      BlankEnd(s);
      assert CompleteLines(data) + [] == CompleteLines(data);
    } else {
      TrimOne(data);
      SplitIsLines(data);
      TerminatedRest(data);
    }
  }

  /** Without a filter the tail is the lines of the file, a trailing partial one
      included, if and only if something was logged and no blank line ends it:
      trailing blank lines are dropped, and an empty log shows one. */
  lemma {:induction false} TailExact(data: Bytes)
    ensures Matching(Split(TrimNewlines(data), NL), []) == CompleteLines(data) + Partial(data) <==> EndsInLine(data)
  {
    AllMatch(Split(TrimNewlines(data), NL));
    NoLine([]);
    EmptyLogShowsBlank();
    hide CompleteLines, Rest, Split, TrimNewlines, Matching;
    if EndsInLine(data) {
      LineKept(data);
    } else if data != [] {
      var t := data[..|data| - 2];
      assert data == t + [NL] + [NL];
      BlankLinesLost(t);
    }
  }

  /** On an empty log the unfiltered viewer prints one blank line. */
  lemma EmptyLogShowsBlank()
    ensures CompleteLines([]) + Partial([]) == []
    ensures LastLines(Matching(Split(TrimNewlines([]), NL), []), LOGS_TAIL) == [[]]
  {
    assert Split([], NL) == [[]];
    AllMatch([[]]);
  }

  // ----- Following -----

  /** Where the follower stands. */
  datatype Place = Place(offset: nat, leftover: Bytes)

  /** A file shorter than the place was truncated: start from the top. */
  function Restarted(p: Place, file: Bytes): (q: Place)
    ensures q.offset <= |file|
  {
    if |file| < p.offset then Place(0, []) else p
  }

  /** The bytes one poll takes in, when ReadAt delivers at most `n`. */
  function Fetched(p: Place, file: Bytes, n: nat): Bytes {
    var q := Restarted(p, file);
    if n <= |file| - q.offset then file[q.offset..q.offset + n] else file[q.offset..]
  }

  function Moved(p: Place, file: Bytes, n: nat): Place {
    var q := Restarted(p, file);
    var got := Fetched(p, file, n);
    Place(q.offset + |got|, if |file| > q.offset then Rest(q.leftover + got) else q.leftover)
  }

  function Shown(p: Place, file: Bytes, n: nat, src: Bytes): seq<Bytes> {
    var q := Restarted(p, file);
    if |file| > q.offset then Matching(CompleteLines(q.leftover + Fetched(p, file, n)), src) else []
  }

  class Follower {
    const src: Bytes
    var offset: nat
    var leftover: Bytes

    constructor (src: Bytes, size: nat)
      ensures this.src == src && At() == Place(size, [])
    {
      this.src, offset, leftover := src, size, [];
    }

    function At(): Place reads this {
      Place(offset, leftover)
    }

    /** One turn of the follow loop. */
    method Poll(file: Bytes, n: nat) returns (printed: seq<Bytes>)
      modifies this
      ensures At() == Moved(old(At()), file, n)
      ensures printed == Shown(old(At()), file, n, src)
    {
      hide CompleteLines, Rest, Matching;
      printed := [];
      if |file| < offset {
        offset, leftover := 0, [];
      }
      if |file| > offset {
        var chunk := file[offset..];
        if n < |chunk| {
          chunk := chunk[..n];
        }
        assert chunk == Fetched(old(At()), file, n);
        offset := offset + |chunk|;
        printed, leftover := PrintStream(leftover + chunk, src);
      }
    }
  }

  /** Streaming is batch: taking in one more chunk shows what it completes. */
  lemma StreamStep(seen: Bytes, chunk: Bytes, src: Bytes)
    ensures Matching(CompleteLines(seen + chunk), src)
            == Matching(CompleteLines(seen), src) + Matching(CompleteLines(Rest(seen) + chunk), src)
    ensures Rest(seen + chunk) == Rest(Rest(seen) + chunk)
  {
    hide CompleteLines, Rest, Matching;
    LinesAppend(seen, chunk);
    MatchingAppend(CompleteLines(seen), CompleteLines(Rest(seen) + chunk), src);
  }

  /** One poll: what is in the file, and how much of it ReadAt delivers. */
  datatype Look = Look(file: Bytes, n: nat)

  function PlaceAfter(p: Place, looks: seq<Look>): Place {
    if looks == [] then p
    else Moved(PlaceAfter(p, looks[..|looks| - 1]), looks[|looks| - 1].file, looks[|looks| - 1].n)
  }

  /** All that the polls print. */
  function AllShown(p: Place, looks: seq<Look>, src: Bytes): seq<Bytes> {
    if looks == [] then []
    else
      var before := looks[..|looks| - 1];
      AllShown(p, before, src) + Shown(PlaceAfter(p, before), looks[|looks| - 1].file, looks[|looks| - 1].n, src)
  }

  function FileAt(first: Bytes, looks: seq<Look>): Bytes {
    if looks == [] then first else looks[|looks| - 1].file
  }

  /** The file is only ever appended to. */
  ghost predicate Grows(first: Bytes, looks: seq<Look>) {
    looks == [] || (Grows(first, looks[..|looks| - 1])
                    && FileAt(first, looks[..|looks| - 1]) <= looks[|looks| - 1].file)
  }

  /** The follower is inside `file`, and has shown the lines since `from`. */
  predicate Follows(file: Bytes, from: nat, p: Place, shown: seq<Bytes>, src: Bytes) {
    && from <= p.offset <= |file|
    && p.leftover == Rest(file[from..p.offset])
    && shown == Matching(CompleteLines(file[from..p.offset]), src)
  }

  lemma PollFollows(file: Bytes, more: Bytes, n: nat, from: nat, p: Place, shown: seq<Bytes>, src: Bytes)
    requires Follows(file, from, p, shown, src) && file <= more
    ensures Follows(more, from, Moved(p, more, n), shown + Shown(p, more, n, src), src)
    ensures n >= |more| ==> Moved(p, more, n).offset == |more|
  {
    hide CompleteLines, Rest, Matching;
    var seen := file[from..p.offset];
    assert more[from..p.offset] == seen;
    var got := Fetched(p, more, n);
    if |more| > p.offset {
      assert more[from..p.offset + |got|] == seen + got;
      StreamStep(seen, got, src);
    } else {
      assert shown + [] == shown;
    }
  }

  lemma {:induction false} RunFollows(first: Bytes, looks: seq<Look>, src: Bytes)
    requires Grows(first, looks)
    ensures Follows(FileAt(first, looks), |first|, PlaceAfter(Place(|first|, []), looks),
                    AllShown(Place(|first|, []), looks, src), src)
  {
    var start := Place(|first|, []);
    if looks == [] {
      assert first[|first|..|first|] == [];
      NoLine([]);
    } else {
      hide Follows, Moved, Shown;
      var before, l := looks[..|looks| - 1], looks[|looks| - 1];
      RunFollows(first, before, src);
      PollFollows(FileAt(first, before), l.file, l.n, |first|, PlaceAfter(start, before),
                  AllShown(start, before, src), src);
    }
  }

  /** While the file only grows, following shows the matching lines among the
      bytes taken in since it started, each once and in order, however the
      reads cut them up; the last poll leaves nothing if its read is whole. */
  lemma FollowExact(first: Bytes, looks: seq<Look>, src: Bytes)
    requires Grows(first, looks)
    ensures var p, file := PlaceAfter(Place(|first|, []), looks), FileAt(first, looks);
            && |first| <= p.offset <= |file| && p.leftover == Rest(file[|first|..p.offset])
            && AllShown(Place(|first|, []), looks, src) == Matching(CompleteLines(file[|first|..p.offset]), src)
            && (looks != [] && looks[|looks| - 1].n >= |file| ==> p.offset == |file|)
  {
    hide CompleteLines, Rest, Matching, PlaceAfter, AllShown;
    RunFollows(first, looks, src);
    if looks != [] {
      LastLook(first, looks, src);
    }
  }

  lemma LastLook(first: Bytes, looks: seq<Look>, src: Bytes)
    requires Grows(first, looks) && looks != []
    ensures looks[|looks| - 1].n >= |FileAt(first, looks)|
            ==> PlaceAfter(Place(|first|, []), looks).offset == |FileAt(first, looks)|
  {
    hide Follows, Moved, Shown;
    var before, l := looks[..|looks| - 1], looks[|looks| - 1];
    RunFollows(first, before, src);
    PollFollows(FileAt(first, before), l.file, l.n, |first|, PlaceAfter(Place(|first|, []), before),
                AllShown(Place(|first|, []), before, src), src);
  }

  lemma Cancel(a: seq<Bytes>, b: seq<Bytes>, c: seq<Bytes>)
    requires b != c
    ensures a + b != a + c
  {
    assert (a + b)[|a|..] == b && (a + c)[|a|..] == c;
  }

  /** Following shows the lines of the log as they were written if and only if
      it started at the end of a line, or has completed none since. */
  lemma {:induction false} FollowKeepsLines(first: Bytes, added: Bytes)
    ensures CompleteLines(first) + CompleteLines(added) == CompleteLines(first + added)
            <==> Terminated(first) || NL !in added
  {
    hide CompleteLines, Rest;
    LinesAppend(first, added);
    TerminatedRest(first);
    var pending := Rest(first);
    LinesRejoin(first);
    if pending == [] {
      assert pending + added == added;
    } else if NL in added {
      var l, more := FirstLine(added);
      LineStep(l, more);
      assert pending + added == (pending + l) + [NL] + more;
      LineStep(pending + l, more);
      assert |CompleteLines(added)[0]| < |CompleteLines(pending + added)[0]|;
      Cancel(CompleteLines(first), CompleteLines(added), CompleteLines(pending + added));
    } else {
      NoLine(added);
      NoLine(pending + added);
    }
  }

  /** Started after "a", the viewer shows the line "ab" as "b". */
  lemma FollowSplitsLine()
    ensures CompleteLines([98, NL]) == [[98]] && CompleteLines([97] + [98, NL]) == [[97, 98]]
  {
    NoLine([]);
    LineStep([98], []);
    LineStep([97, 98], []);
    assert [98] + [NL] + [] == [98, NL] && [97, 98] + [NL] + [] == [97] + [98, NL];
    hide CompleteLines;
  }

  /** A rotation drops the first `k` bytes of what the follower has read, and
      `more` is logged.  With fewer than `k` new bytes the next poll sees a
      shorter file and shows the kept lines again; with `k` or more it takes the
      file for one that grew, and the first `k` new bytes are never shown. */
  lemma {:induction false} FollowAcrossRotation(data: Bytes, k: nat, more: Bytes, n: nat, src: Bytes)
    requires Terminated(data) && k <= |data| && n >= |data| + |more|
    ensures var file := data[k..] + more;
            var shown := Shown(Place(|data|, []), file, n, src);
            && (|more| < k ==> shown == Matching(CompleteLines(data[k..]), src) + Matching(CompleteLines(more), src))
            && (|more| >= k ==> shown == Matching(CompleteLines(more[k..]), src))
  {
    if |more| < k {
      FollowNoticed(data, k, more, n, src);
    } else {
      FollowMissed(data, k, more, n, src);
    }
  }

  /** The part of the first line of `s` before its newline. */
  function FirstLineOf(s: Bytes): Bytes {
    s[..Find(s, NL)]
  }

  /** The first `k` bytes of `more` may be left out unseen: they hold no matching
      line, and the line they break, if any, matches neither whole nor as what
      is left of it.  (Or the one line lost comes back as what is left of the
      broken one.) */
  predicate Expendable(more: Bytes, k: nat, src: Bytes)
    requires k <= |more|
  {
    var lost, tail := Matching(CompleteLines(more[..k]), src), Rest(more[..k]);
    if tail == [] || NL !in more[k..] then lost == []
    else
      var left := FirstLineOf(more[k..]);
      !LineMatches(tail + left, src) && lost == if LineMatches(left, src) then [left] else []
  }

  lemma Broken(lost: seq<Bytes>, tail: Bytes, left: Bytes, rest: seq<Bytes>, src: Bytes)
    requires tail != []
    ensures lost + (if LineMatches(tail + left, src) then [tail + left] else []) + rest
            == (if LineMatches(left, src) then [left] else []) + rest
            <==> !LineMatches(tail + left, src) && lost == if LineMatches(left, src) then [left] else []
  {
    hide LineMatches;
    var a := lost + if LineMatches(tail + left, src) then [tail + left] else [];
    var b := if LineMatches(left, src) then [left] else [];
    assert LineMatches(tail + left, src) ==> a[|a| - 1] == tail + left;
    assert !LineMatches(tail + left, src) ==> a == lost;
    assert |tail + left| != |left|;
    if a + rest == b + rest {
      assert |a| == |b|;
      assert (a + rest)[..|a|] == a && (b + rest)[..|b|] == b;
    }
  }

  lemma MatchingFirst(l: Bytes, ls: seq<Bytes>, src: Bytes)
    ensures Matching([l] + ls, src) == (if LineMatches(l, src) then [l] else []) + Matching(ls, src)
  {
    hide LineMatches;
    assert ([l] + ls)[1..] == ls;
  }

  /** Leaving out the first `k` bytes shows the same matching lines exactly when
      they are expendable. */
  lemma {:induction false} LeaveOut(more: Bytes, k: nat, src: Bytes)
    requires k <= |more|
    ensures Matching(CompleteLines(more[k..]), src) == Matching(CompleteLines(more), src) <==> Expendable(more, k, src)
  {
    hide CompleteLines, Rest, Matching, Find, LineMatches;
    var a, b := more[..k], more[k..];
    assert more == a + b;
    StreamStep(a, b, src);
    LinesRejoin(a);
    var lost, tail := Matching(CompleteLines(a), src), Rest(a);
    if tail == [] {
      assert tail + b == b;
      NothingBefore(lost, Matching(CompleteLines(b), src));
    } else if NL !in b {
      NoLine(b);
      NoLine(tail + b);
      NoMatch(src);
      assert lost + [] == lost;
    } else {
      LeaveOutBroken(lost, tail, b, src);
    }
  }

  lemma NothingBefore(a: seq<Bytes>, b: seq<Bytes>)
    ensures b == a + b <==> a == []
  {}

  lemma NoMatch(src: Bytes)
    ensures Matching([], src) == []
  {}

  lemma {:induction false} LeaveOutBroken(lost: seq<Bytes>, tail: Bytes, b: Bytes, src: Bytes)
    requires tail != [] && NL !in tail && NL in b
    ensures Matching(CompleteLines(b), src) == lost + Matching(CompleteLines(tail + b), src)
            <==> var left := FirstLineOf(b);
                 !LineMatches(tail + left, src) && lost == if LineMatches(left, src) then [left] else []
  {
    hide CompleteLines, Rest, Matching, Find, LineMatches;
    var l, rest := FirstLine(b);
    FindHere(l, NL, rest);
    assert b[..|l|] == l;
    assert FirstLineOf(b) == l;
    LineStep(l, rest);
    assert tail + b == (tail + l) + [NL] + rest;
    LineStep(tail + l, rest);
    MatchingFirst(l, CompleteLines(rest), src);
    MatchingFirst(tail + l, CompleteLines(rest), src);
    var m := Matching(CompleteLines(rest), src);
    assert lost + ((if LineMatches(tail + l, src) then [tail + l] else []) + m)
           == lost + (if LineMatches(tail + l, src) then [tail + l] else []) + m;
    Broken(lost, tail, l, m, src);
  }

  /** After a rotation that drops the first `k` bytes, the next poll shows each
      new matching line exactly once if and only if it notices and no kept line
      matches, or it does not notice and the new bytes it skips are
      expendable. */
  lemma {:induction false} RotationShowsOnceIff(data: Bytes, k: nat, more: Bytes, n: nat, src: Bytes)
    requires Terminated(data) && k <= |data| && n >= |data| + |more|
    ensures Shown(Place(|data|, []), data[k..] + more, n, src) == Matching(CompleteLines(more), src)
            <==> if |more| < k then Matching(CompleteLines(data[k..]), src) == [] else Expendable(more, k, src)
  {
    hide CompleteLines, Matching, Shown, Expendable;
    FollowAcrossRotation(data, k, more, n, src);
    if |more| < k {
      NothingBefore(Matching(CompleteLines(data[k..]), src), Matching(CompleteLines(more), src));
    } else {
      LeaveOut(more, k, src);
    }
  }

  /** Without a filter that is: nothing was dropped, or all that was there was
      dropped and noticed, or no line was completed since. */
  lemma {:induction false} RotationShowsAllIff(data: Bytes, k: nat, more: Bytes, n: nat)
    requires Terminated(data) && k <= |data| && n >= |data| + |more|
    ensures Shown(Place(|data|, []), data[k..] + more, n, []) == CompleteLines(more)
            <==> k == 0 || (if |more| < k then k == |data| else NL !in more)
  {
    hide CompleteLines, Matching, Shown, Rest, Find;
    RotationShowsOnceIff(data, k, more, n, []);
    AllMatch(CompleteLines(more));
    if |more| < k {
      AllMatch(CompleteLines(data[k..]));
      TerminatedRest(data[k..]);
      LinesRejoin(data[k..]);
      NoLine([]);
    } else {
      var a, b := more[..k], more[k..];
      assert more == a + b;
      AllMatch(CompleteLines(a));
      LinesRejoin(a);
      NoLine([]);
      if NL !in a {
        NoLine(a);
      }
    }
  }

  lemma {:induction false} FollowNoticed(data: Bytes, k: nat, more: Bytes, n: nat, src: Bytes)
    requires Terminated(data) && |more| < k <= |data| && n >= |data| + |more|
    ensures Shown(Place(|data|, []), data[k..] + more, n, src)
            == Matching(CompleteLines(data[k..]), src) + Matching(CompleteLines(more), src)
  {
    hide CompleteLines, Rest, Matching, Find;
    var kept := data[k..];
    StreamStep(kept, more, src);
    TerminatedRest(kept);
    assert [] + more == more;
    assert [] + (kept + more) == kept + more;
    if kept + more == [] {
      NothingShown(kept, more, src);
    }
  }

  lemma NothingShown(a: Bytes, b: Bytes, src: Bytes)
    requires a + b == []
    ensures Matching(CompleteLines(a), src) + Matching(CompleteLines(b), src) == []
  {
    assert a == [] && b == [];
  }

  lemma FollowMissed(data: Bytes, k: nat, more: Bytes, n: nat, src: Bytes)
    requires k <= |data| && k <= |more| && n >= |data| + |more|
    ensures Shown(Place(|data|, []), data[k..] + more, n, src) == Matching(CompleteLines(more[k..]), src)
  {
    NoLine([]);
    assert Matching([], src) == [];
    hide CompleteLines, Rest, Matching, Find;
    var file := data[k..] + more;
    if |more| == k {
      assert more[k..] == [];
    } else {
      assert file[|data|..] == more[k..];
      assert Fetched(Place(|data|, []), file, n) == more[k..];
      assert [] + more[k..] == more[k..];
    }
  }

  /** What the tail shows, for every filter. */
  lemma {:induction false} TailMatches(data: Bytes, src: Bytes)
    ensures Matching(Split(TrimNewlines(data), NL), src) == Matching(CompleteLines(data) + Partial(data), src)
            <==> src != [] || EndsInLine(data)
  {
    hide CompleteLines, Rest, Split, TrimNewlines, Matching, LineMatches, EndsInLine;
    if src == [] {
      TailExact(data);
      AllMatch(CompleteLines(data) + Partial(data));
    } else {
      TailShowsLast(data, src);
      if Rest(data) == [] {
        BlankNeverMatches(src);
        MatchingSnoc(CompleteLines(data), [], src);
        assert CompleteLines(data) + [] == CompleteLines(data);
      }
    }
  }

  /** A whole session, tail and then follow, on a log that only grows.  With a
      filter, or on a log that ends in a line, the tail is the last matching
      lines so far.  What follows is the matching lines among the bytes added,
      and these are the lines logged if and only if the session began at the end
      of a line or none has been completed since. */
  lemma {:induction false} SessionShows(first: Bytes, looks: seq<Look>, src: Bytes) returns (later: seq<Bytes>)
    requires Grows(first, looks)
    requires looks != [] && looks[|looks| - 1].n >= |FileAt(first, looks)|
    ensures |first| <= |FileAt(first, looks)| && later == CompleteLines(FileAt(first, looks)[|first|..])
    ensures src != [] || EndsInLine(first) ==>
              var tail := LastLines(Matching(Split(TrimNewlines(first), NL), src), LOGS_TAIL);
              var all := Matching(CompleteLines(first) + Partial(first), src);
              && |tail| == (if |all| < 200 then |all| else 200)
              && tail == all[|all| - |tail|..]
    ensures AllShown(Place(|first|, []), looks, src) == Matching(later, src)
    ensures CompleteLines(FileAt(first, looks)) == CompleteLines(first) + later
            <==> Terminated(first) || NL !in FileAt(first, looks)[|first|..]
  {
    hide CompleteLines, Rest, Matching, Split, TrimNewlines, AllShown, LineMatches, Terminated, LastLines;
    hide EndsInLine, Partial;
    FollowExact(first, looks, src);
    TailMatches(first, src);
    LastLinesAre(Matching(CompleteLines(first) + Partial(first), src), LOGS_TAIL);
    var file := FileAt(first, looks);
    StillThere(first, looks);
    var added := file[|first|..];
    later := CompleteLines(added);
    assert file == first + added;
    FollowKeepsLines(first, added);
    assert file[|first|..|file|] == added;
  }

  lemma {:induction false} StillThere(first: Bytes, looks: seq<Look>)
    requires Grows(first, looks)
    ensures first <= FileAt(first, looks)
  {
    if looks != [] {
      StillThere(first, looks[..|looks| - 1]);
    }
  }
}
