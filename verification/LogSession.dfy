/** Logging, rotating and following together: src/internal/nodelog/nodelog.go
    and src/internal/commands/logs.go. */
module LogSession {
  import opened Octets
  import opened Lines
  import opened LogFollow
  import R = LogRotate

  // ----- One rotation under a follower -----

  lemma {:induction false} RotatedIsSuffix(data: Bytes, maxBytes: int, c: R.Calls) returns (k: nat)
    requires R.Clean(data, maxBytes, c)
    ensures k <= |data| && R.Rotated(data, maxBytes, c) == data[k..]
    ensures k == |data| - |R.Rotated(data, maxBytes, c)|
  {
    if R.Rewrites(data, maxBytes, c) {
      k := R.SuffixOnCleanRotate(data, maxBytes, c);
    } else {
      k := 0;
      R.NotRewritten(data, maxBytes, c);
    }
    hide R.Rotated;
  }

  /** The viewer has read the whole log, the log is rotated, and more is logged:
      the next poll shows each new matching line exactly once if and only if
      the dropped bytes, as many as the file got shorter, are no more than the
      new ones and expendable, or are more and no kept line matches. */
  lemma {:induction false} RotateShowsOnceIff(data: Bytes, maxBytes: int, c: R.Calls, more: Bytes, n: nat, src: Bytes)
    requires Terminated(data) && R.Clean(data, maxBytes, c) && n >= |data| + |more|
    ensures var kept := R.Rotated(data, maxBytes, c);
            && |kept| <= |data|
            && (Shown(Place(|data|, []), kept + more, n, src) == Matching(CompleteLines(more), src)
                <==> if |kept| + |more| < |data| then Matching(CompleteLines(kept), src) == []
                     else Expendable(more, |data| - |kept|, src))
  {
    hide R.Rotated, R.Clean, Shown, Expendable, Matching, CompleteLines;
    var k := RotatedIsSuffix(data, maxBytes, c);
    RotationShowsOnceIff(data, k, more, n, src);
  }

  /** Without a filter: if and only if the rotation dropped nothing, or dropped
      everything and the file is shorter than it was, or no line was completed
      since. */
  lemma {:induction false} RotateShowsAllIff(data: Bytes, maxBytes: int, c: R.Calls, more: Bytes, n: nat)
    requires Terminated(data) && R.Clean(data, maxBytes, c) && n >= |data| + |more|
    ensures var kept := R.Rotated(data, maxBytes, c);
            Shown(Place(|data|, []), kept + more, n, []) == CompleteLines(more)
            <==> kept == data || (if |kept| + |more| < |data| then kept == [] else NL !in more)
  {
    hide R.Rotated, R.Clean, Shown, CompleteLines;
    var k := RotatedIsSuffix(data, maxBytes, c);
    RotationShowsAllIff(data, k, more, n);
  }

  // ----- Whole runs -----

  /** The daemon writes or begins a rotation, a begun rotation writes some more of
      the tail it keeps back into the emptied file, or the viewer polls. */
  datatype Step = Daemon(w: R.Step) | Refill(n: nat) | Look(n: nat)

  /** `pending` is the part of the tail that a rotation has yet to write back;
      `hist` is all that was ever logged.  `epochs` are the positions in it of
      the bytes the viewer took in, a new epoch for each restart.  `drift` is how
      far the viewer's place has slipped: the bytes that rotations dropped, less
      what restarts took back.  `mark` is where the log ended at the last poll,
      and `lost` counts the bytes dropped since. */
  datatype State = State(file: Bytes, pending: Bytes, hist: Bytes, place: Place, shown: seq<Bytes>,
                         epochs: seq<seq<int>>, drift: int, mark: nat, lost: int)

  function Start(base: Bytes): State {
    State(base, [], base, Place(|base|, []), [], [[]], 0, |base|, 0)
  }

  /** The position in the history where the file begins. */
  function Origin(s: State): int {
    |s.hist| - |s.file| - |s.pending|
  }

  function Added(w: R.Step): Bytes {
    if w.Append? then w.p else []
  }

  /** The step truncates the file, to write its tail back. */
  predicate Truncates(s: State, w: R.Step) {
    w.Turn? && R.Rewrites(s.file, w.maxBytes, w.calls)
  }

  /** While a rotation is under way the daemon's mutex keeps others out; the viewer
      is another process. */
  function Wrote(s: State, w: R.Step): State {
    if s.pending != [] then s
    else
      var full := R.After(s.file, w);
      var dropped := |s.file| + |Added(w)| - |full|;
      s.(file := if Truncates(s, w) then [] else full,
         pending := if Truncates(s, w) then full else [],
         hist := s.hist + Added(w), drift := s.drift + dropped, lost := s.lost + dropped)
  }

  function Refilled(s: State, n: nat): State {
    var k := if n < |s.pending| then n else |s.pending|;
    s.(file := s.file + s.pending[..k], pending := s.pending[k..])
  }

  function Range(from: int, len: nat): seq<int> {
    if len == 0 then [] else Range(from, len - 1) + [from + len - 1]
  }

  /** The last epoch goes on. */
  function Extend(epochs: seq<seq<int>>, ps: seq<int>): seq<seq<int>> {
    if epochs == [] then [ps] else epochs[..|epochs| - 1] + [epochs[|epochs| - 1] + ps]
  }

  function Looked(s: State, n: nat, src: Bytes): State {
    var noticed := |s.file| < s.place.offset;
    var q := Restarted(s.place, s.file);
    var took := Range(Origin(s) + q.offset, |Fetched(s.place, s.file, n)|);
    s.(place := Moved(s.place, s.file, n),
       shown := s.shown + Shown(s.place, s.file, n, src),
       epochs := Extend(if noticed then s.epochs + [[]] else s.epochs, took),
       drift := Slip(s), mark := |s.hist|, lost := 0)
  }

  function Apply(s: State, step: Step, src: Bytes): State {
    match step
    case Daemon(w) => Wrote(s, w)
    case Refill(n) => Refilled(s, n)
    case Look(n) => Looked(s, n, src)
  }

  function Exec(base: Bytes, steps: seq<Step>, src: Bytes): State {
    if steps == [] then Start(base)
    else Apply(Exec(base, steps[..|steps| - 1], src), steps[|steps| - 1], src)
  }

  /** Writes end with a newline, and no rotation is cut short. */
  predicate Proper(base: Bytes, steps: seq<Step>, src: Bytes) {
    steps == [] ||
    var before, last := steps[..|steps| - 1], steps[|steps| - 1];
    && Proper(base, before, src)
    && (last.Daemon? && Exec(base, before, src).pending == [] ==>
          R.ProperStep(Exec(base, before, src).file, last.w))
  }

  /** How far the place is off when a poll reads; a restart goes back. */
  function Slip(s: State): int {
    s.drift - if |s.file| < s.place.offset then s.place.offset else 0
  }

  /** The poll takes in bytes at a place that has slipped. */
  predicate Slips(s: State, n: nat) {
    Fetched(s.place, s.file, n) != [] && Slip(s) != 0
  }

  /** No poll slips. */
  predicate OnTrack(base: Bytes, steps: seq<Step>, src: Bytes) {
    steps == [] ||
    var before, last := steps[..|steps| - 1], steps[|steps| - 1];
    OnTrack(base, before, src) && (last.Look? ==> !Slips(Exec(base, before, src), last.n))
  }

  // ----- Positions -----

  /** The positions of all bytes taken in. */
  function Flat(epochs: seq<seq<int>>): seq<int> {
    if epochs == [] then [] else Flat(epochs[..|epochs| - 1]) + epochs[|epochs| - 1]
  }

  lemma FlatExtend(epochs: seq<seq<int>>, ps: seq<int>)
    ensures Flat(Extend(epochs, ps)) == Flat(epochs) + ps
    ensures Flat(epochs + [[]]) == Flat(epochs)
  {
    assert (epochs + [[]])[..|epochs|] == epochs;
    assert Flat(epochs) + [] == Flat(epochs);
    if epochs == [] {
      assert [ps][..0] == [];
    } else {
      var front, last := epochs[..|epochs| - 1], epochs[|epochs| - 1];
      assert (front + [last + ps])[..|front|] == front;
      assert Flat(front) + (last + ps) == Flat(front) + last + ps;
    }
  }

  lemma {:induction false} RangeAt(from: int, len: nat)
    ensures |Range(from, len)| == len
    ensures forall i | 0 <= i < len :: Range(from, len)[i] == from + i
  {
    if len > 0 {
      RangeAt(from, len - 1);
    }
  }

  /** Going on from another place than the next breaks the order for good. */
  lemma RangeBreaks(start: int, seen: seq<int>, from: int, len: nat)
    ensures seen + Range(from, len) == Range(start, |seen| + len)
            <==> seen == Range(start, |seen|) && (len == 0 || from == start + |seen|)
  {
    RangeAt(from, len);
    RangeAt(start, |seen| + len);
    RangeAt(start, |seen|);
    hide Range;
    var all := seen + Range(from, len);
    if all == Range(start, |seen| + len) {
      assert forall i | 0 <= i < |seen| :: seen[i] == all[i];
      assert len > 0 ==> all[|seen|] == from;
    }
  }

  /** In terms of the state: all bytes taken in so far are, in order and once
      each, those after `start`, and the slipped place is known. */
  ghost predicate InOrder(s: State, start: nat) {
    var t := |Flat(s.epochs)|;
    && Flat(s.epochs) == Range(start, t)
    && Origin(s) + s.place.offset - s.drift == start + t
  }

  ghost predicate Ordered(s: State, start: nat) {
    Flat(s.epochs) == Range(start, |Flat(s.epochs)|)
  }

  /** What a poll does to the positions. */
  lemma LookFacts(s: State, n: nat, src: Bytes)
    ensures var t := Looked(s, n, src);
            var from, len := Origin(s) + Restarted(s.place, s.file).offset, |Fetched(s.place, s.file, n)|;
            && t.file == s.file && t.pending == s.pending && t.hist == s.hist && t.drift == Slip(s)
            && Flat(t.epochs) == Flat(s.epochs) + Range(from, len)
            && t.place.offset == Restarted(s.place, s.file).offset + len
  {
    hide Range, Flat, Extend, Fetched, Shown, Rest;
    FlatExtend(s.epochs, []);
    var eps := if |s.file| < s.place.offset then s.epochs + [[]] else s.epochs;
    FlatExtend(eps, Range(Origin(s) + Restarted(s.place, s.file).offset, |Fetched(s.place, s.file, n)|));
  }

  lemma LookInOrder(s: State, n: nat, src: Bytes, start: nat)
    ensures InOrder(s, start) && !Slips(s, n) ==> InOrder(Looked(s, n, src), start)
    ensures InOrder(s, start) && Slips(s, n) ==> !Ordered(Looked(s, n, src), start)
    ensures !Ordered(s, start) ==> !Ordered(Looked(s, n, src), start)
  {
    LookFacts(s, n, src);
    hide Range, Flat, Looked, Fetched;
    var from, len := Origin(s) + Restarted(s.place, s.file).offset, |Fetched(s.place, s.file, n)|;
    RangeAt(from, len);
    RangeBreaks(start, Flat(s.epochs), from, len);
  }

  lemma WriteInOrder(s: State, w: R.Step, start: nat)
    ensures InOrder(s, start) ==> InOrder(Wrote(s, w), start)
    ensures Ordered(s, start) <==> Ordered(Wrote(s, w), start)
  {
    hide Range, Flat, R.After;
  }

  lemma RefillInOrder(s: State, n: nat, start: nat)
    ensures InOrder(s, start) ==> InOrder(Refilled(s, n), start)
    ensures Ordered(s, start) <==> Ordered(Refilled(s, n), start)
  {
    hide Range, Flat;
  }

  /** The viewer takes in every byte after its start exactly once and in order if
      and only if no poll slips. */
  lemma {:induction false} TakesInOnceIff(base: Bytes, steps: seq<Step>, src: Bytes)
    ensures Ordered(Exec(base, steps, src), |base|) <==> OnTrack(base, steps, src)
    ensures OnTrack(base, steps, src) ==> InOrder(Exec(base, steps, src), |base|)
  {
    if steps == [] {
      assert Flat([[]]) == [];
    } else {
      hide Wrote, Looked, Refilled, Ordered, Slips;
      var before, last := steps[..|steps| - 1], steps[|steps| - 1];
      TakesInOnceIff(base, before, src);
      var s := Exec(base, before, src);
      match last
      case Daemon(w) => WriteInOrder(s, w, |base|);
      case Refill(n) => RefillInOrder(s, n, |base|);
      case Look(n) => LookInOrder(s, n, src, |base|);
      InOrderOrdered(s, |base|);
      InOrderOrdered(Exec(base, steps, src), |base|);
      hide InOrder;
    }
  }

  lemma InOrderOrdered(s: State, start: nat)
    ensures InOrder(s, start) ==> Ordered(s, start)
  {}

  // ----- What is shown -----

  /** The bytes at these positions. */
  function Pick(h: Bytes, ps: seq<int>): Bytes {
    if ps == [] then []
    else
      var p := ps[|ps| - 1];
      Pick(h, ps[..|ps| - 1]) + if 0 <= p < |h| then [h[p]] else []
  }

  predicate Below(ps: seq<int>, n: nat) {
    forall i | 0 <= i < |ps| :: 0 <= ps[i] < n
  }

  lemma {:induction false} PickAppend(h: Bytes, a: seq<int>, b: seq<int>)
    ensures Pick(h, a + b) == Pick(h, a) + Pick(h, b)
  {
    if b == [] {
      assert a + b == a;
    } else {
      assert (a + b)[..|a + b| - 1] == a + b[..|b| - 1];
      PickAppend(h, a, b[..|b| - 1]);
    }
  }

  lemma PickSnoc(h: Bytes, ps: seq<int>, p: int)
    ensures Pick(h, ps + [p]) == Pick(h, ps) + if 0 <= p < |h| then [h[p]] else []
    ensures Below(ps + [p], |h|) <==> Below(ps, |h|) && 0 <= p < |h|
  {
    assert (ps + [p])[..|ps|] == ps;
    assert forall i | 0 <= i < |ps| :: (ps + [p])[i] == ps[i];
  }

  lemma SliceNext(h: Bytes, a: nat, b: nat)
    requires a <= b < |h|
    ensures h[a..b + 1] == h[a..b] + [h[b]]
  {}

  lemma RangeNext(from: int, len: nat)
    ensures Range(from, 0) == [] && Range(from, len + 1) == Range(from, len) + [from + len]
  {}

  lemma NothingPicked(h: Bytes, a: nat)
    requires a <= |h|
    ensures Pick(h, []) == h[a..a] && Below([], |h|)
  {}

  lemma {:induction false} PickRange(h: Bytes, from: nat, len: nat)
    requires from + len <= |h|
    ensures Pick(h, Range(from, len)) == h[from..from + len] && Below(Range(from, len), |h|)
  {
    hide Pick, Below, Range;
    if len == 0 {
      RangeNext(from, 0);
      NothingPicked(h, from);
    } else {
      var p: nat := len - 1;
      PickRange(h, from, p);
      RangeNext(from, p);
      PickSnoc(h, Range(from, p), from + p);
      SliceNext(h, from, from + p);
    }
  }

  lemma {:induction false} PickLater(h: Bytes, more: Bytes, ps: seq<int>)
    requires Below(ps, |h|)
    ensures Pick(h + more, ps) == Pick(h, ps)
  {
    if ps != [] {
      PickLater(h, more, ps[..|ps| - 1]);
    }
  }

  /** The matching lines of each epoch, one epoch after the other. */
  function EpochLines(h: Bytes, epochs: seq<seq<int>>, src: Bytes): seq<Bytes> {
    if epochs == [] then []
    else
      EpochLines(h, epochs[..|epochs| - 1], src)
      + Matching(CompleteLines(Pick(h, epochs[|epochs| - 1])), src)
  }

  ghost predicate AllBelow(epochs: seq<seq<int>>, n: nat) {
    forall e | e in epochs :: Below(e, n)
  }

  lemma {:induction false} EpochsLater(h: Bytes, more: Bytes, epochs: seq<seq<int>>, src: Bytes)
    requires AllBelow(epochs, |h|)
    ensures EpochLines(h + more, epochs, src) == EpochLines(h, epochs, src)
    ensures AllBelow(epochs, |h + more|)
  {
    hide CompleteLines, Matching;
    if epochs != [] {
      EpochsLater(h, more, epochs[..|epochs| - 1], src);
      assert epochs[|epochs| - 1] in epochs;
      PickLater(h, more, epochs[|epochs| - 1]);
    }
  }

  lemma NewEpoch(h: Bytes, epochs: seq<seq<int>>, src: Bytes)
    ensures EpochLines(h, epochs + [[]], src) == EpochLines(h, epochs, src)
    ensures Rest(Pick(h, [])) == [] && (AllBelow(epochs, |h|) ==> AllBelow(epochs + [[]], |h|))
  {
    NoLine([]);
    NoMatch(src);
    hide CompleteLines, Matching;
    assert (epochs + [[]])[..|epochs|] == epochs;
    assert EpochLines(h, epochs, src) + [] == EpochLines(h, epochs, src);
  }

  lemma ExtendEpoch(h: Bytes, epochs: seq<seq<int>>, from: nat, len: nat, src: Bytes)
    requires epochs != [] && from + len <= |h| && AllBelow(epochs, |h|)
    ensures var was, got := Pick(h, epochs[|epochs| - 1]), h[from..from + len];
            var now := Extend(epochs, Range(from, len));
            && EpochLines(h, now, src) == EpochLines(h, epochs, src) + Matching(CompleteLines(Rest(was) + got), src)
            && now != [] && Rest(Pick(h, now[|now| - 1])) == Rest(Rest(was) + got)
            && AllBelow(now, |h|)
  {
    hide CompleteLines, Matching, Rest, Range;
    var front, last := epochs[..|epochs| - 1], epochs[|epochs| - 1];
    var took := Range(from, len);
    PickRange(h, from, len);
    PickAppend(h, last, took);
    StreamStep(Pick(h, last), h[from..from + len], src);
    assert (front + [last + took])[..|front|] == front;
    assert last in epochs;
    hide Pick;
  }

  /** The file and what is to be written back are whole lines of the history. */
  ghost predicate WholeLines(s: State) {
    Origin(s) >= 0 && R.WholeLinesFrom(s.file + s.pending, s.hist, Origin(s))
  }

  /** What is shown and left over is what the epochs say. */
  ghost predicate Held(s: State, src: Bytes) {
    && WholeLines(s)
    && s.epochs != [] && AllBelow(s.epochs, |s.hist|)
    && s.place.leftover == Rest(Pick(s.hist, s.epochs[|s.epochs| - 1]))
    && s.shown == EpochLines(s.hist, s.epochs, src)
  }

  lemma StartHeld(base: Bytes, src: Bytes)
    requires Terminated(base)
    ensures Held(Start(base), src)
  {
    var none: seq<seq<int>> := [];
    NewEpoch(base, none, src);
    assert none + [[]] == [[]];
    assert base + [] == base;
    hide CompleteLines, Matching, Rest;
  }

  /** The whole content after a write or rotation, once written back. */
  lemma WroteFull(s: State, w: R.Step)
    requires s.pending == []
    ensures var t := Wrote(s, w);
            && t.file + t.pending == R.After(s.file, w) && t.hist == s.hist + Added(w)
            && Origin(t) == |s.hist| + |Added(w)| - |R.After(s.file, w)|
  {
    var full := R.After(s.file, w);
    assert [] + full == full + [] == full;
    hide R.After, Truncates;
  }

  lemma WroteWhole(s: State, w: R.Step, m: nat)
    requires s.pending == [] && R.WholeLinesFrom(R.After(s.file, w), s.hist + Added(w), m)
    ensures WholeLines(Wrote(s, w))
  {
    hide R.After, Wrote, R.WholeLinesFrom, Origin, Added;
    WroteFull(s, w);
    FromIs(R.After(s.file, w), s.hist + Added(w), m);
    var t := Wrote(s, w);
    assert R.WholeLinesFrom(t.file + t.pending, t.hist, m);
    assert Origin(t) == m;
  }

  lemma FileWhole(s: State)
    requires WholeLines(s) && s.pending == []
    ensures Origin(s) >= 0 && R.WholeLinesFrom(s.file, s.hist, Origin(s))
  {
    assert s.file + [] == s.file;
  }

  lemma WriteKeepsLines(s: State, w: R.Step)
    requires WholeLines(s) && (s.pending == [] ==> R.ProperStep(s.file, w))
    ensures WholeLines(Wrote(s, w))
  {
    if s.pending == [] {
      FileWhole(s);
      hide R.After, R.ProperStep, Wrote, R.WholeLinesFrom, WholeLines;
      var m: nat := Origin(s);
      if w.Append? {
        R.AppendKeepsLines(s.file, w, s.hist, m);
      } else {
        m := R.TurnKeepsLines(s.file, w, s.hist, m);
        assert s.hist + [] == s.hist;
      }
      WroteWhole(s, w, m);
    }
  }

  lemma FromIs(data: Bytes, h: Bytes, m: nat)
    requires R.WholeLinesFrom(data, h, m)
    ensures m == |h| - |data|
  {}

  lemma LookKeepsLines(s: State, n: nat, src: Bytes)
    ensures WholeLines(Looked(s, n, src)) <==> WholeLines(s)
    ensures Origin(Looked(s, n, src)) == Origin(s)
  {
    hide Range, Extend, Shown, Moved, Fetched, R.WholeLinesFrom;
  }

  lemma RefillKeepsLines(s: State, n: nat)
    requires WholeLines(s)
    ensures WholeLines(Refilled(s, n))
  {
    var k := if n < |s.pending| then n else |s.pending|;
    assert s.file + s.pending[..k] + s.pending[k..] == s.file + s.pending;
    hide R.WholeLinesFrom;
  }

  lemma WriteHeld(s: State, w: R.Step, src: Bytes)
    requires Held(s, src) && (s.pending == [] ==> R.ProperStep(s.file, w))
    ensures Held(Wrote(s, w), src)
  {
    hide WholeLines, R.ProperStep, R.After, EpochLines, Rest, Pick, AllBelow, Truncates;
    WriteKeepsLines(s, w);
    EpochsLater(s.hist, Added(w), s.epochs, src);
    LastLater(s, Added(w));
  }

  lemma RefillHeld(s: State, n: nat, src: Bytes)
    requires Held(s, src)
    ensures Held(Refilled(s, n), src)
  {
    hide WholeLines, EpochLines, Rest, Pick, AllBelow;
    RefillKeepsLines(s, n);
  }

  lemma LastLater(s: State, more: Bytes)
    requires s.epochs != [] && AllBelow(s.epochs, |s.hist|)
    ensures Pick(s.hist + more, s.epochs[|s.epochs| - 1]) == Pick(s.hist, s.epochs[|s.epochs| - 1])
  {
    PickLater(s.hist, more, s.epochs[|s.epochs| - 1]);
  }

  /** What one poll shows and leaves over, in terms of the bytes taken in. */
  lemma PollShows(p: Place, file: Bytes, n: nat, src: Bytes)
    requires NL !in p.leftover
    ensures var q, got := Restarted(p, file), Fetched(p, file, n);
            && Shown(p, file, n, src) == Matching(CompleteLines(q.leftover + got), src)
            && Moved(p, file, n).leftover == Rest(q.leftover + got)
  {
    var q := Restarted(p, file);
    NoLine(q.leftover);
    NoMatch(src);
    hide CompleteLines, Matching, Rest;
    assert q.leftover + [] == q.leftover;
  }

  lemma LookHeld(s: State, n: nat, src: Bytes)
    requires Held(s, src)
    ensures Held(Looked(s, n, src), src)
  {
    hide WholeLines, Origin, EpochLines, Rest, Pick, AllBelow, Matching, CompleteLines;
    hide Range, Extend, Shown, Moved, Fetched;
    var q, got := Restarted(s.place, s.file), Fetched(s.place, s.file, n);
    var eps := if |s.file| < s.place.offset then s.epochs + [[]] else s.epochs;
    LinesRejoin(Pick(s.hist, s.epochs[|s.epochs| - 1]));
    PollShows(s.place, s.file, n, src);
    NewEpoch(s.hist, s.epochs, src);
    var from := Origin(s) + q.offset;
    FetchedAt(s, n);
    LookKeepsLines(s, n, src);
    ExtendEpoch(s.hist, eps, from, |got|, src);
  }

  lemma FetchedAt(s: State, n: nat)
    requires WholeLines(s)
    ensures var from, got := Origin(s) + Restarted(s.place, s.file).offset, Fetched(s.place, s.file, n);
            0 <= from && from + |got| <= |s.hist| && s.hist[from..from + |got|] == got
  {
    var q, got := Restarted(s.place, s.file).offset, Fetched(s.place, s.file, n);
    FetchedInFile(s.place, s.file, n);
    hide Fetched;
    var o: nat := Origin(s);
    assert s.hist[o..] == s.file + s.pending;
    assert got == (s.file + s.pending)[q..q + |got|] == s.hist[o + q..o + q + |got|];
  }

  lemma FetchedInFile(p: Place, file: Bytes, n: nat)
    ensures var q, got := Restarted(p, file).offset, Fetched(p, file, n);
            q + |got| <= |file| && got == file[q..q + |got|]
  {}

  lemma {:induction false} RunHeld(base: Bytes, steps: seq<Step>, src: Bytes)
    requires Terminated(base) && Proper(base, steps, src)
    ensures Held(Exec(base, steps, src), src)
  {
    if steps == [] {
      StartHeld(base, src);
    } else {
      hide Held, Wrote, Looked, Refilled, R.ProperStep;
      var before, last := steps[..|steps| - 1], steps[|steps| - 1];
      RunHeld(base, before, src);
      var s := Exec(base, before, src);
      match last
      case Daemon(w) => WriteHeld(s, w, src);
      case Refill(n) => RefillHeld(s, n, src);
      case Look(n) => LookHeld(s, n, src);
    }
  }

  /** Exactly what is shown, over every mix of logging, rotations and polls: the
      matching lines of the bytes taken in since each restart. */
  lemma {:induction false} ShowsEpochs(base: Bytes, steps: seq<Step>, src: Bytes)
    requires Terminated(base) && Proper(base, steps, src)
    ensures var s := Exec(base, steps, src);
            && s.shown == EpochLines(s.hist, s.epochs, src)
            && AllBelow(s.epochs, |s.hist|)
            && Origin(s) >= 0 && s.file + s.pending == s.hist[Origin(s)..]
  {
    RunHeld(base, steps, src);
    hide Exec, EpochLines, AllBelow, Proper;
  }

  // ----- On track -----

  /** The lines since `start` are shown as far as they were taken in.  At the top
      of a file nothing is left over. */
  ghost predicate UpToDate(s: State, start: nat, src: Bytes) {
    var next := start + |Flat(s.epochs)|;
    && next <= |s.hist|
    && s.shown == Matching(CompleteLines(s.hist[start..next]), src)
    && (s.place.leftover == Rest(s.hist[start..next]) || s.place == Place(0, []))
  }

  lemma WriteUpToDate(s: State, w: R.Step, start: nat, src: Bytes)
    requires UpToDate(s, start, src)
    ensures UpToDate(Wrote(s, w), start, src)
  {
    hide CompleteLines, Matching, Rest, Flat, R.After;
    var next := start + |Flat(s.epochs)|;
    assert (s.hist + Added(w))[start..next] == s.hist[start..next];
  }

  lemma RefillUpToDate(s: State, n: nat, start: nat, src: Bytes)
    requires UpToDate(s, start, src)
    ensures UpToDate(Refilled(s, n), start, src)
  {
    hide CompleteLines, Matching, Rest, Flat;
  }

  /** At the top of the file, what came before ends with a newline. */
  lemma NothingLeft(s: State, start: nat, src: Bytes)
    requires Held(s, src) && start <= Origin(s)
    ensures Rest(s.hist[start..Origin(s)]) == []
  {
    var cut: nat := Origin(s);
    TerminatedRest(s.hist[start..cut]);
    hide Rest, EpochLines, AllBelow, Pick;
    assert R.Boundary(s.hist, cut);
    assert start < cut ==> s.hist[start..cut][cut - start - 1] == s.hist[cut - 1];
  }

  /** Part of the invariant that the polls need. */
  lemma HeldFacts(s: State, n: nat, src: Bytes)
    requires Held(s, src)
    ensures NL !in s.place.leftover
    ensures var from, got := Origin(s) + Restarted(s.place, s.file).offset, Fetched(s.place, s.file, n);
            0 <= from && from + |got| <= |s.hist| && s.hist[from..from + |got|] == got
  {
    hide WholeLines, Origin, EpochLines, Rest, Pick, AllBelow, Fetched;
    LinesRejoin(Pick(s.hist, s.epochs[|s.epochs| - 1]));
    FetchedAt(s, n);
  }

  /** What one poll changes. */
  lemma LookValues(s: State, n: nat, src: Bytes)
    requires Held(s, src)
    ensures var q, got := Restarted(s.place, s.file), Fetched(s.place, s.file, n);
            var t := Looked(s, n, src);
            && t.hist == s.hist && |Flat(t.epochs)| == |Flat(s.epochs)| + |got|
            && t.shown == s.shown + Matching(CompleteLines(q.leftover + got), src)
            && t.place == Place(q.offset + |got|, Rest(q.leftover + got))
            && NL !in q.leftover
  {
    HeldFacts(s, n, src);
    PollShows(s.place, s.file, n, src);
    LookFacts(s, n, src);
    RangeAt(Origin(s) + Restarted(s.place, s.file).offset, |Fetched(s.place, s.file, n)|);
    hide CompleteLines, Matching, Rest, Flat, Held, Extend, Fetched, Shown, Range;
  }

  /** A poll that takes in nothing shows nothing. */
  lemma IdleLook(s: State, n: nat, start: nat, src: Bytes)
    requires Held(s, src) && UpToDate(s, start, src) && Fetched(s.place, s.file, n) == []
    ensures UpToDate(Looked(s, n, src), start, src)
  {
    hide CompleteLines, Matching, Rest, Flat, Held, Fetched, Looked;
    LookValues(s, n, src);
    var q := Restarted(s.place, s.file);
    NoLine(q.leftover);
    NoMatch(src);
    assert q.leftover + [] == q.leftover;
    assert s.shown + [] == s.shown;
  }

  /** A poll that takes in the next bytes shows the lines that they complete. */
  lemma BusyLook(s: State, n: nat, start: nat, src: Bytes)
    requires Held(s, src) && UpToDate(s, start, src) && InOrder(s, start)
    requires Fetched(s.place, s.file, n) != [] && Slip(s) == 0
    ensures UpToDate(Looked(s, n, src), start, src)
  {
    hide CompleteLines, Matching, Rest, Flat, Held, Fetched, Looked, Range;
    var next, got := start + |Flat(s.epochs)|, Fetched(s.place, s.file, n);
    LookValues(s, n, src);
    HeldFacts(s, n, src);
    assert next == Origin(s) + Restarted(s.place, s.file).offset;
    LeftIsRest(s, start, src);
    StreamStep(s.hist[start..next], got, src);
    assert s.hist[start..next + |got|] == s.hist[start..next] + got;
  }

  lemma LeftIsRest(s: State, start: nat, src: Bytes)
    requires Held(s, src) && UpToDate(s, start, src)
    requires start + |Flat(s.epochs)| == Origin(s) + Restarted(s.place, s.file).offset
    ensures Restarted(s.place, s.file).leftover == Rest(s.hist[start..start + |Flat(s.epochs)|])
  {
    hide CompleteLines, Matching, Rest, Flat, Held;
    if Restarted(s.place, s.file) == Place(0, []) {
      NothingLeft(s, start, src);
    }
  }

  lemma LookUpToDate(s: State, n: nat, start: nat, src: Bytes)
    requires Held(s, src) && UpToDate(s, start, src) && InOrder(s, start) && !Slips(s, n)
    ensures UpToDate(Looked(s, n, src), start, src)
  {
    hide Held, UpToDate, InOrder, Looked;
    if Fetched(s.place, s.file, n) == [] {
      IdleLook(s, n, start, src);
    } else {
      BusyLook(s, n, start, src);
    }
  }

  lemma {:induction false} RunUpToDate(base: Bytes, steps: seq<Step>, src: Bytes)
    requires Terminated(base) && Proper(base, steps, src) && OnTrack(base, steps, src)
    ensures UpToDate(Exec(base, steps, src), |base|, src)
  {
    if steps == [] {
      NoLine([]);
      NoMatch(src);
      assert base[|base|..|base|] == [] && Flat([[]]) == [];
      hide CompleteLines, Matching, Rest;
    } else {
      hide Wrote, Looked, Refilled, Slips, UpToDate, Held, InOrder, R.ProperStep;
      var before, last := steps[..|steps| - 1], steps[|steps| - 1];
      RunUpToDate(base, before, src);
      RunHeld(base, before, src);
      TakesInOnceIff(base, before, src);
      var s := Exec(base, before, src);
      match last
      case Daemon(w) => WriteUpToDate(s, w, |base|, src);
      case Refill(n) => RefillUpToDate(s, n, |base|, src);
      case Look(n) => LookUpToDate(s, n, |base|, src);
    }
  }

  /** When no poll slips, what is shown is the matching lines logged since the
      viewer started, once each and in order, up to the byte it has reached; and
      it has reached the end of the log once its place is the end of the file. */
  lemma {:induction false} ShowsEachLineOnce(base: Bytes, steps: seq<Step>, src: Bytes)
    requires Terminated(base) && Proper(base, steps, src) && OnTrack(base, steps, src)
    ensures var s := Exec(base, steps, src);
            var next := |base| + |Flat(s.epochs)|;
            && next <= |s.hist|
            && s.shown == Matching(CompleteLines(s.hist[|base|..next]), src)
            && (s.drift == 0 && s.place.offset == |s.file + s.pending| ==> next == |s.hist|)
  {
    hide Exec, Proper, OnTrack, CompleteLines, Matching, Rest, Flat, Range;
    RunUpToDate(base, steps, src);
    TakesInOnceIff(base, steps, src);
  }

  // ----- Each poll, in lines -----

  /** Every poll comes between rotations, and its read is whole. */
  predicate WholePolls(base: Bytes, steps: seq<Step>) {
    steps == [] ||
    var before, last := steps[..|steps| - 1], steps[|steps| - 1];
    && WholePolls(base, before)
    && (last.Look? ==> Exec(base, before, []).pending == [] && last.n >= |Exec(base, before, []).file|)
  }

  /** Without a filter, every poll shows exactly the lines logged since the one
      before. */
  predicate EachPollShowsNew(base: Bytes, steps: seq<Step>) {
    steps == [] ||
    var before, last := steps[..|steps| - 1], steps[|steps| - 1];
    EachPollShowsNew(base, before) && (last.Look? ==> ShowsNew(Exec(base, before, []), last.n))
  }

  predicate ShowsNew(s: State, n: nat) {
    s.mark <= |s.hist| && Shown(s.place, s.file, n, []) == CompleteLines(s.hist[s.mark..])
  }

  /** Since the poll before, rotations dropped nothing, or all that the file held
      then, and more than was logged. */
  predicate Undisturbed(s: State) {
    s.lost == 0 || (s.lost == s.place.offset && s.lost > |s.hist| - s.mark)
  }

  predicate NeverDisturbed(base: Bytes, steps: seq<Step>) {
    steps == [] ||
    var before, last := steps[..|steps| - 1], steps[|steps| - 1];
    NeverDisturbed(base, before) && (last.Look? ==> Undisturbed(Exec(base, before, [])))
  }

  /** Between polls: nothing is left over, and the size of the content is known. */
  ghost predicate Synced(s: State) {
    && s.place.leftover == [] && s.mark <= |s.hist| && Terminated(s.hist[..s.mark])
    && |s.file| + |s.pending| == s.place.offset + (|s.hist| - s.mark) - s.lost
  }

  /** Whole lines of a log are told apart by where they begin. */
  lemma {:induction false} SameLinesIff(h: Bytes, a: nat, b: nat)
    requires Terminated(h) && a <= |h| && b <= |h|
    ensures CompleteLines(h[a..]) == CompleteLines(h[b..]) <==> a == b
  {
    SuffixEnds(h, a);
    SuffixEnds(h, b);
    hide CompleteLines, Rest, Unlines;
    LinesRejoin(h[a..]);
    LinesRejoin(h[b..]);
    TerminatedRest(h[a..]);
    TerminatedRest(h[b..]);
    if CompleteLines(h[a..]) == CompleteLines(h[b..]) {
      assert |h[a..]| == |h[b..]|;
    }
  }

  lemma SuffixEnds(h: Bytes, a: nat)
    requires Terminated(h) && a <= |h|
    ensures Terminated(h[a..])
  {}

  /** What a whole poll shows. */
  lemma {:induction false} WholePollShows(s: State, n: nat)
    requires WholeLines(s) && Synced(s) && s.pending == [] && n >= |s.file|
    ensures var from := Origin(s) + Restarted(s.place, s.file).offset;
            && 0 <= from <= |s.hist| && Terminated(s.hist)
            && Shown(s.place, s.file, n, []) == CompleteLines(s.hist[from..])
            && s.file[Restarted(s.place, s.file).offset..] == s.hist[from..]
  {
    hide CompleteLines, R.WholeLinesFrom, WholeLines, Shown, Restarted;
    FileWhole(s);
    FileSuffix(s.file, s.hist, Origin(s), Restarted(s.place, s.file).offset);
    PollToEnd(s.place, s.file, n);
  }

  lemma FileSuffix(file: Bytes, h: Bytes, o: nat, q: nat)
    requires R.WholeLinesFrom(file, h, o) && q <= |file|
    ensures o + q <= |h| && h[o + q..] == file[q..] && Terminated(h)
  {}

  lemma {:induction false} PollToEnd(p: Place, file: Bytes, n: nat)
    requires p.leftover == [] && n >= |file|
    ensures Shown(p, file, n, []) == CompleteLines(file[Restarted(p, file).offset..])
  {
    var q := Restarted(p, file).offset;
    NoLine([]);
    AllMatch(CompleteLines(file[q..]));
    hide CompleteLines, Matching, Find;
    assert Fetched(p, file, n) == file[q..];
    assert [] + file[q..] == file[q..];
    assert |file| == q ==> file[q..] == [];
  }

  /** A whole poll shows exactly the new lines if and only if rotations did not
      disturb it. */
  lemma {:induction false} PollShowsNewIff(s: State, n: nat)
    requires WholeLines(s) && Synced(s) && s.pending == [] && n >= |s.file|
    ensures ShowsNew(s, n) <==> Undisturbed(s)
  {
    hide CompleteLines, Shown, WholeLines, Terminated, Origin, Restarted, Undisturbed;
    WholePollShows(s, n);
    ReadsFromMark(s);
    SameLinesIff(s.hist, Origin(s) + Restarted(s.place, s.file).offset, s.mark);
  }

  /** Where the poll reads, against where the log ended at the one before. */
  lemma ReadsFromMark(s: State)
    requires Synced(s) && s.pending == []
    ensures Origin(s) + Restarted(s.place, s.file).offset == s.mark <==> Undisturbed(s)
  {
    hide Terminated;
  }

  lemma SyncedDaemon(s: State, w: R.Step)
    requires Synced(s)
    ensures Synced(Wrote(s, w))
  {
    assert (s.hist + Added(w))[..s.mark] == s.hist[..s.mark];
    hide R.After;
  }

  lemma SyncedRefill(s: State, n: nat)
    requires Synced(s)
    ensures Synced(Refilled(s, n))
  {}

  /** A whole poll leaves the place at the end of the file. */
  lemma {:induction false} WholePollMoves(s: State, n: nat)
    requires WholeLines(s) && Synced(s) && s.pending == [] && n >= |s.file|
    ensures Moved(s.place, s.file, n) == Place(|s.file|, []) && Terminated(s.hist)
  {
    WholePollShows(s, n);
    var q := Restarted(s.place, s.file).offset;
    SuffixEnds(s.hist, Origin(s) + q);
    TerminatedRest(s.file[q..]);
    hide CompleteLines, Rest, Shown, WholeLines, Terminated, Origin;
    assert Fetched(s.place, s.file, n) == s.file[q..];
    assert [] + s.file[q..] == s.file[q..];
  }

  lemma {:induction false} SyncedLook(s: State, n: nat)
    requires WholeLines(s) && Synced(s) && s.pending == [] && n >= |s.file|
    ensures Synced(Looked(s, n, []))
    ensures Looked(s, n, []).shown == s.shown + Shown(s.place, s.file, n, [])
    ensures Looked(s, n, []).mark == |s.hist| && Looked(s, n, []).hist == s.hist
  {
    WholePollMoves(s, n);
    hide WholeLines, Moved, Shown, Extend, Range, Fetched, Terminated, Restarted;
    assert s.hist[..|s.hist|] == s.hist;
  }

  lemma {:induction false} RunSynced(base: Bytes, steps: seq<Step>)
    requires Terminated(base) && Proper(base, steps, []) && WholePolls(base, steps)
    ensures Synced(Exec(base, steps, [])) && WholeLines(Exec(base, steps, []))
  {
    RunHeld(base, steps, []);
    if steps == [] {
      assert base[..|base|] == base;
    } else {
      hide Synced, WholeLines, Wrote, Looked, Refilled;
      var before, last := steps[..|steps| - 1], steps[|steps| - 1];
      RunSynced(base, before);
      var s := Exec(base, before, []);
      match last
      case Daemon(w) => SyncedDaemon(s, w);
      case Refill(n) => SyncedRefill(s, n);
      case Look(n) => SyncedLook(s, n);
    }
  }

  /** Over every run in which polls come between rotations and their reads are
      whole, each poll shows exactly the lines logged since the one before if
      and only if at each, the rotations since had dropped nothing, or all that
      the file held then and more than was logged. */
  lemma {:induction false} EachPollShowsNewIff(base: Bytes, steps: seq<Step>)
    requires Terminated(base) && Proper(base, steps, []) && WholePolls(base, steps)
    ensures EachPollShowsNew(base, steps) <==> NeverDisturbed(base, steps)
  {
    if steps != [] {
      hide ShowsNew, Undisturbed, Synced, WholeLines, Exec;
      var before, last := steps[..|steps| - 1], steps[|steps| - 1];
      EachPollShowsNewIff(base, before);
      RunSynced(base, before);
      if last.Look? {
        PollShowsNewIff(Exec(base, before, []), last.n);
      }
    }
  }

  /** The lines shown are then those logged from the start to the last poll. */
  lemma {:induction false} ShownSoFar(base: Bytes, steps: seq<Step>)
    requires Terminated(base) && Proper(base, steps, []) && WholePolls(base, steps) && EachPollShowsNew(base, steps)
    ensures var s := Exec(base, steps, []);
            && |base| <= s.mark <= |s.hist| && base <= s.hist
            && s.shown == CompleteLines(s.hist[|base|..s.mark])
  {
    if steps == [] {
      NoLine([]);
      assert base[|base|..|base|] == [];
      hide CompleteLines;
    } else {
      hide CompleteLines, Synced, WholeLines, Wrote, Looked, Refilled, ShowsNew;
      var before, last := steps[..|steps| - 1], steps[|steps| - 1];
      ShownSoFar(base, before);
      RunSynced(base, before);
      var s := Exec(base, before, []);
      match last
      case Daemon(w) => StillShown(s, w, |base|);
      case Refill(n) => RefillShown(s, n);
      case Look(n) => NowShown(s, n, |base|);
    }
  }

  lemma StillShown(s: State, w: R.Step, start: nat)
    requires start <= s.mark <= |s.hist|
    ensures var t := Wrote(s, w);
            && t.mark == s.mark && t.shown == s.shown && s.hist <= t.hist
            && t.hist[start..t.mark] == s.hist[start..s.mark]
  {
    hide R.After;
  }

  lemma RefillShown(s: State, n: nat)
    ensures var t := Refilled(s, n); t.mark == s.mark && t.shown == s.shown && t.hist == s.hist
  {}

  lemma {:induction false} NowShown(s: State, n: nat, start: nat)
    requires WholeLines(s) && Synced(s) && s.pending == [] && n >= |s.file| && ShowsNew(s, n)
    requires start <= s.mark && s.shown == CompleteLines(s.hist[start..s.mark])
    ensures var t := Looked(s, n, []);
            t.hist == s.hist && t.mark == |s.hist| && t.shown == CompleteLines(t.hist[start..t.mark])
  {
    hide WholeLines, Looked, Shown, Synced, CompleteLines, Terminated;
    SyncedLook(s, n);
    MarkEnds(s);
    LinesUpTo(s.hist, start, s.mark);
  }

  lemma MarkEnds(s: State)
    requires Synced(s)
    ensures s.mark <= |s.hist| && Terminated(s.hist[..s.mark])
  {}

  /** The lines up to a line end, and those after it. */
  lemma {:induction false} LinesUpTo(h: Bytes, start: nat, mark: nat)
    requires start <= mark <= |h| && Terminated(h[..mark])
    ensures CompleteLines(h[start..|h|]) == CompleteLines(h[start..mark]) + CompleteLines(h[mark..])
  {
    hide CompleteLines, Rest, Terminated;
    SuffixEnds(h[..mark], start);
    SliceOfSlice(h, start, mark);
    LinesAfterLines(h[start..mark], h[mark..]);
  }

  lemma SliceOfSlice(h: Bytes, a: nat, b: nat)
    requires a <= b <= |h|
    ensures h[..b][a..] == h[a..b] && h[a..b] + h[b..] == h[a..|h|]
  {}

  lemma LinesAfterLines(a: Bytes, b: Bytes)
    requires Terminated(a)
    ensures CompleteLines(a + b) == CompleteLines(a) + CompleteLines(b)
  {
    hide CompleteLines, Rest;
    TerminatedRest(a);
    LinesAppend(a, b);
    assert [] + b == b;
  }

  /** A poll that falls into a rotation finds the emptied file and starts over, so
      the poll after it shows all kept lines again before the new ones: exactly
      the new ones if and only if nothing was kept. */
  lemma {:induction false} PollInsideRotation(data: Bytes, kept: Bytes, more: Bytes, m: nat, n: nat)
    requires data != [] && Terminated(kept) && n >= |kept| + |more|
    ensures var place := Moved(Place(|data|, []), [], m);
            && Shown(Place(|data|, []), [], m, []) == []
            && Shown(place, kept + more, n, []) == CompleteLines(kept) + CompleteLines(more)
            && (Shown(place, kept + more, n, []) == CompleteLines(more) <==> kept == [])
  {
    hide CompleteLines, Rest, Matching, Find;
    assert Moved(Place(|data|, []), [], m) == Place(0, []);
    LinesAppend(kept, more);
    TerminatedRest(kept);
    LinesRejoin(kept);
    NoLine([]);
    NoMatch([]);
    AllMatch(CompleteLines(kept + more));
    assert [] + more == more && [] + (kept + more) == kept + more;
    assert Fetched(Place(0, []), kept + more, n) == kept + more;
    NothingBefore(CompleteLines(kept), CompleteLines(more));
  }

  // ----- Two concrete rotations -----

  const FOUR_LINES: Bytes := [97, NL, 98, NL, 99, NL, 100, NL]
  const FOUR_MORE: Bytes := [101, NL, 102, NL, 103, NL, 104, NL]

  /** Of four one-letter lines, a rotation at seven bytes keeps the last. */
  lemma LastLineKept()
    ensures var c := R.Calls(true, 8, true, 8);
            && Terminated(FOUR_LINES) && R.Clean(FOUR_LINES, 7, c) && R.Rotated(FOUR_LINES, 7, c) == [100, NL]
  {
    assert R.LastBytes(FOUR_LINES, 3) == [NL, 100, NL];
    assert R.DropLine([NL, 100, NL]) == [100, NL];
  }

  lemma OneLine(x: byte)
    requires x != NL
    ensures Matching(CompleteLines([x, NL]), []) == [[x]]
  {
    assert [x, NL] == [x] + [NL] + [];
    LineStep([x], []);
    NoLine([]);
    AllMatch([[x]]);
    assert [[x]] + [] == [[x]];
    hide CompleteLines, Matching;
  }

  /** A poll right after it shows the kept line, already shown, once more. */
  lemma KeptLineShownAgain(n: nat)
    requires n >= 8
    ensures Shown(Place(8, []), R.Rotated(FOUR_LINES, 7, R.Calls(true, 8, true, 8)) + [], n, []) == [[100]]
  {
    hide R.Rotated, R.Clean, Shown, CompleteLines, Matching;
    LastLineKept();
    assert FOUR_LINES[6..] == [100, NL];
    FollowAcrossRotation(FOUR_LINES, 6, [], n, []);
    OneLine(100);
    NoLine([]);
    NoMatch([]);
    assert [[100]] + [] == [[100]];
  }

  /** After four more lines it shows only the last of them. */
  lemma NewLinesNeverShown(n: nat)
    requires n >= 16
    ensures Shown(Place(8, []), R.Rotated(FOUR_LINES, 7, R.Calls(true, 8, true, 8)) + FOUR_MORE, n, []) == [[104]]
  {
    hide R.Rotated, R.Clean, Shown, CompleteLines, Matching;
    LastLineKept();
    assert FOUR_LINES[6..] == [100, NL] && FOUR_MORE[6..] == [104, NL];
    FollowAcrossRotation(FOUR_LINES, 6, FOUR_MORE, n, []);
    OneLine(104);
  }
}
