/** The worker pool of src/internal/realityscan/realityscan.go: a producer,
    workers, a closer and a collector over unbuffered channels, with
    cancellation, as a step machine over every interleaving.  `probes[i]` is
    what probing host number `i` would return. */
module ScanPool {

  datatype Candidate = Candidate(domain: string, host: string, tls: string, alpn: string)

  datatype Probe = Hit(c: Candidate) | Miss

  /** A worker waits for an index, has just taken one, probes it, waits to hand
      over a hit, or has returned. */
  datatype Worker = Idle | Took(i: nat) | Probing(i: nat) | Sending(i: nat) | Exited

  /** `dropped` records the indices that a cancelled worker took and threw
      away; nothing reads it. */
  datatype Pool = Pool(next: nat,
                       inClosed: bool,
                       workers: seq<Worker>,
                       cancelled: bool,
                       outClosed: bool,
                       collected: bool,
                       found: seq<nat>,
                       dropped: set<nat>)

  datatype Step =
    | Cancel
    | ProducerStops
    | ProducerCloses
    | Hand(w: nat)
    | Leave(w: nat)
    | Check(w: nat)
    | RunProbe(w: nat)
    | Send(w: nat)
    | CloseOut
    | Collect

  predicate IsHit(probes: seq<Probe>, i: nat) {
    i < |probes| && probes[i].Hit?
  }

  predicate Is(s: Pool, w: nat, k: Worker) {
    w < |s.workers| && s.workers[w] == k
  }

  predicate AllExited(s: Pool) {
    forall w | 0 <= w < |s.workers| :: s.workers[w] == Exited
  }

  /** A non-positive worker count stands for twelve. */
  function Start(count: int): Pool {
    var n := if count <= 0 then 12 else count;
    Pool(0, false, seq(n, _ => Idle), false, false, false, [], {})
  }

  /** Steps that can happen.  A send needs the collector to be receiving; that
      the channel is still open then is proved, not required. */
  predicate Enabled(probes: seq<Probe>, s: Pool, step: Step) {
    match step
    case Cancel => !s.cancelled
    case ProducerStops => !s.inClosed && s.next < |probes| && s.cancelled
    case ProducerCloses => !s.inClosed && s.next >= |probes|
    case Hand(w) => !s.inClosed && s.next < |probes| && Is(s, w, Idle)
    case Leave(w) => s.inClosed && Is(s, w, Idle)
    case Check(w) => w < |s.workers| && s.workers[w].Took?
    case RunProbe(w) => w < |s.workers| && s.workers[w].Probing? && s.workers[w].i < |probes|
    case Send(w) => w < |s.workers| && s.workers[w].Sending? && !s.collected
    case CloseOut => !s.outClosed && AllExited(s)
    case Collect => s.outClosed && !s.collected
  }

  function SetWorker(s: Pool, w: nat, k: Worker): Pool
    requires w < |s.workers|
  {
    s.(workers := s.workers[w := k])
  }

  /** The next state; a step that is not enabled changes nothing. */
  function Apply(probes: seq<Probe>, s: Pool, step: Step): Pool {
    if !Enabled(probes, s, step) then s else
    match step
    case Cancel => s.(cancelled := true)
    case ProducerStops => s.(inClosed := true)
    case ProducerCloses => s.(inClosed := true)
    case Hand(w) => SetWorker(s, w, Took(s.next)).(next := s.next + 1)
    case Leave(w) => SetWorker(s, w, Exited)
    case Check(w) =>
      var i := s.workers[w].i;
      if s.cancelled then SetWorker(s, w, Exited).(dropped := s.dropped + {i})
      else SetWorker(s, w, Probing(i))
    case RunProbe(w) =>
      var i := s.workers[w].i;
      SetWorker(s, w, if probes[i].Hit? then Sending(i) else Idle)
    case Send(w) => SetWorker(s, w, Idle).(found := s.found + [s.workers[w].i])
    case CloseOut => s.(outClosed := true)
    case Collect => s.(collected := true)
  }

  ghost predicate Valid(probes: seq<Probe>, s: Pool, steps: seq<Step>)
    decreases |steps|
  {
    steps == [] || (Enabled(probes, s, steps[0]) && Valid(probes, Apply(probes, s, steps[0]), steps[1..]))
  }

  ghost function Exec(probes: seq<Probe>, s: Pool, steps: seq<Step>): Pool
    decreases |steps|
  {
    if steps == [] then s else Exec(probes, Apply(probes, s, steps[0]), steps[1..])
  }

  // ---- the invariant ----

  /** The worker has an index in hand. */
  predicate Busy(k: Worker) {
    k.Took? || k.Probing? || k.Sending?
  }

  /** Indices in hand were handed out, are in nobody else's hand, and are
      neither delivered nor dropped; only hits are sent. */
  ghost predicate Owned(probes: seq<Probe>, s: Pool) {
    forall w | 0 <= w < |s.workers| && Busy(s.workers[w]) ::
          && s.workers[w].i < s.next
          && s.workers[w].i !in s.found
          && s.workers[w].i !in s.dropped
          && (s.workers[w].Sending? ==> IsHit(probes, s.workers[w].i))
  }

  ghost predicate Apart(ws: seq<Worker>) {
    forall v, w | 0 <= v < w < |ws| && Busy(ws[v]) && Busy(ws[w]) :: ws[v].i != ws[w].i
  }

  ghost predicate Hands(probes: seq<Probe>, s: Pool) {
    Owned(probes, s) && Apart(s.workers)
  }

  ghost predicate Records(probes: seq<Probe>, s: Pool) {
    && (forall k | 0 <= k < |s.found| :: s.found[k] < s.next && IsHit(probes, s.found[k]) && s.found[k] !in s.dropped)
    && (forall j, k | 0 <= j < k < |s.found| :: s.found[j] != s.found[k])
    && (forall i | i in s.dropped :: i < s.next)
    && (s.dropped != {} ==> s.cancelled)
  }

  ghost predicate InHand(s: Pool, i: nat) {
    exists w :: 0 <= w < |s.workers| && Busy(s.workers[w]) && s.workers[w].i == i
  }

  /** Nothing that was handed out gets lost, except to cancellation. */
  ghost predicate Covered(probes: seq<Probe>, s: Pool) {
    forall i: nat | i < s.next && IsHit(probes, i) :: i in s.found || i in s.dropped || InHand(s, i)
  }

  ghost predicate Phases(probes: seq<Probe>, s: Pool) {
    && s.next <= |probes|
    && |s.workers| > 0
    && (s.inClosed && !s.cancelled ==> s.next == |probes|)
    && (forall w | 0 <= w < |s.workers| && s.workers[w] == Exited :: s.inClosed || s.cancelled)
    && (s.outClosed ==> AllExited(s))
    && (s.collected ==> s.outClosed)
  }

  ghost function ExitedSet(ws: seq<Worker>): set<nat> {
    set w | 0 <= w < |ws| && ws[w] == Exited
  }

  ghost predicate Inv(probes: seq<Probe>, s: Pool) {
    && Phases(probes, s) && Hands(probes, s) && Records(probes, s) && Covered(probes, s)
    && |s.dropped| <= |ExitedSet(s.workers)|
  }

  lemma StartInv(probes: seq<Probe>, count: int)
    ensures Inv(probes, Start(count))
  {}

  lemma PhasesKept(probes: seq<Probe>, s: Pool, step: Step)
    requires Inv(probes, s)
    ensures Phases(probes, Apply(probes, s, step))
  {
    hide Records, Covered, Busy, ExitedSet;
    if Enabled(probes, s, step) {
      match step {
        case Leave(w) =>
        case Check(w) =>
        case _ =>
      }
    }
  }

  lemma HandsKept(probes: seq<Probe>, s: Pool, step: Step)
    requires Inv(probes, s)
    ensures Hands(probes, Apply(probes, s, step))
  {
    hide Covered, AllExited, ExitedSet;
    assert Owned(probes, Apply(probes, s, step));
    hide Owned, Records;
    assert Apart(Apply(probes, s, step).workers) by { StaysApart(probes, s, step); }
  }

  lemma StaysApart(probes: seq<Probe>, s: Pool, step: Step)
    requires Owned(probes, s) && Apart(s.workers)
    ensures Apart(Apply(probes, s, step).workers)
  {
    hide AllExited;
    if Enabled(probes, s, step) {
      match step {
        case Hand(w) => SetApart(s.workers, w, Took(s.next));
        case Check(w) => SetApart(s.workers, w, if s.cancelled then Exited else Probing(s.workers[w].i));
        case RunProbe(w) =>
          SetApart(s.workers, w, if probes[s.workers[w].i].Hit? then Sending(s.workers[w].i) else Idle);
        case Send(w) => SetApart(s.workers, w, Idle);
        case Leave(w) => SetApart(s.workers, w, Exited);
        case _ =>
      }
      hide Apart, Owned;
    }
  }

  /** One worker may take an index that nobody has in hand. */
  lemma SetApart(ws: seq<Worker>, w: nat, k: Worker)
    requires Apart(ws) && w < |ws|
    requires Busy(k) ==> forall v | 0 <= v < |ws| && v != w && Busy(ws[v]) :: ws[v].i != k.i
    ensures Apart(ws[w := k])
  {}

  lemma RecordsKept(probes: seq<Probe>, s: Pool, step: Step)
    requires Inv(probes, s)
    ensures Records(probes, Apply(probes, s, step))
  {
    hide Covered, AllExited, ExitedSet;
  }

  lemma CoveredKept(probes: seq<Probe>, s: Pool, step: Step)
    requires Inv(probes, s)
    ensures Covered(probes, Apply(probes, s, step))
  {
    hide AllExited, ExitedSet, Records;
    var s' := Apply(probes, s, step);
    forall i: nat | i < s'.next && IsHit(probes, i)
      ensures i in s'.found || i in s'.dropped || InHand(s', i)
    {
      if i < s.next && InHand(s, i) {
        var w :| 0 <= w < |s.workers| && Busy(s.workers[w]) && s.workers[w].i == i;
        assert (Busy(s'.workers[w]) && s'.workers[w].i == i) || i in s'.found || i in s'.dropped;
      } else if i == s.next && step.Hand? {
        assert Busy(s'.workers[step.w]) && s'.workers[step.w].i == i;
      }
    }
  }

  lemma DroppedKept(probes: seq<Probe>, s: Pool, step: Step)
    requires Inv(probes, s)
    ensures var s' := Apply(probes, s, step); |s'.dropped| <= |ExitedSet(s'.workers)|
  {
    hide Covered, Records, Hands, AllExited, ExitedSet;
    if Enabled(probes, s, step) {
      match step {
        case Hand(w) => SetExited(s.workers, w, Took(s.next));
        case Leave(w) => SetExited(s.workers, w, Exited);
        case Check(w) => SetExited(s.workers, w, if s.cancelled then Exited else Probing(s.workers[w].i));
        case RunProbe(w) =>
          SetExited(s.workers, w, if probes[s.workers[w].i].Hit? then Sending(s.workers[w].i) else Idle);
        case Send(w) => SetExited(s.workers, w, Idle);
        case _ =>
      }
    }
  }

  lemma SetExited(ws: seq<Worker>, w: nat, k: Worker)
    requires w < |ws| && ws[w] != Exited
    ensures |ExitedSet(ws[w := k])| == |ExitedSet(ws)| + if k == Exited then 1 else 0
  {
    assert ExitedSet(ws[w := k]) == if k == Exited then ExitedSet(ws) + {w} else ExitedSet(ws);
  }

  lemma StepInv(probes: seq<Probe>, s: Pool, step: Step)
    requires Inv(probes, s)
    ensures Inv(probes, Apply(probes, s, step))
  {
    PhasesKept(probes, s, step);
    HandsKept(probes, s, step);
    RecordsKept(probes, s, step);
    CoveredKept(probes, s, step);
    DroppedKept(probes, s, step);
    hide Phases, Hands, Records, Covered, Apply, ExitedSet;
  }

  /** The invariant holds after every run. */
  lemma {:induction false} RunInv(probes: seq<Probe>, s: Pool, steps: seq<Step>)
    requires Inv(probes, s) && Valid(probes, s, steps)
    ensures Inv(probes, Exec(probes, s, steps))
    decreases |steps|
  {
    hide Inv, Apply;
    if steps != [] {
      StepInv(probes, s, steps[0]);
      RunInv(probes, Apply(probes, s, steps[0]), steps[1..]);
    }
  }

  /** Nobody sends on a closed channel: after `out` is closed every worker has
      returned, with or without cancellation. */
  lemma NoSendAfterClose(probes: seq<Probe>, count: int, steps: seq<Step>, w: nat)
    requires Valid(probes, Start(count), steps)
    ensures var s := Exec(probes, Start(count), steps);
            && (s.outClosed ==> AllExited(s))
            && (Enabled(probes, s, Send(w)) ==> !s.outClosed)
  {
    StartInv(probes, count);
    RunInv(probes, Start(count), steps);
    hide Exec, Start, Valid, Hands, Records, Covered, ExitedSet;
  }

  // ---- progress and termination ----

  /** No deadlock: until Scan has returned and the producer is gone too, a step
      other than an outside cancellation can happen. */
  lemma Progress(probes: seq<Probe>, s: Pool) returns (step: Step)
    requires Inv(probes, s) && !(s.collected && s.inClosed)
    ensures step != Cancel && Enabled(probes, s, step)
  {
    hide Records, Covered, ExitedSet;
    if w :| 0 <= w < |s.workers| && s.workers[w].Took? {
      step := Check(w);
    } else if w :| 0 <= w < |s.workers| && s.workers[w].Probing? {
      step := RunProbe(w);
    } else if w :| 0 <= w < |s.workers| && s.workers[w].Sending? {
      step := Send(w);
    } else if !s.inClosed {
      step := if s.next >= |probes| then ProducerCloses else if s.cancelled then ProducerStops else Hand(0);
      assert step.Hand? ==> s.workers[0] == Idle;
    } else if w :| 0 <= w < |s.workers| && s.workers[w].Idle? {
      step := Leave(w);
    } else {
      step := if s.outClosed then Collect else CloseOut;
    }
  }

  function Weight(k: Worker): nat {
    match k
    case Idle => 1
    case Took(_) => 4
    case Probing(_) => 3
    case Sending(_) => 2
    case Exited => 0
  }

  function Weights(ws: seq<Worker>): nat {
    if ws == [] then 0 else Weight(ws[0]) + Weights(ws[1..])
  }

  lemma {:induction false} WeightSet(ws: seq<Worker>, w: nat, k: Worker)
    requires w < |ws|
    ensures Weights(ws[w := k]) + Weight(ws[w]) == Weights(ws) + Weight(k)
  {
    if w > 0 {
      WeightSet(ws[1..], w - 1, k);
      assert ws[w := k][1..] == ws[1..][w - 1 := k];
    } else {
      assert ws[w := k][1..] == ws[1..];
    }
  }

  lemma {:induction false} WeightIdle(n: nat)
    ensures Weights(seq(n, _ => Idle)) == n
  {
    if n > 0 {
      WeightIdle(n - 1);
      assert seq(n, _ => Idle)[1..] == seq(n - 1, _ => Idle);
    }
  }

  function Flag(b: bool): nat {
    if b then 0 else 1
  }

  ghost function Left(probes: seq<Probe>, s: Pool): int {
    5 * (|probes| - s.next) + Weights(s.workers)
    + Flag(s.cancelled) + Flag(s.inClosed) + Flag(s.outClosed) + Flag(s.collected)
  }

  lemma StepShrinks(probes: seq<Probe>, s: Pool, step: Step)
    requires Inv(probes, s) && Enabled(probes, s, step)
    ensures Left(probes, Apply(probes, s, step)) < Left(probes, s)
  {
    hide Inv, AllExited, Weights;
    match step {
      case Hand(w) => WeightSet(s.workers, w, Took(s.next));
      case Leave(w) => WeightSet(s.workers, w, Exited);
      case Check(w) => WeightSet(s.workers, w, if s.cancelled then Exited else Probing(s.workers[w].i));
      case RunProbe(w) =>
        WeightSet(s.workers, w, if probes[s.workers[w].i].Hit? then Sending(s.workers[w].i) else Idle);
      case Send(w) => WeightSet(s.workers, w, Idle);
      case _ =>
    }
  }

  lemma {:induction false} RunShrinks(probes: seq<Probe>, s: Pool, steps: seq<Step>)
    requires Inv(probes, s) && Valid(probes, s, steps)
    ensures Left(probes, Exec(probes, s, steps)) + |steps| <= Left(probes, s)
    decreases |steps|
  {
    hide Inv, Apply, Enabled, Left;
    if steps != [] {
      StepInv(probes, s, steps[0]);
      StepShrinks(probes, s, steps[0]);
      RunShrinks(probes, Apply(probes, s, steps[0]), steps[1..]);
    }
  }

  /** Scan terminates under every schedule: no run is longer than five steps a
      host plus one a worker plus four, and a run stops only when Scan has
      returned and no goroutine is left. */
  lemma Terminates(probes: seq<Probe>, count: int, steps: seq<Step>)
    requires Valid(probes, Start(count), steps)
    ensures |steps| <= 5 * |probes| + (if count <= 0 then 12 else count) + 4
    ensures var s := Exec(probes, Start(count), steps);
            (forall step | step != Cancel :: !Enabled(probes, s, step)) ==>
              s.collected && s.inClosed && forall w | 0 <= w < |s.workers| :: s.workers[w] == Exited
  {
    StartInv(probes, count);
    RunInv(probes, Start(count), steps);
    RunShrinks(probes, Start(count), steps);
    WeightIdle(|Start(count).workers|);
    assert Start(count).workers == seq(|Start(count).workers|, _ => Idle);
    var s := Exec(probes, Start(count), steps);
    LeftBounded(probes, s);
    if !(s.collected && s.inClosed) {
      var step := Progress(probes, s);
    }
    hide Exec, Valid, Hands, Records, Covered, ExitedSet, Enabled, Weights;
  }

  lemma LeftBounded(probes: seq<Probe>, s: Pool)
    requires Inv(probes, s)
    ensures Left(probes, s) >= 0
  {
    hide Hands, Records, Covered, ExitedSet, Weights;
  }

  // ---- the result ----

  /** `order` is what sort.Slice may leave of `found`: the same entries, by
      rising index. */
  ghost predicate SortedBy(found: seq<nat>, order: seq<nat>) {
    && multiset(order) == multiset(found)
    && (forall j, k | 0 <= j < k < |order| :: order[j] <= order[k])
  }

  /** The candidates at the given indices. */
  function Picked(probes: seq<Probe>, order: seq<nat>): (cands: seq<Candidate>)
    requires forall k | 0 <= k < |order| :: IsHit(probes, order[k])
    ensures |cands| == |order|
    ensures forall k | 0 <= k < |order| :: IsHit(probes, order[k]) && probes[order[k]] == Hit(cands[k])
  {
    seq(|order|, k requires 0 <= k < |order| && IsHit(probes, order[k]) => probes[order[k]].c)
  }

  ghost function Members(found: seq<nat>): set<nat> {
    set i | i in found
  }

  /** What a sequential scan would return. */
  function Qualifying(probes: seq<Probe>): seq<Candidate> {
    if probes == [] then []
    else
      var last := probes[|probes| - 1];
      Qualifying(probes[..|probes| - 1]) + if last.Hit? then [last.c] else []
  }

  /** The indices below `k` that are hits and kept, in input order. */
  ghost function Hits(probes: seq<Probe>, keep: set<nat>, k: nat): seq<nat>
    requires k <= |probes|
  {
    if k == 0 then []
    else Hits(probes, keep, k - 1) + (if IsHit(probes, k - 1) && k - 1 in keep then [k - 1] else [])
  }

  ghost predicate Rising(h: seq<nat>) {
    forall a, b | 0 <= a < b < |h| :: h[a] < h[b]
  }

  lemma {:induction false} HitsMeaning(probes: seq<Probe>, keep: set<nat>, k: nat)
    requires k <= |probes|
    ensures forall i: nat :: i in Hits(probes, keep, k) <==> i < k && IsHit(probes, i) && i in keep
    ensures Rising(Hits(probes, keep, k))
  {
    if k > 0 {
      HitsMeaning(probes, keep, k - 1);
      var h, g := Hits(probes, keep, k), Hits(probes, keep, k - 1);
      forall a, b | 0 <= a < b < |h| ensures h[a] < h[b] {
        assert h == g || h == g + [k - 1];
        if b < |g| {
          assert g[a] < g[b] && h[a] == g[a] && h[b] == g[b];
        } else {
          assert g[a] in g && h[a] == g[a] && h[b] == k - 1;
        }
      }
    }
  }

  /** A strictly rising sequence is determined by its members. */
  lemma {:induction false} RisingUnique(a: seq<nat>, b: seq<nat>)
    requires Rising(a) && Rising(b)
    requires forall i: nat :: i in a <==> i in b
    ensures a == b
    decreases |a|
  {
    assert a != [] ==> a[0] in a && a[0] in b;
    assert b != [] ==> b[0] in b && b[0] in a;
    if a != [] && b != [] {
      FrontMembers(a);
      FrontMembers(b);
      var p, q := a[..|a| - 1], b[..|b| - 1];
      assert a[|a| - 1] in b && b[|b| - 1] in a;
      forall i: nat ensures i in p <==> i in q {
        assert i in p <==> i in a && i != a[|a| - 1];
        assert i in q <==> i in b && i != b[|b| - 1];
      }
      RisingUnique(p, q);
      assert a == p + [a[|a| - 1]] && b == q + [b[|b| - 1]];
    }
  }

  lemma FrontMembers(a: seq<nat>)
    requires Rising(a) && a != []
    ensures Rising(a[..|a| - 1])
    ensures forall i: nat :: i in a[..|a| - 1] <==> i in a && i != a[|a| - 1]
    ensures a[|a| - 1] in a && forall i: nat | i in a :: i <= a[|a| - 1]
  {
    assert a == a[..|a| - 1] + [a[|a| - 1]];
  }

  lemma SortedRises(found: seq<nat>, order: seq<nat>)
    requires SortedBy(found, order)
    requires forall j, k | 0 <= j < k < |found| :: found[j] != found[k]
    ensures Rising(order)
    ensures forall i: nat :: i in order <==> i in found
  {
    forall i: nat ensures i in order <==> i in found {
      assert i in order <==> i in multiset(order);
      assert i in found <==> i in multiset(found);
    }
    forall j, k | 0 <= j < k < |order| ensures order[j] != order[k] {
      OnceEach(found, order[k]);
      TwiceCounted(order, j, k);
    }
  }

  lemma TwiceCounted(order: seq<nat>, j: nat, k: nat)
    requires j < k < |order|
    ensures order[j] == order[k] ==> multiset(order)[order[k]] >= 2
  {
    assert order == order[..j] + [order[j]] + order[j + 1..k] + [order[k]] + order[k + 1..];
  }

  lemma {:induction false} OnceEach(found: seq<nat>, x: nat)
    requires forall j, k | 0 <= j < k < |found| :: found[j] != found[k]
    ensures multiset(found)[x] <= 1
  {
    if found != [] {
      var front, last := found[..|found| - 1], found[|found| - 1];
      OnceEach(front, x);
      assert found == front + [last];
      assert last !in front;
      assert last !in multiset(front);
    }
  }

  /** Whenever Scan returns, under any schedule, its result is the hits among
      the delivered indices, in input order. */
  lemma ResultIsHits(probes: seq<Probe>, s: Pool, order: seq<nat>)
    requires Inv(probes, s) && SortedBy(s.found, order)
    ensures order == Hits(probes, Members(s.found), |probes|)
  {
    hide Hands, Covered, ExitedSet;
    var keep := Members(s.found);
    SortedRises(s.found, order);
    HitsMeaning(probes, keep, |probes|);
    forall i: nat ensures i in order <==> i in Hits(probes, keep, |probes|) {
      assert i in s.found ==> IsHit(probes, i);
    }
    RisingUnique(order, Hits(probes, keep, |probes|));
  }

  /** All hits below `k`, in input order. */
  ghost function AllHits(probes: seq<Probe>, k: nat): seq<nat>
    requires k <= |probes|
  {
    if k == 0 then []
    else AllHits(probes, k - 1) + (if IsHit(probes, k - 1) then [k - 1] else [])
  }

  /** Exactness: without cancellation, and under every schedule and worker
      count, Scan returns the qualifying hosts' candidates, each once, in input
      order. */
  lemma ScanExact(probes: seq<Probe>, count: int, steps: seq<Step>, order: seq<nat>)
    requires Valid(probes, Start(count), steps)
    requires var s := Exec(probes, Start(count), steps);
             s.collected && !s.cancelled && SortedBy(s.found, order)
    ensures forall a, b | 0 <= a < b < |order| :: order[a] < order[b]
    ensures forall i: nat :: i in order <==> i < |probes| && probes[i].Hit?
    ensures forall k | 0 <= k < |order| :: IsHit(probes, order[k])
    ensures Picked(probes, order) == Qualifying(probes)
  {
    StartInv(probes, count);
    RunInv(probes, Start(count), steps);
    hide Exec, Start, Valid;
    var s := Exec(probes, Start(count), steps);
    ResultIsHits(probes, s, order);
    AllFound(probes, s);
    SameHits(probes, Members(s.found), |probes|);
    HitsMeaning(probes, Members(s.found), |probes|);
    AllHitsQualify(probes, |probes|);
    assert probes[..|probes|] == probes;
  }

  lemma {:induction false} AllHitsQualify(probes: seq<Probe>, k: nat)
    requires k <= |probes|
    ensures var h := AllHits(probes, k);
            && (forall j | 0 <= j < |h| :: IsHit(probes, h[j]))
            && Picked(probes, h) == Qualifying(probes[..k])
  {
    if k > 0 {
      AllHitsQualify(probes, k - 1);
      assert probes[..k][..k - 1] == probes[..k - 1];
      var g, h := AllHits(probes, k - 1), AllHits(probes, k);
      if IsHit(probes, k - 1) {
        assert h == g + [k - 1];
        assert Picked(probes, h) == Picked(probes, g) + [probes[k - 1].c];
      }
    }
  }

  /** Once everything is handed out and nobody holds anything, only
      cancellation can have kept a hit from being found. */
  lemma AllFound(probes: seq<Probe>, s: Pool)
    requires Inv(probes, s) && s.collected
    ensures !s.cancelled ==> s.next == |probes|
    ensures forall i: nat | i < s.next && IsHit(probes, i) :: i in s.found || i in s.dropped
    ensures !s.cancelled ==> s.dropped == {}
  {
    hide Hands, ExitedSet;
    assert s.workers[0] == Exited;
  }

  lemma {:induction false} SameHits(probes: seq<Probe>, keep: set<nat>, k: nat)
    requires k <= |probes|
    requires forall i: nat | i < k && IsHit(probes, i) :: i in keep
    ensures Hits(probes, keep, k) == AllHits(probes, k)
  {
    if k > 0 {
      SameHits(probes, keep, k - 1);
    }
  }

  /** `a` is `b` with some entries left out. */
  ghost predicate Subsequence(a: seq<nat>, b: seq<nat>) {
    if a == [] then true
    else if b == [] then false
    else if a[|a| - 1] == b[|b| - 1] && Subsequence(a[..|a| - 1], b[..|b| - 1]) then true
    else Subsequence(a, b[..|b| - 1])
  }

  lemma {:induction false} FewerHits(probes: seq<Probe>, keep: set<nat>, k: nat)
    requires k <= |probes|
    ensures Subsequence(Hits(probes, keep, k), AllHits(probes, k))
  {
    if k > 0 {
      FewerHits(probes, keep, k - 1);
      var a, b := Hits(probes, keep, k), AllHits(probes, k);
      var a', b' := Hits(probes, keep, k - 1), AllHits(probes, k - 1);
      if IsHit(probes, k - 1) {
        assert b == b' + [k - 1] && b[..|b| - 1] == b';
        if k - 1 in keep {
          assert a == a' + [k - 1] && a[..|a| - 1] == a';
        } else {
          assert a == a';
        }
      } else {
        assert a == a' && b == b';
      }
    }
  }

  /** With cancellation at any moment the result is the full list with some
      candidates left out; of the hosts that were handed out, at most one a
      worker is missing. */
  lemma ScanCancelled(probes: seq<Probe>, count: int, steps: seq<Step>, order: seq<nat>)
    requires Valid(probes, Start(count), steps)
    requires var s := Exec(probes, Start(count), steps);
             s.collected && SortedBy(s.found, order)
    ensures forall a, b | 0 <= a < b < |order| :: order[a] < order[b]
    ensures forall i: nat | i in order :: i < |probes| && probes[i].Hit?
    ensures Subsequence(order, AllHits(probes, |probes|))
    ensures var s := Exec(probes, Start(count), steps);
            && |s.dropped| <= |s.workers|
            && forall i: nat | i < s.next && IsHit(probes, i) && i !in s.dropped :: i in order
  {
    StartInv(probes, count);
    RunInv(probes, Start(count), steps);
    hide Exec, Start, Valid;
    var s := Exec(probes, Start(count), steps);
    ResultIsHits(probes, s, order);
    FewerHits(probes, Members(s.found), |probes|);
    AllFound(probes, s);
    HitsMeaning(probes, Members(s.found), |probes|);
    ExitedAtMost(s);
  }

  lemma ExitedAtMost(s: Pool)
    ensures |ExitedSet(s.workers)| <= |s.workers|
  {
    CountBelow(ExitedSet(s.workers), |s.workers|);
  }

  lemma {:induction false} CountBelow(xs: set<nat>, n: nat)
    requires forall x | x in xs :: x < n
    ensures |xs| <= n
  {
    if n == 0 {
      assert xs == {};
    } else {
      CountBelow(xs - {n - 1}, n - 1);
    }
  }

  // ---- how many probe at once ----

  lemma {:induction false} WorkersStay(probes: seq<Probe>, s: Pool, steps: seq<Step>)
    ensures |Exec(probes, s, steps).workers| == |s.workers|
    decreases |steps|
  {
    if steps != [] {
      assert |Apply(probes, s, steps[0]).workers| == |s.workers|;
      hide Apply;
      WorkersStay(probes, Apply(probes, s, steps[0]), steps[1..]);
    }
  }

  /** Hand the next indices out, one to a worker. */
  lemma {:induction false} PutToWork(probes: seq<Probe>, s: Pool, upto: nat) returns (steps: seq<Step>)
    requires !s.cancelled && !s.inClosed && s.next <= upto <= |s.workers| && upto <= |probes|
    requires forall w | 0 <= w < |s.workers| :: s.workers[w] == if w < s.next then Probing(w) else Idle
    ensures Valid(probes, s, steps)
    ensures forall w: nat | w < upto :: Is(Exec(probes, s, steps), w, Probing(w))
    decreases upto - s.next
  {
    if s.next == upto {
      steps := [];
    } else {
      var i := s.next;
      var a := Apply(probes, s, Hand(i));
      var b := Apply(probes, a, Check(i));
      assert Enabled(probes, s, Hand(i)) && Enabled(probes, a, Check(i));
      assert b.next == i + 1 && b.workers == s.workers[i := Probing(i)];
      hide Apply, Enabled;
      var rest := PutToWork(probes, b, upto);
      steps := [Hand(i)] + ([Check(i)] + rest);
      Prepend(probes, a, Check(i), rest);
      Prepend(probes, s, Hand(i), [Check(i)] + rest);
    }
  }

  lemma Prepend(probes: seq<Probe>, s: Pool, step: Step, rest: seq<Step>)
    requires Enabled(probes, s, step) && Valid(probes, Apply(probes, s, step), rest)
    ensures Valid(probes, s, [step] + rest)
    ensures Exec(probes, s, [step] + rest) == Exec(probes, Apply(probes, s, step), rest)
  {
    assert ([step] + rest)[1..] == rest;
    hide Apply, Enabled;
  }

  /** As many hosts as asked for can be probed at once, if there are that many, and
      never more. */
  lemma {:induction false} AllAtWork(probes: seq<Probe>, count: int, any: seq<Step>) returns (steps: seq<Step>)
    ensures var n := if count <= 0 then 12 else count;
            && |Exec(probes, Start(count), any).workers| == n
            && Valid(probes, Start(count), steps)
            && forall w: nat | w < n && w < |probes| :: Is(Exec(probes, Start(count), steps), w, Probing(w))
  {
    var s := Start(count);
    WorkersStay(probes, s, any);
    hide Exec, Valid, Is;
    steps := PutToWork(probes, s, if |s.workers| < |probes| then |s.workers| else |probes|);
  }

  // ---- what cancellation stops ----

  /** After a cancellation no probe starts: who probes then was probing already. */
  lemma {:induction false} NoProbeAfterCancel(probes: seq<Probe>, s: Pool, steps: seq<Step>, w: nat, i: nat)
    requires s.cancelled && Valid(probes, s, steps)
    ensures Is(Exec(probes, s, steps), w, Probing(i)) ==> Is(s, w, Probing(i))
    decreases |steps|
  {
    if steps != [] {
      NoProbeStarts(probes, s, steps[0], w, i);
      hide Apply, Enabled;
      NoProbeAfterCancel(probes, Apply(probes, s, steps[0]), steps[1..], w, i);
    }
  }

  lemma NoProbeStarts(probes: seq<Probe>, s: Pool, step: Step, w: nat, i: nat)
    requires s.cancelled
    ensures Apply(probes, s, step).cancelled
    ensures Is(Apply(probes, s, step), w, Probing(i)) ==> Is(s, w, Probing(i))
  {
    hide AllExited;
  }

  /** A worker that may take another index. */
  function MayTake(k: Worker): nat {
    if k.Took? || k.Exited? then 0 else 1
  }

  function Takers(ws: seq<Worker>): (n: nat)
    ensures n <= |ws|
  {
    if ws == [] then 0 else MayTake(ws[0]) + Takers(ws[1..])
  }

  lemma {:induction false} TakersSet(ws: seq<Worker>, w: nat, k: Worker)
    requires w < |ws|
    ensures Takers(ws[w := k]) + MayTake(ws[w]) == Takers(ws) + MayTake(k)
  {
    if w > 0 {
      TakersSet(ws[1..], w - 1, k);
      assert ws[w := k][1..] == ws[1..][w - 1 := k];
    } else {
      assert ws[w := k][1..] == ws[1..];
    }
  }

  lemma CancelledStep(probes: seq<Probe>, s: Pool, step: Step)
    requires s.cancelled
    ensures var s' := Apply(probes, s, step);
            s'.next + Takers(s'.workers) <= s.next + Takers(s.workers) && |s'.workers| == |s.workers|
  {
    hide AllExited, Takers;
    if Enabled(probes, s, step) {
      match step {
        case Hand(w) => TakersSet(s.workers, w, Took(s.next));
        case Leave(w) => TakersSet(s.workers, w, Exited);
        case Check(w) => TakersSet(s.workers, w, Exited);
        case RunProbe(w) =>
          TakersSet(s.workers, w, if probes[s.workers[w].i].Hit? then Sending(s.workers[w].i) else Idle);
        case Send(w) => TakersSet(s.workers, w, Idle);
        case _ =>
      }
    }
  }

  /** After a cancellation at most one more index is handed to each worker. */
  lemma {:induction false} FewHandedAfterCancel(probes: seq<Probe>, s: Pool, steps: seq<Step>)
    requires s.cancelled && Valid(probes, s, steps)
    ensures var e := Exec(probes, s, steps);
            e.next + Takers(e.workers) <= s.next + Takers(s.workers) <= s.next + |s.workers|
    decreases |steps|
  {
    if steps != [] {
      CancelledStep(probes, s, steps[0]);
      NoProbeStarts(probes, s, steps[0], 0, 0);
      hide Apply, Enabled, Takers;
      FewHandedAfterCancel(probes, Apply(probes, s, steps[0]), steps[1..]);
    }
  }
}
