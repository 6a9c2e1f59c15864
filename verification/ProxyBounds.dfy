/** How many bytes one address can move through the throttle proxy, in either
    direction, over any run: the bound, and exactly when it holds. */
module ProxyBounds {
  import opened TokenBucket
  import opened LimitedCopy
  import M = LimiterMap
  import opened Sums
  import opened ProxyRun

  /** How often the entry of `ip` is made anew: the first one, of an address that
      begins without, does not count. */
  ghost function Recreations(rate: real, s: System, steps: seq<Step>, ip: string): nat {
    var n := Creations(rate, s, steps, ip);
    if ip in s.perIP || n == 0 then n else n - 1
  }

  /** The advertised cap for a run with k re-creations that lasts dt:
      (k + 1) bursts plus rate * dt. */
  ghost function Cap(rate: real, s: System, steps: seq<Step>, ip: string): real {
    Worth(Recreations(rate, s, steps, ip) + 1, BurstFor(rate)) + Earned(rate, Exec(rate, s, steps).now - s.now)
  }

  /** Tokens in the bucket of an address; none without an entry. */
  ghost function Stock(rate: real, s: System, ip: string, d: Direction): real {
    if ip in s.perIP then Avail(rate, s, ip, d) else 0.0
  }

  lemma AvailIsStock(rate: real, s: System, ip: string, d: Direction)
    requires rate > 0.0
    ensures Avail(rate, s, ip, d) == Stock(rate, s, ip, d) + (if ip in s.perIP then 0.0 else BurstFor(rate))
  {}

  /** What the counts are worth. */
  lemma WorthOfCounts(rate: real, s: System, steps: seq<Step>, ip: string)
    requires rate > 0.0 && Inv(rate, s)
    ensures var b, e := BurstFor(rate), Exec(rate, s, steps);
            Worth(Evictions(rate, s, steps, ip), b) + (if ip in s.perIP then 0.0 else b)
            == Worth(Creations(rate, s, steps, ip), b) + (if ip in e.perIP then 0.0 else b)
    ensures Worth(Recreations(rate, s, steps, ip) + 1, BurstFor(rate))
            == (if ip !in s.perIP && Creations(rate, s, steps, ip) > 0 then 0.0 else BurstFor(rate))
               + Worth(Creations(rate, s, steps, ip), BurstFor(rate))
  {
    hide Worth, Inv, Exec, Creations, Evictions, BurstFor;
    RunCounts(rate, s, steps, ip);
    var b, n, m := BurstFor(rate), Creations(rate, s, steps, ip), Evictions(rate, s, steps, ip);
    OneMore(n, b);
    OneMore(m, b);
  }

  lemma OneMore(n: nat, b: real)
    ensures Worth(n + 1, b) == Worth(n, b) + b
  {
    WorthAdds(n, 1, b);
    hide Worth;
  }

  /** Any window of any run: bytes written, still to be written, and tokens left
      come from the tokens and bytes that were there, from time, and from new
      entries at one burst each.  So what is written is within the cap plus what
      had been paid for, but not written, when the window opened. */
  lemma WindowWrites(rate: real, s: System, steps: seq<Step>, ip: string, d: Direction)
    requires rate > 0.0 && Inv(rate, s) && Valid(rate, s, steps)
    ensures var e := Exec(rate, s, steps);
            var out := Written(rate, s, steps, ip, d) as real + Pending(e, ip, d) as real + Stock(rate, e, ip, d);
            && out <= Stock(rate, s, ip, d) + Pending(s, ip, d) as real
                      + Worth(Creations(rate, s, steps, ip), BurstFor(rate)) + Earned(rate, e.now - s.now)
            && out <= Cap(rate, s, steps, ip) - BurstFor(rate) + Avail(rate, s, ip, d) + Pending(s, ip, d) as real
    ensures GrantTotal(rate, s, steps, ip, d) as real <= Cap(rate, s, steps, ip)
    ensures Stock(rate, Exec(rate, s, steps), ip, d) >= 0.0
  {
    hide Earned, BurstFor, Avail, Worth, Inv, Exec, Evictions, Creations, Recreations, GrantTotal, Written, Lost;
    hide Pending, Stock;
    var e := Exec(rate, s, steps);
    RunInv(rate, s, steps);
    GrantBound(rate, s, steps, ip, d);
    RunConserves(rate, s, steps, ip, d);
    AvailBounds(rate, s, ip, d);
    AvailBounds(rate, e, ip, d);
    AvailIsStock(rate, s, ip, d);
    AvailIsStock(rate, e, ip, d);
    WorthOfCounts(rate, s, steps, ip);
    StockBounds(rate, s, ip, d);
    StockBounds(rate, e, ip, d);
  }

  lemma StockBounds(rate: real, s: System, ip: string, d: Direction)
    requires rate > 0.0 && Inv(rate, s)
    ensures 0.0 <= Stock(rate, s, ip, d) <= BurstFor(rate)
  {
    AvailBounds(rate, s, ip, d);
    hide Avail, Inv;
  }

  /** From the moment the proxy starts, under every interleaving, an address
      writes, and has left, at most one burst for each entry made for it plus
      what the time earned: within the cap. */
  lemma WholeRunWrites(rate: real, now: real, steps: seq<Step>, ip: string, d: Direction)
    requires rate > 0.0 && Valid(rate, Start(now), steps)
    ensures var e := Exec(rate, Start(now), steps);
            Written(rate, Start(now), steps, ip, d) as real + Pending(e, ip, d) as real + Stock(rate, e, ip, d)
            <= Worth(Creations(rate, Start(now), steps, ip), BurstFor(rate)) + Earned(rate, e.now - now)
    ensures Written(rate, Start(now), steps, ip, d) as real <= Cap(rate, Start(now), steps, ip)
  {
    StartInv(rate, now);
    assert PendingOf(Start(now), ip, d) == map[];
    assert Avail(rate, Start(now), ip, d) == BurstFor(rate) && Stock(rate, Start(now), ip, d) == 0.0;
    hide Cap, BurstFor, Written, Exec, Inv, Avail, Creations, Earned, Worth, Stock, Valid;
    WindowWrites(rate, Start(now), steps, ip, d);
  }

  /** An open copy loop of `ip` that could go on. */
  ghost predicate Going(s: System, c: nat, ip: string, d: Direction) {
    c in s.conns && s.conns[c].ip == ip && !FlowOf(s, c, d).done
  }

  /** Some copy loop of `ip` still has bytes to write. */
  lemma SomePending(s: System, ip: string, d: Direction) returns (c: nat)
    requires Pending(s, ip, d) > 0
    ensures c in s.conns && s.conns[c].ip == ip && FlowOf(s, c, d).pending > 0
  {
    Zero(PendingOf(s, ip, d));
    c :| c in PendingOf(s, ip, d) && PendingOf(s, ip, d)[c] != 0;
  }

  lemma NonePending(s: System, c: nat, ip: string, d: Direction)
    requires Pending(s, ip, d) == 0 && Going(s, c, ip, d)
    ensures FlowOf(s, c, d) == Flow(0, false)
  {
    Zero(PendingOf(s, ip, d));
    assert c in PendingOf(s, ip, d);
  }

  /** A run from `s` that evicts nothing and writes all that is pending, all
      the tokens at hand, and all that the time of the run earns. */
  ghost predicate Drains(rate: real, s: System, steps: seq<Step>, ip: string, d: Direction) {
    && Valid(rate, s, steps)
    && Evictions(rate, s, steps, ip) == 0
    && Written(rate, s, steps, ip, d) as real
       == Pending(s, ip, d) as real + Avail(rate, s, ip, d) + Earned(rate, Exec(rate, s, steps).now - s.now)
  }

  /** The step evicts nothing and wastes nothing. */
  ghost predicate Thrifty(rate: real, s: System, step: Step, ip: string, d: Direction) {
    && Enabled(s, step) && EvictedBy(s, step, ip) == 0
    && WrittenBy(s, step, ip, d) as real
       + Pending(Apply(rate, s, step), ip, d) as real + Avail(rate, Apply(rate, s, step), ip, d)
       == Pending(s, ip, d) as real + Avail(rate, s, ip, d) + Earned(rate, Apply(rate, s, step).now - s.now)
  }

  /** Prepending one step to a draining run. */
  lemma {:induction false} DrainStep(rate: real, s: System, step: Step, rest: seq<Step>, ip: string, d: Direction)
    requires Thrifty(rate, s, step, ip, d)
    requires Drains(rate, Apply(rate, s, step), rest, ip, d)
    ensures Drains(rate, s, [step] + rest, ip, d)
  {
    hide Earned, Avail, Pending, Apply, Enabled, EvictedBy, WrittenBy;
    var steps := [step] + rest;
    assert steps[1..] == rest;
    var m := Apply(rate, s, step);
    assert Valid(rate, s, steps);
    EarnedAdds(rate, s.now, m.now, Exec(rate, m, rest).now);
  }

  lemma Drained(rate: real, s: System, ip: string, d: Direction)
    requires Pending(s, ip, d) == 0 && Avail(rate, s, ip, d) == 0.0
    ensures Drains(rate, s, [], ip, d)
  {
    assert Earned(rate, s.now - s.now) == 0.0;
    hide Earned, Pending, Avail;
  }

  ghost predicate Whole(x: real) {
    x == x.Floor as real
  }

  lemma LessWhole(a: real, n: nat)
    ensures (a - n as real).Floor == a.Floor - n
    ensures Whole(a - n as real) <==> Whole(a)
  {}

  lemma Quotient(rate: real, gap: real)
    requires rate > 0.0 && gap >= 0.0
    ensures gap / rate >= 0.0 && Earned(rate, gap / rate) == gap
  {}

  /** Waiting until the next whole token. */
  lemma {:induction false} WaitForWhole(rate: real, s: System, ip: string, d: Direction) returns (dt: real)
    requires rate > 0.0 && Inv(rate, s) && 0.0 < Avail(rate, s, ip, d) < 1.0
    ensures Thrifty(rate, s, Pass(dt), ip, d)
    ensures Avail(rate, Apply(rate, s, Pass(dt)), ip, d) == 1.0
  {
    hide Avail, Earned, Pending, Inv, BurstFor;
    var gap := 1.0 - Avail(rate, s, ip, d);
    dt := gap / rate;
    Quotient(rate, gap);
    PassAvail(rate, s, dt, ip, d);
    PassPending(s, dt, ip, d);
    BurstAboveOne(rate);
  }

  lemma BurstAboveOne(rate: real)
    ensures BurstFor(rate) > 1.0
  {}

  /** A poll or write, by whichever copy loop, keeps loop `c` going. */
  lemma StillGoing(rate: real, s: System, step: Step, c: nat, ip: string, d: Direction)
    requires Going(s, c, ip, d) && (step.Poll? || step.Write?)
    ensures Going(Apply(rate, s, step), c, ip, d)
  {
    hide Asked;
  }

  lemma WriteFacts(rate: real, s: System, b: nat, ip: string, d: Direction)
    requires Inv(rate, s) && b in s.conns && s.conns[b].ip == ip && FlowOf(s, b, d).pending > 0
    ensures Enabled(s, Write(b, d)) && EvictedBy(s, Write(b, d), ip) == 0
    ensures Apply(rate, s, Write(b, d)) == SetFlow(s, b, d, Flow(0, false))
    ensures Apply(rate, s, Write(b, d)).now == s.now
    ensures WrittenBy(s, Write(b, d), ip, d) == FlowOf(s, b, d).pending
  {
    assert FlowRight(s.conns[b].flows.At(d));
  }

  lemma {:induction false} WriteDrains(rate: real, s: System, b: nat, c: nat, ip: string, d: Direction)
    requires rate > 0.0 && Inv(rate, s) && Going(s, c, ip, d)
    requires b in s.conns && s.conns[b].ip == ip && FlowOf(s, b, d).pending > 0
    ensures Thrifty(rate, s, Write(b, d), ip, d)
    ensures var s' := Apply(rate, s, Write(b, d));
            && Going(s', c, ip, d)
            && Avail(rate, s', ip, d) == Avail(rate, s, ip, d)
            && Pending(s', ip, d) < Pending(s, ip, d)
  {
    hide Inv, Avail, Pending, Going, Enabled, Apply, EvictedBy, WrittenBy, Earned, SetFlow;
    WriteFacts(rate, s, b, ip, d);
    NoTimeNoWorth(rate);
    StillGoing(rate, s, Write(b, d), c, ip, d);
    SetFlowAvail(rate, s, b, d, Flow(0, false), ip, d);
    PendingSet(s, b, d, Flow(0, false), ip, d);
  }

  lemma PollFacts(rate: real, s: System, c: nat, n: nat, ip: string, d: Direction)
    requires Inv(rate, s) && Going(s, c, ip, d) && FlowOf(s, c, d) == Flow(0, false) && 0 < n <= CHUNK
    ensures Enabled(s, Poll(c, d, n)) && EvictedBy(s, Poll(c, d, n), ip) == 0
    ensures Apply(rate, s, Poll(c, d, n)) == Polled(rate, s, c, d, n)
    ensures Apply(rate, s, Poll(c, d, n)).now == s.now
    ensures WrittenBy(s, Poll(c, d, n), ip, d) == 0
    ensures c in s.conns && s.conns[c].ip == ip
  {
    hide Asked;
  }

  lemma {:induction false} PollDrains(rate: real, s: System, c: nat, n: nat, ip: string, d: Direction)
    requires rate > 0.0 && Inv(rate, s) && Going(s, c, ip, d) && FlowOf(s, c, d) == Flow(0, false)
    requires 0 < n <= CHUNK && n as real <= Avail(rate, s, ip, d)
    ensures Thrifty(rate, s, Poll(c, d, n), ip, d)
    ensures var s' := Apply(rate, s, Poll(c, d, n));
            && Going(s', c, ip, d)
            && Avail(rate, s', ip, d) == Avail(rate, s, ip, d) - n as real
            && Pending(s', ip, d) == Pending(s, ip, d) + n
  {
    hide Inv, Avail, Pending, Going, Enabled, Apply, EvictedBy, WrittenBy, Earned, Polled, Asked;
    PollFacts(rate, s, c, n, ip, d);
    NoTimeNoWorth(rate);
    StillGoing(rate, s, Poll(c, d, n), c, ip, d);
    AskedAvail(rate, s, c, d, n, ip, d);
    PollPending(rate, s, c, d, n, ip, d);
  }

  /** The first step of a draining run, and why it gets closer to the end. */
  lemma {:induction false} Next(rate: real, s: System, c: nat, ip: string, d: Direction) returns (step: Step)
    requires rate > 0.0 && Inv(rate, s) && Going(s, c, ip, d)
    requires Pending(s, ip, d) > 0 || Avail(rate, s, ip, d) > 0.0
    ensures Thrifty(rate, s, step, ip, d)
    ensures step.Pass? || (step.Write? && step.d == d) || (step.Poll? && step.d == d)
    ensures Going(Apply(rate, s, step), c, ip, d)
    ensures var s' := Apply(rate, s, step);
            var a, a' := Avail(rate, s, ip, d), Avail(rate, s', ip, d);
            || (a' == a && Pending(s', ip, d) < Pending(s, ip, d))
            || (a'.Floor < a.Floor && (Whole(a') <==> Whole(a)))
            || (Whole(a') && !Whole(a))
  {
    hide Avail, Inv, Pending, SetFlow, Polled, Thrifty;
    var a := Avail(rate, s, ip, d);
    if Pending(s, ip, d) > 0 {
      var b := SomePending(s, ip, d);
      step := Write(b, d);
      WriteDrains(rate, s, b, c, ip, d);
    } else if a >= 1.0 {
      NonePending(s, c, ip, d);
      var n: nat := if a.Floor < CHUNK then a.Floor else CHUNK;
      step := Poll(c, d, n);
      PollDrains(rate, s, c, n, ip, d);
      LessWhole(a, n);
    } else {
      var dt := WaitForWhole(rate, s, ip, d);
      step := Pass(dt);
    }
  }

  function Other(d: Direction): Direction {
    if d == Up then Down else Up
  }

  /** One connection, from `ip`, which copies in one direction only. */
  ghost predicate Alone(s: System, ip: string, d: Direction) {
    && s.conns.Keys == {0} && Going(s, 0, ip, d) && FlowOf(s, 0, Other(d)) == Flow(0, false)
  }

  lemma StaysAlone(rate: real, s: System, step: Step, ip: string, d: Direction)
    requires step.Pass? || (step.Write? && step.d == d) || (step.Poll? && step.d == d)
    ensures Alone(s, ip, d) ==> Alone(Apply(rate, s, step), ip, d)
  {
    hide Asked;
  }

  /** The bound on grants and writes is tight: from every reachable state where
      a copy loop of the address is open, some run reaches it exactly. */
  lemma {:induction false} Drain(rate: real, s: System, c: nat, ip: string, d: Direction) returns (steps: seq<Step>)
    requires rate > 0.0 && Inv(rate, s) && Going(s, c, ip, d)
    ensures Drains(rate, s, steps, ip, d)
    ensures Alone(s, ip, d) ==> Alone(Exec(rate, s, steps), ip, d)
    decreases !Whole(Avail(rate, s, ip, d)), Avail(rate, s, ip, d).Floor, Pending(s, ip, d)
  {
    hide Avail, Inv, Pending, Drains, Going, Apply, Thrifty, Alone;
    AvailBounds(rate, s, ip, d);
    if Pending(s, ip, d) == 0 && Avail(rate, s, ip, d) == 0.0 {
      Drained(rate, s, ip, d);
      steps := [];
    } else {
      var step := Next(rate, s, c, ip, d);
      StepInv(rate, s, step);
      StaysAlone(rate, s, step, ip, d);
      var rest := Drain(rate, Apply(rate, s, step), c, ip, d);
      DrainStep(rate, s, step, rest, ip, d);
      steps := [step] + rest;
      assert steps[1..] == rest;
    }
  }

  /** The plain cap on the bytes written in a window, exactly characterised:
      it holds for every run from a reachable state if and only if the bytes
      paid for but not yet written, plus the tokens at hand, are within one
      burst.  So it holds whenever no copy loop is between paying and writing,
      and fails, for instance, as soon as one is while the bucket is full. */
  lemma WindowCapExact(rate: real, s: System, ip: string, d: Direction)
    requires rate > 0.0 && Inv(rate, s)
    ensures (forall steps | Valid(rate, s, steps) ::
               Written(rate, s, steps, ip, d) as real <= Cap(rate, s, steps, ip))
            <==> Pending(s, ip, d) as real + Avail(rate, s, ip, d) <= BurstFor(rate)
  {
    hide Cap, Written, Avail, Pending, BurstFor, Inv;
    AvailBounds(rate, s, ip, d);
    forall steps | Valid(rate, s, steps)
      ensures Written(rate, s, steps, ip, d) as real
              <= Cap(rate, s, steps, ip) - BurstFor(rate) + Avail(rate, s, ip, d) + Pending(s, ip, d) as real
    {
      WindowWrites(rate, s, steps, ip, d);
    }
    if Pending(s, ip, d) as real + Avail(rate, s, ip, d) > BurstFor(rate) {
      var steps := Overrun(rate, s, ip, d);
    }
  }

  /** A run that goes past the cap. */
  lemma {:induction false} Overrun(rate: real, s: System, ip: string, d: Direction) returns (steps: seq<Step>)
    requires rate > 0.0 && Inv(rate, s)
    requires Pending(s, ip, d) as real + Avail(rate, s, ip, d) > BurstFor(rate)
    ensures Valid(rate, s, steps) && Written(rate, s, steps, ip, d) as real > Cap(rate, s, steps, ip)
  {
    hide Written, Avail, Pending, BurstFor, Inv, Cap, Drains, FlowOf;
    var c := PendingGoing(rate, s, ip, d);
    steps := Drain(rate, s, c, ip, d);
    DrainedCap(rate, s, steps, c, ip, d);
  }

  lemma PendingGoing(rate: real, s: System, ip: string, d: Direction) returns (c: nat)
    requires rate > 0.0 && Inv(rate, s) && Pending(s, ip, d) as real + Avail(rate, s, ip, d) > BurstFor(rate)
    ensures Going(s, c, ip, d)
  {
    AvailBounds(rate, s, ip, d);
    c := SomePending(s, ip, d);
    assert FlowRight(s.conns[c].flows.At(d));
    hide Avail, Pending, BurstFor, Entries, Levels, Current;
  }

  /** What a draining run writes, against the cap. */
  lemma DrainedCap(rate: real, s: System, steps: seq<Step>, c: nat, ip: string, d: Direction)
    requires rate > 0.0 && Inv(rate, s) && Going(s, c, ip, d) && Drains(rate, s, steps, ip, d)
    ensures Valid(rate, s, steps)
    ensures Written(rate, s, steps, ip, d) as real
            == Pending(s, ip, d) as real + Avail(rate, s, ip, d) + Cap(rate, s, steps, ip) - BurstFor(rate)
  {
    NoTimeNoWorth(rate);
    hide Written, Avail, Pending, BurstFor, Inv, Worth, Earned, Recreations, Evictions, Exec, FlowOf;
    NoRecreations(rate, s, steps, c, ip);
  }

  lemma NoRecreations(rate: real, s: System, steps: seq<Step>, c: nat, ip: string)
    requires rate > 0.0 && Inv(rate, s) && c in s.conns && s.conns[c].ip == ip
    requires Evictions(rate, s, steps, ip) == 0
    ensures Creations(rate, s, steps, ip) == 0 && Recreations(rate, s, steps, ip) == 0
    ensures ip in s.perIP
  {
    RunCounts(rate, s, steps, ip);
    hide Entries, Levels, Flows, Exec, Creations, Evictions;
  }

  // ---- the failing family has members: a stalled write beside a full bucket ----

  lemma FirstConnect(rate: real, ip: string)
    requires rate > 0.0
    ensures Enabled(Start(0.0), Connect(0, ip))
    ensures var s := Apply(rate, Start(0.0), Connect(0, ip));
            && Inv(rate, s) && Avail(rate, s, ip, Up) == BurstFor(rate) && Pending(s, ip, Up) == 0
            && Going(s, 0, ip, Up) && FlowOf(s, 0, Up) == Flow(0, false)
  {
    StartInv(rate, 0.0);
    OpenAlone(rate, Start(0.0), ip, Up);
    NonePending(Apply(rate, Start(0.0), Connect(0, ip)), 0, ip, Up);
    hide BurstFor, Inv, Avail, Pending, Apply, FlowOf;
  }

  /** A paid chunk stalls until the bucket is full again. */
  lemma {:induction false} Stall(rate: real, s: System, ip: string) returns (dt: real)
    requires rate > 0.0 && Inv(rate, s) && Going(s, 0, ip, Up) && FlowOf(s, 0, Up) == Flow(0, false)
    requires Avail(rate, s, ip, Up) == BurstFor(rate) && Pending(s, ip, Up) == 0
    ensures Enabled(s, Poll(0, Up, CHUNK)) && dt >= 0.0
    ensures var s' := Apply(rate, s, Poll(0, Up, CHUNK));
            var t := s'.(now := s'.now + dt);
            Pending(t, ip, Up) == CHUNK && Avail(rate, t, ip, Up) == BurstFor(rate)
  {
    hide Avail, Pending, Earned, Polled, Inv, Going, WrittenBy;
    dt := CHUNK as real / rate;
    Quotient(rate, CHUNK as real);
    PollDrains(rate, s, 0, CHUNK, ip, Up);
    StepInv(rate, s, Poll(0, Up, CHUNK));
    var s' := Apply(rate, s, Poll(0, Up, CHUNK));
    hide Apply, Enabled;
    PassAvail(rate, s', dt, ip, Up);
    PassPending(s', dt, ip, Up);
  }

  /** One connection pays for a chunk and its write stalls: a state in which
      the plain cap fails. */
  lemma {:induction false} StalledWriteReachable(rate: real, ip: string) returns (steps: seq<Step>)
    requires rate > 0.0
    ensures Valid(rate, Start(0.0), steps)
    ensures Inv(rate, Exec(rate, Start(0.0), steps))
    ensures var s := Exec(rate, Start(0.0), steps);
            Pending(s, ip, Up) as real + Avail(rate, s, ip, Up) > BurstFor(rate)
  {
    hide Avail, Pending, Connected, Polled, Inv, BurstFor;
    StartInv(rate, 0.0);
    FirstConnect(rate, ip);
    var s1 := Apply(rate, Start(0.0), Connect(0, ip));
    var dt := Stall(rate, s1, ip);
    steps := [Connect(0, ip), Poll(0, Up, CHUNK), Pass(dt)];
    hide Start, Exec, Valid;
    ThreeSteps(rate, Start(0.0), Connect(0, ip), Poll(0, Up, CHUNK), Pass(dt));
    RunInv(rate, Start(0.0), steps);
  }

  lemma ThreeSteps(rate: real, s: System, a: Step, b: Step, c: Step)
    requires Enabled(s, a) && Enabled(Apply(rate, s, a), b) && Enabled(Apply(rate, Apply(rate, s, a), b), c)
    ensures Valid(rate, s, [a, b, c])
    ensures Exec(rate, s, [a, b, c]) == Apply(rate, Apply(rate, Apply(rate, s, a), b), c)
  {
    hide Enabled, Apply;
    assert [a, b, c][1..] == [b, c] && [b, c][1..] == [c] && [c][1..] == [];
    assert Exec(rate, Apply(rate, Apply(rate, s, a), b), [c]) == Apply(rate, Apply(rate, Apply(rate, s, a), b), c);
    assert Valid(rate, Apply(rate, Apply(rate, s, a), b), [c]);
    assert Valid(rate, Apply(rate, s, a), [b, c]);
  }

  // ---- the cap is reached for every number of re-creations ----

  lemma {:induction false} RunAppend(rate: real, s: System, a: seq<Step>, b: seq<Step>, ip: string, d: Direction)
    ensures var m := Exec(rate, s, a);
            && Exec(rate, s, a + b) == Exec(rate, m, b)
            && (Valid(rate, s, a + b) <==> Valid(rate, s, a) && Valid(rate, m, b))
            && Written(rate, s, a + b, ip, d) == Written(rate, s, a, ip, d) + Written(rate, m, b, ip, d)
            && Creations(rate, s, a + b, ip) == Creations(rate, s, a, ip) + Creations(rate, m, b, ip)
    decreases |a|
  {
    hide Apply, Enabled, WrittenBy, CreatedBy;
    if a == [] {
      assert a + b == b;
    } else {
      assert (a + b)[1..] == a[1..] + b;
      RunAppend(rate, Apply(rate, s, a[0]), a[1..], b, ip, d);
    }
  }

  /** `steps` take an empty system to an empty system; the address writes `n`
      bursts and what the time earns, on `n` new entries. */
  ghost predicate Rounds(rate: real, s: System, steps: seq<Step>, ip: string, d: Direction, n: nat) {
    var e := Exec(rate, s, steps);
    && Valid(rate, s, steps) && e.conns == map[] && Creations(rate, s, steps, ip) == n
    && Written(rate, s, steps, ip, d) as real == Worth(n, BurstFor(rate)) + Earned(rate, e.now - s.now)
  }

  lemma MoreRounds(rate: real, s: System, a: seq<Step>, b: seq<Step>, ip: string, d: Direction, m: nat, n: nat)
    requires Rounds(rate, s, a, ip, d, m) && Rounds(rate, Exec(rate, s, a), b, ip, d, n)
    ensures Rounds(rate, s, a + b, ip, d, m + n)
  {
    hide Exec, Valid, Creations, Written, Worth, Earned, BurstFor;
    var mid := Exec(rate, s, a);
    RunAppend(rate, s, a, b, ip, d);
    WorthAdds(m, n, BurstFor(rate));
    EarnedAdds(rate, s.now, mid.now, Exec(rate, mid, b).now);
  }

  /** A first connection to an empty system finds a full bucket. */
  lemma OpenAlone(rate: real, s: System, ip: string, d: Direction)
    requires rate > 0.0 && Inv(rate, s) && s.conns == map[]
    ensures Opened(rate, s, Connect(0, ip), ip, d)
    ensures var t := Apply(rate, s, Connect(0, ip));
            && Inv(rate, t) && Alone(t, ip, d)
            && Avail(rate, t, ip, d) == BurstFor(rate) && Pending(t, ip, d) == 0
  {
    hide Inv, Avail, Pending, BurstFor, M.Acquired;
    NoEntry(rate, s, ip);
    StepInv(rate, s, Connect(0, ip));
    ConnectAvail(rate, s, 0, ip, ip, d);
    ConnectPending(rate, s, 0, ip, ip, d);
    NothingThere(rate, s, ip, d);
  }

  lemma NothingThere(rate: real, s: System, ip: string, d: Direction)
    requires s.conns == map[] && ip !in s.perIP
    ensures Pending(s, ip, d) == 0 && Avail(rate, s, ip, d) == BurstFor(rate)
  {
    assert PendingOf(s, ip, d) == map[];
    hide BurstFor;
  }

  lemma NoEntry(rate: real, s: System, ip: string)
    requires Inv(rate, s) && s.conns == map[]
    ensures ip !in s.perIP
  {
    assert M.From(Opens(s), ip) == {};
    hide Levels, Flows, Current;
  }

  /** A connection with nothing to write ends, and takes the entry with it. */
  lemma CloseAlone(rate: real, s: System, ip: string, d: Direction) returns (steps: seq<Step>)
    requires Alone(s, ip, d) && FlowOf(s, 0, d) == Flow(0, false)
    ensures Closed(rate, s, steps, ip, d)
  {
    var a, b, c := Stop(0, d), Stop(0, Other(d)), Disconnect(0);
    steps := [a, b, c];
    var s1, s2 := Apply(rate, s, a), Apply(rate, Apply(rate, s, a), b);
    assert Enabled(s, a) && s1 == SetFlow(s, 0, d, Flow(0, true));
    assert Enabled(s1, b) && s2 == SetFlow(s1, 0, Other(d), Flow(0, true));
    assert Enabled(s2, c) && Apply(rate, s2, c) == Disconnected(s2, 0);
    assert s2.conns.Keys == {0} && s2.now == s.now;
    assert Disconnected(s2, 0).conns == map[];
    ThreeSteps(rate, s, a, b, c);
    hide Enabled, Apply, Disconnected, SetFlow;
    NothingWritten(rate, s, a, b, c, ip, d);
  }

  lemma NothingWritten(rate: real, s: System, a: Step, b: Step, c: Step, ip: string, d: Direction)
    requires !a.Write? && !a.WriteFails? && !a.Connect?
    requires !b.Write? && !b.WriteFails? && !b.Connect?
    requires !c.Write? && !c.WriteFails? && !c.Connect?
    ensures Written(rate, s, [a, b, c], ip, d) == 0 && Creations(rate, s, [a, b, c], ip) == 0
  {
    hide Enabled, Apply;
    assert [a, b, c][1..] == [b, c] && [b, c][1..] == [c] && [c][1..] == [];
    var s1, s2 := Apply(rate, s, a), Apply(rate, Apply(rate, s, a), b);
    assert Written(rate, s2, [c], ip, d) == 0 && Creations(rate, s2, [c], ip) == 0;
    assert Written(rate, s1, [b, c], ip, d) == 0 && Creations(rate, s1, [b, c], ip) == 0;
  }

  lemma OneStep(rate: real, s: System, step: Step, ip: string, d: Direction)
    ensures Exec(rate, s, [step]) == Apply(rate, s, step) && (Valid(rate, s, [step]) <==> Enabled(s, step))
    ensures Written(rate, s, [step], ip, d) == WrittenBy(s, step, ip, d)
    ensures Creations(rate, s, [step], ip) == CreatedBy(s, step, ip)
  {
    hide Apply, Enabled, WrittenBy, CreatedBy;
    assert [step][1..] == [];
  }

  /** After draining nothing is left to write, and no entry was made. */
  lemma DrainedAlone(rate: real, s: System, steps: seq<Step>, ip: string, d: Direction)
    requires rate > 0.0 && Inv(rate, s) && Alone(s, ip, d) && Drains(rate, s, steps, ip, d)
    requires Alone(Exec(rate, s, steps), ip, d)
    ensures FlowOf(Exec(rate, s, steps), 0, d) == Flow(0, false)
    ensures Creations(rate, s, steps, ip) == 0
  {
    hide Inv, Exec, Avail, Pending, BurstFor, Earned, Written, Creations, Evictions, Recreations, Stock, FlowOf;
    NoRecreations(rate, s, steps, 0, ip);
    WindowWrites(rate, s, steps, ip, d);
    StockIsAvail(rate, s, ip, d);
    NoTimeNoWorth(rate);
    NonePending(Exec(rate, s, steps), 0, ip, d);
  }

  lemma StockIsAvail(rate: real, s: System, ip: string, d: Direction)
    requires ip in s.perIP
    ensures Stock(rate, s, ip, d) == Avail(rate, s, ip, d)
  {}

  /** A connection, a run that writes a burst and what its time earns, and a run
      that only closes. */
  ghost predicate Opened(rate: real, s: System, step: Step, ip: string, d: Direction) {
    && Enabled(s, step) && CreatedBy(s, step, ip) == 1 && WrittenBy(s, step, ip, d) == 0
    && Apply(rate, s, step).now == s.now
  }

  ghost predicate Emptied(rate: real, s: System, steps: seq<Step>, ip: string, d: Direction) {
    && Valid(rate, s, steps) && Creations(rate, s, steps, ip) == 0
    && Written(rate, s, steps, ip, d) as real == BurstFor(rate) + Earned(rate, Exec(rate, s, steps).now - s.now)
  }

  ghost predicate Closed(rate: real, s: System, steps: seq<Step>, ip: string, d: Direction) {
    var e := Exec(rate, s, steps);
    && Valid(rate, s, steps) && e.conns == map[] && e.now == s.now
    && Written(rate, s, steps, ip, d) == 0 && Creations(rate, s, steps, ip) == 0
  }

  lemma EmptiedClosed(rate: real, s: System, a: seq<Step>, b: seq<Step>, ip: string, d: Direction)
    requires Emptied(rate, s, a, ip, d) && Closed(rate, Exec(rate, s, a), b, ip, d)
    ensures Emptied(rate, s, a + b, ip, d) && Exec(rate, s, a + b).conns == map[]
  {
    hide Exec, Valid, Creations, Written, Earned, BurstFor;
    RunAppend(rate, s, a, b, ip, d);
  }

  lemma OpenedEmptied(rate: real, s: System, step: Step, b: seq<Step>, ip: string, d: Direction)
    requires Opened(rate, s, step, ip, d) && Emptied(rate, Apply(rate, s, step), b, ip, d)
    requires Exec(rate, Apply(rate, s, step), b).conns == map[]
    ensures Rounds(rate, s, [step] + b, ip, d, 1)
  {
    hide Exec, Valid, Creations, Written, Earned, BurstFor, Enabled, Apply, CreatedBy, WrittenBy, Worth;
    OneStep(rate, s, step, ip, d);
    RunAppend(rate, s, [step], b, ip, d);
    NoTimeNoWorth(rate);
  }

  /** Open, drain, close. */
  lemma OneRound(rate: real, s: System, ip: string, d: Direction) returns (steps: seq<Step>)
    requires rate > 0.0 && Inv(rate, s) && s.conns == map[]
    ensures Rounds(rate, s, steps, ip, d, 1)
  {
    var open := Connect(0, ip);
    var t := Apply(rate, s, open);
    hide Apply, Enabled, Avail, Pending, BurstFor, Inv, Earned, FlowOf, Written, Creations, Exec, Valid;
    hide CreatedBy, WrittenBy, Evictions, Rounds, Alone;
    OpenAlone(rate, s, ip, d);
    var middle := DrainRound(rate, t, ip, d);
    var last := CloseAlone(rate, Exec(rate, t, middle), ip, d);
    EmptiedClosed(rate, t, middle, last, ip, d);
    steps := [open] + (middle + last);
    OpenedEmptied(rate, s, open, middle + last, ip, d);
  }

  lemma DrainRound(rate: real, t: System, ip: string, d: Direction) returns (steps: seq<Step>)
    requires rate > 0.0 && Inv(rate, t) && Alone(t, ip, d)
    requires Avail(rate, t, ip, d) == BurstFor(rate) && Pending(t, ip, d) == 0
    ensures Emptied(rate, t, steps, ip, d)
    ensures var e := Exec(rate, t, steps); Alone(e, ip, d) && FlowOf(e, 0, d) == Flow(0, false)
  {
    hide Avail, Pending, BurstFor, Inv, Earned, FlowOf, Written, Creations, Exec, Valid, Evictions;
    steps := Drain(rate, t, 0, ip, d);
    DrainedAlone(rate, t, steps, ip, d);
  }

  lemma {:induction false} ManyRounds(rate: real, s: System, ip: string, d: Direction, n: nat)
    returns (steps: seq<Step>)
    requires rate > 0.0 && Inv(rate, s) && s.conns == map[] && n > 0
    ensures Rounds(rate, s, steps, ip, d, n)
    decreases n
  {
    steps := OneRound(rate, s, ip, d);
    if n > 1 {
      RoundsInv(rate, s, steps, ip, d, 1);
      var more := ManyRounds(rate, Exec(rate, s, steps), ip, d, n - 1);
      MoreRounds(rate, s, steps, more, ip, d, 1, n - 1);
      steps := steps + more;
      hide Rounds;
    }
  }

  lemma RoundsInv(rate: real, s: System, steps: seq<Step>, ip: string, d: Direction, n: nat)
    requires rate > 0.0 && Inv(rate, s) && Rounds(rate, s, steps, ip, d, n)
    ensures Inv(rate, Exec(rate, s, steps)) && Exec(rate, s, steps).conns == map[]
  {
    RunInv(rate, s, steps);
    hide Inv, Exec, Written, Creations;
  }

  /** The cap is tight: for every k there is a run from the start of the proxy in
      which the entry of the address is re-created k times and the address
      writes exactly k + 1 bursts plus what the time earns. */
  lemma CapReached(rate: real, now: real, ip: string, d: Direction, k: nat) returns (steps: seq<Step>)
    requires rate > 0.0
    ensures Valid(rate, Start(now), steps) && Recreations(rate, Start(now), steps, ip) == k
    ensures Written(rate, Start(now), steps, ip, d) as real == Cap(rate, Start(now), steps, ip)
  {
    StartInv(rate, now);
    var n: nat := k + 1;
    hide Inv, Exec, Written, Creations, Valid, Worth, Earned, BurstFor;
    steps := ManyRounds(rate, Start(now), ip, d, n);
  }

  // ---- one proxy for each public inbound ----

  /** Proxies share no state: an address that uses several has a run on each. */
  ghost function WrittenOnAll(rate: real, now: real, runs: seq<seq<Step>>, ip: string, d: Direction): nat {
    if runs == [] then 0
    else
      WrittenOnAll(rate, now, runs[..|runs| - 1], ip, d)
      + Written(rate, Start(now), runs[|runs| - 1], ip, d)
  }

  ghost function RecreatedOnAll(rate: real, now: real, runs: seq<seq<Step>>, ip: string): nat {
    if runs == [] then 0
    else
      RecreatedOnAll(rate, now, runs[..|runs| - 1], ip)
      + Recreations(rate, Start(now), runs[|runs| - 1], ip)
  }

  ghost predicate RunsWithin(rate: real, now: real, runs: seq<seq<Step>>, dt: real) {
    forall i | 0 <= i < |runs| ::
      Valid(rate, Start(now), runs[i]) && Exec(rate, Start(now), runs[i]).now - now <= dt
  }

  /** On P proxies, with k re-creations in all, an address writes at most k + P
      bursts and P times what the time earns: each proxy has its own cap. */
  lemma {:induction false} AllProxiesWrite(rate: real, now: real, runs: seq<seq<Step>>, ip: string,
                                               d: Direction, dt: real)
    requires rate > 0.0 && RunsWithin(rate, now, runs, dt)
    ensures WrittenOnAll(rate, now, runs, ip, d) as real
            <= Worth(RecreatedOnAll(rate, now, runs, ip) + |runs|, BurstFor(rate)) + Worth(|runs|, Earned(rate, dt))
  {
    if runs == [] {
      NoneWorth(BurstFor(rate), Earned(rate, dt));
      hide Worth, BurstFor, Earned;
    } else {
      var front, last := runs[..|runs| - 1], runs[|runs| - 1];
      assert Valid(rate, Start(now), last) && Exec(rate, Start(now), last).now - now <= dt;
      hide Valid, Exec, Written, Recreations, Worth, BurstFor, Earned;
      AllProxiesWrite(rate, now, front, ip, d, dt);
      OneProxyWrites(rate, now, last, ip, d, dt);
      var k, r := RecreatedOnAll(rate, now, front, ip) + |front|, Recreations(rate, Start(now), last, ip) + 1;
      WorthAdds(k, r, BurstFor(rate));
      OneMore(|front|, Earned(rate, dt));
    }
  }

  lemma NoneWorth(a: real, b: real)
    ensures Worth(0, a) == 0.0 && Worth(0, b) == 0.0
  {}

  lemma {:induction false} OneProxyWrites(rate: real, now: real, run: seq<Step>, ip: string, d: Direction, dt: real)
    requires rate > 0.0 && Valid(rate, Start(now), run) && Exec(rate, Start(now), run).now - now <= dt
    ensures Written(rate, Start(now), run, ip, d) as real
            <= Worth(Recreations(rate, Start(now), run, ip) + 1, BurstFor(rate)) + Earned(rate, dt)
  {
    var t := Exec(rate, Start(now), run).now - now;
    EarnedGrows(rate, dt - t);
    EarnedAdds(rate, 0.0, t, dt);
    hide Exec, Written, Recreations, Worth, BurstFor, Earned, Valid;
    WholeRunWrites(rate, now, run, ip, d);
  }

  /** That is reached: on any number of proxies an address can write that many
      times the cap of one. */
  lemma {:induction false} AllProxiesReach(rate: real, now: real, ip: string, d: Direction, k: nat, proxies: nat)
    returns (run: seq<Step>)
    requires rate > 0.0
    ensures Valid(rate, Start(now), run) && Recreations(rate, Start(now), run, ip) == k
    ensures WrittenOnAll(rate, now, seq(proxies, _ => run), ip, d) as real
            == Worth(proxies, Cap(rate, Start(now), run, ip))
  {
    run := CapReached(rate, now, ip, d, k);
    hide Valid, Recreations, Cap, Written, Worth;
    SameOnAll(rate, now, run, ip, d, proxies);
  }

  lemma {:induction false} SameOnAll(rate: real, now: real, run: seq<Step>, ip: string, d: Direction, proxies: nat)
    requires Written(rate, Start(now), run, ip, d) as real == Cap(rate, Start(now), run, ip)
    ensures WrittenOnAll(rate, now, seq(proxies, _ => run), ip, d) as real
            == Worth(proxies, Cap(rate, Start(now), run, ip))
  {
    var cap := Cap(rate, Start(now), run, ip);
    hide Written, Cap, Worth;
    if proxies == 0 {
      NoneWorth(cap, cap);
    } else {
      SameOnAll(rate, now, run, ip, d, proxies - 1);
      assert seq(proxies, _ => run)[..proxies - 1] == seq(proxies - 1, _ => run);
      OneMore(proxies - 1, cap);
    }
  }
}
