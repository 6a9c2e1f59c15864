/** Every interleaving of the throttle proxy of src/internal/throttle/proxy.go:
    connections open, share the limiter of their address, poll, write, fail and
    close, while time passes. */
module ProxyRun {
  import opened TokenBucket
  import opened LimitedCopy
  import opened LimiterMap
  import opened Sums

  datatype Direction = Up | Down

  datatype Pair<T> = Pair(up: T, down: T) {
    function At(d: Direction): T { if d == Up then up else down }
    function With(d: Direction, x: T): Pair<T> { if d == Up then this.(up := x) else this.(down := x) }
  }

  /** One copy loop: bytes paid for but not yet written, and whether it ended. */
  datatype Flow = Flow(pending: nat, done: bool)

  /** A connection holds the limiter it acquired, by number. */
  datatype Conn = Conn(ip: string, limiter: nat, flows: Pair<Flow>)

  /** `limiters` are all limiters ever made, `perIP` the numbers in use. */
  datatype System = System(now: real,
                         refs: map<string, int>,
                         perIP: map<string, nat>,
                         limiters: seq<Pair<Level>>,
                         conns: map<nat, Conn>)

  datatype Step =
    | Pass(dt: real)
    | Connect(c: nat, ip: string)
    | Poll(c: nat, d: Direction, n: nat)
    | Write(c: nat, d: Direction)
    | WriteFails(c: nat, d: Direction, taken: nat)
    | Stop(c: nat, d: Direction)
    | Disconnect(c: nat)

  function Settings(rate: real): Limits {
    Limits(rate, BurstFor(rate))
  }

  function FlowOf(s: System, c: nat, d: Direction): Flow
    requires c in s.conns
  {
    s.conns[c].flows.At(d)
  }

  predicate Enabled(s: System, step: Step) {
    match step
    case Pass(dt) => dt >= 0.0
    case Connect(c, ip) => c !in s.conns
    case Poll(c, d, n) =>
      && c in s.conns && s.conns[c].limiter < |s.limiters|
      && FlowOf(s, c, d) == Flow(0, false) && 0 < n <= CHUNK
    case Write(c, d) => c in s.conns && !FlowOf(s, c, d).done && FlowOf(s, c, d).pending > 0
    case WriteFails(c, d, taken) =>
      && c in s.conns && !FlowOf(s, c, d).done
      && FlowOf(s, c, d).pending > 0 && taken <= FlowOf(s, c, d).pending
    case Stop(c, d) => c in s.conns && FlowOf(s, c, d) == Flow(0, false)
    case Disconnect(c) => c in s.conns && FlowOf(s, c, Up).done && FlowOf(s, c, Down).done
  }

  function SetFlow(s: System, c: nat, d: Direction, f: Flow): System
    requires c in s.conns
  {
    s.(conns := s.conns[c := s.conns[c].(flows := s.conns[c].flows.With(d, f))])
  }

  function Connected(rate: real, s: System, c: nat, ip: string): System {
    var full := Level(BurstFor(rate), s.now);
    var known := ip in s.perIP;
    var number := if known then s.perIP[ip] else |s.limiters|;
    s.(refs := Acquired(s.refs, ip),
       perIP := s.perIP[ip := number],
       limiters := if known then s.limiters else s.limiters + [Pair(full, full)],
       conns := s.conns[c := Conn(ip, number, Pair(Flow(0, false), Flow(0, false)))])
  }

  function Asked(rate: real, s: System, c: nat, d: Direction, n: nat): (bool, Level)
    requires c in s.conns && s.conns[c].limiter < |s.limiters|
  {
    Admit(Settings(rate), s.limiters[s.conns[c].limiter].At(d), n as real, s.now)
  }

  function Polled(rate: real, s: System, c: nat, d: Direction, n: nat): System
    requires c in s.conns && s.conns[c].limiter < |s.limiters|
  {
    var l := s.conns[c].limiter;
    var (ok, level) := Asked(rate, s, c, d, n);
    var s' := s.(limiters := s.limiters[l := s.limiters[l].With(d, level)]);
    if ok then SetFlow(s', c, d, Flow(n, false)) else s'
  }

  function Disconnected(s: System, c: nat): System
    requires c in s.conns
  {
    var refs := Released(s.refs, s.conns[c].ip);
    s.(refs := refs,
       perIP := map ip | ip in s.perIP && ip in refs :: s.perIP[ip],
       conns := s.conns - {c})
  }

  /** The next state; a step that is not enabled changes nothing. */
  function Apply(rate: real, s: System, step: Step): System {
    if !Enabled(s, step) then s else
    match step
    case Pass(dt) => s.(now := s.now + dt)
    case Connect(c, ip) => Connected(rate, s, c, ip)
    case Poll(c, d, n) => Polled(rate, s, c, d, n)
    case Write(c, d) => SetFlow(s, c, d, Flow(0, false))
    case WriteFails(c, d, taken) => SetFlow(s, c, d, Flow(0, true))
    case Stop(c, d) => SetFlow(s, c, d, Flow(0, true))
    case Disconnect(c) => Disconnected(s, c)
  }

  function Start(now: real): System {
    System(now, map[], map[], [], map[])
  }

  // ---- what a step does for one address and direction ----

  ghost predicate Concerns(s: System, c: nat, ip: string) {
    c in s.conns && s.conns[c].ip == ip
  }

  /** Bytes the bucket granted. */
  ghost function GrantedBy(rate: real, s: System, step: Step, ip: string, d: Direction): nat {
    if !Enabled(s, step) then 0
    else if step.Poll? && step.d == d && Concerns(s, step.c, ip)
       && Asked(rate, s, step.c, d, step.n).0
    then step.n else 0
  }

  /** Bytes that reached the other side. */
  ghost function WrittenBy(s: System, step: Step, ip: string, d: Direction): nat {
    if !Enabled(s, step) then 0
    else if step.Write? && step.d == d && Concerns(s, step.c, ip) then FlowOf(s, step.c, d).pending
    else if step.WriteFails? && step.d == d && Concerns(s, step.c, ip) then step.taken
    else 0
  }

  /** Bytes paid for that a failed write dropped. */
  ghost function LostBy(s: System, step: Step, ip: string, d: Direction): nat {
    if !Enabled(s, step) then 0
    else if step.WriteFails? && step.d == d && Concerns(s, step.c, ip)
    then FlowOf(s, step.c, d).pending - step.taken else 0
  }

  /** 1 when the step frees the entry of `ip`. */
  ghost function EvictedBy(s: System, step: Step, ip: string): nat {
    if !Enabled(s, step) then 0
    else if step.Disconnect? && ip in s.perIP && Concerns(s, step.c, ip) && ip !in Released(s.refs, ip) then 1 else 0
  }

  /** 1 when the step makes an entry for `ip`, with two full buckets. */
  ghost function CreatedBy(s: System, step: Step, ip: string): nat {
    if Enabled(s, step) && step.Connect? && step.ip == ip && ip !in s.perIP then 1 else 0
  }

  // ---- runs ----

  ghost predicate Valid(rate: real, s: System, steps: seq<Step>)
    decreases |steps|
  {
    steps == [] || (Enabled(s, steps[0]) && Valid(rate, Apply(rate, s, steps[0]), steps[1..]))
  }

  ghost function Exec(rate: real, s: System, steps: seq<Step>): System
    decreases |steps|
  {
    if steps == [] then s else Exec(rate, Apply(rate, s, steps[0]), steps[1..])
  }

  ghost function GrantTotal(rate: real, s: System, steps: seq<Step>, ip: string, d: Direction): nat
    decreases |steps|
  {
    if steps == [] then 0
    else GrantedBy(rate, s, steps[0], ip, d) + GrantTotal(rate, Apply(rate, s, steps[0]), steps[1..], ip, d)
  }

  ghost function Written(rate: real, s: System, steps: seq<Step>, ip: string, d: Direction): nat
    decreases |steps|
  {
    if steps == [] then 0
    else WrittenBy(s, steps[0], ip, d) + Written(rate, Apply(rate, s, steps[0]), steps[1..], ip, d)
  }

  ghost function Lost(rate: real, s: System, steps: seq<Step>, ip: string, d: Direction): nat
    decreases |steps|
  {
    if steps == [] then 0
    else LostBy(s, steps[0], ip, d) + Lost(rate, Apply(rate, s, steps[0]), steps[1..], ip, d)
  }

  ghost function Evictions(rate: real, s: System, steps: seq<Step>, ip: string): nat
    decreases |steps|
  {
    if steps == [] then 0
    else EvictedBy(s, steps[0], ip) + Evictions(rate, Apply(rate, s, steps[0]), steps[1..], ip)
  }

  ghost function Creations(rate: real, s: System, steps: seq<Step>, ip: string): nat
    decreases |steps|
  {
    if steps == [] then 0
    else CreatedBy(s, steps[0], ip) + Creations(rate, Apply(rate, s, steps[0]), steps[1..], ip)
  }

  // ---- the invariant ----

  ghost function Opens(s: System): map<nat, string> {
    map c | c in s.conns :: s.conns[c].ip
  }

  /** The entries: counted right, numbered right, each number used once. */
  ghost predicate Entries(s: System) {
    && Counts(s.refs, Opens(s))
    && s.refs.Keys == s.perIP.Keys
    && (forall ip | ip in s.perIP :: s.perIP[ip] < |s.limiters|)
    && (forall ip, jp | ip in s.perIP && jp in s.perIP && s.perIP[ip] == s.perIP[jp] :: ip == jp)
  }

  /** Every open connection uses the current limiter of its address. */
  ghost predicate Current(s: System) {
    forall c | c in s.conns :: s.conns[c].ip in s.perIP && s.conns[c].limiter == s.perIP[s.conns[c].ip]
  }

  ghost predicate LevelOk(rate: real, lv: Level, now: real) {
    Sane(Settings(rate), lv) && lv.last <= now
  }

  ghost predicate Levels(rate: real, s: System) {
    forall k | 0 <= k < |s.limiters| ::
      LevelOk(rate, s.limiters[k].up, s.now) && LevelOk(rate, s.limiters[k].down, s.now)
  }

  ghost predicate FlowRight(f: Flow) {
    f.pending <= CHUNK && (f.done ==> f.pending == 0)
  }

  ghost predicate Flows(s: System) {
    forall c | c in s.conns :: FlowRight(s.conns[c].flows.up) && FlowRight(s.conns[c].flows.down)
  }

  ghost predicate Inv(rate: real, s: System) {
    Entries(s) && Current(s) && Levels(rate, s) && Flows(s)
  }

  lemma StartInv(rate: real, now: real)
    ensures Inv(rate, Start(now))
  {
    assert forall ip :: From(map[], ip) == {};
  }

  lemma OpensAfter(rate: real, s: System, c: nat, ip: string, d: Direction, f: Flow)
    ensures Opens(Connected(rate, s, c, ip)) == Opens(s)[c := ip]
    ensures c in s.conns ==> Opens(Disconnected(s, c)) == Opens(s) - {c}
    ensures c in s.conns ==> Opens(SetFlow(s, c, d, f)) == Opens(s)
  {
    hide Acquired, Released, BurstFor;
  }

  lemma ConnectEntries(rate: real, s: System, c: nat, ip: string)
    requires Entries(s) && c !in s.conns
    ensures Entries(Connected(rate, s, c, ip))
  {
    OpenCounts(s.refs, Opens(s), c, ip);
    OpensAfter(rate, s, c, ip, Up, Flow(0, false));
    hide Counts, Opens;
  }

  lemma ConnectRest(rate: real, s: System, c: nat, ip: string)
    requires rate > 0.0 && Inv(rate, s) && c !in s.conns
    ensures var s' := Connected(rate, s, c, ip); Current(s') && Levels(rate, s') && Flows(s')
  {
    hide Acquired, Counts;
  }

  lemma {:induction false} DisconnectEntries(s: System, c: nat)
    requires Entries(s) && c in s.conns
    ensures Entries(Disconnected(s, c))
  {
    hide Counts;
    CloseCounts(s.refs, Opens(s), c);
    OpensAfter(0.0, s, c, s.conns[c].ip, Up, Flow(0, false));
    hide Opens, From;
    var s' := Disconnected(s, c);
    assert s'.refs.Keys == s'.perIP.Keys;
  }

  lemma DisconnectRest(rate: real, s: System, c: nat)
    requires Inv(rate, s) && c in s.conns
    ensures var s' := Disconnected(s, c); Current(s') && Levels(rate, s') && Flows(s')
  {
    hide Counts, Released, LevelOk, FlowRight;
    StillOpen(s.refs, Opens(s), c);
    forall e | e in s.conns && e != c ensures s.conns[e].ip in Released(s.refs, s.conns[c].ip) {
      assert e in Opens(s) && Opens(s)[e] == s.conns[e].ip;
    }
  }

  lemma SetFlowEntries(s: System, c: nat, d: Direction, f: Flow)
    requires Entries(s) && c in s.conns
    ensures Entries(SetFlow(s, c, d, f))
  {
    OpensAfter(0.0, s, c, s.conns[c].ip, d, f);
    hide Counts, Opens;
  }

  lemma SetFlowRest(rate: real, s: System, c: nat, d: Direction, f: Flow)
    requires Current(s) && Levels(rate, s) && Flows(s) && c in s.conns && FlowRight(f)
    ensures var s' := SetFlow(s, c, d, f); Current(s') && Levels(rate, s') && Flows(s')
  {
    hide LevelOk, FlowRight;
  }

  lemma {:induction false} SetFlowInv(rate: real, s: System, c: nat, d: Direction, f: Flow)
    requires Inv(rate, s) && c in s.conns && FlowRight(f)
    ensures Inv(rate, SetFlow(s, c, d, f))
  {
    SetFlowEntries(s, c, d, f);
    SetFlowRest(rate, s, c, d, f);
    hide SetFlow, Entries, Current, Levels, Flows;
  }

  lemma {:induction false} PollInv(rate: real, s: System, c: nat, d: Direction, n: nat)
    requires rate > 0.0 && Inv(rate, s) && Enabled(s, Poll(c, d, n))
    ensures Inv(rate, Polled(rate, s, c, d, n))
  {
    var l := s.conns[c].limiter;
    var (ok, level) := Asked(rate, s, c, d, n);
    AdmitStep(Settings(rate), s.limiters[l].At(d), n as real, s.now);
    SetLevelInv(rate, s, l, d, level);
    hide Inv, Admit, Asked;
    if ok {
      SetFlowInv(rate, s.(limiters := s.limiters[l := s.limiters[l].With(d, level)]), c, d, Flow(n, false));
    }
  }

  lemma SetLevelInv(rate: real, s: System, l: nat, d: Direction, level: Level)
    requires Inv(rate, s) && l < |s.limiters| && LevelOk(rate, level, s.now)
    ensures Inv(rate, s.(limiters := s.limiters[l := s.limiters[l].With(d, level)]))
  {
    var t := s.(limiters := s.limiters[l := s.limiters[l].With(d, level)]);
    SetLevelEntries(s, t);
    SetLevelLevels(rate, s, l, d, level);
    hide Entries, Levels, LevelOk, FlowRight;
  }

  lemma SetLevelEntries(s: System, t: System)
    requires Entries(s) && t == s.(limiters := t.limiters) && |t.limiters| == |s.limiters|
    ensures Entries(t)
  {
    SameOpens(s, t);
    hide Counts, Opens;
  }

  lemma SetLevelLevels(rate: real, s: System, l: nat, d: Direction, level: Level)
    requires Levels(rate, s) && l < |s.limiters| && LevelOk(rate, level, s.now)
    ensures Levels(rate, s.(limiters := s.limiters[l := s.limiters[l].With(d, level)]))
  {
    hide LevelOk;
  }

  lemma SameOpens(s: System, t: System)
    requires s.conns == t.conns
    ensures Opens(s) == Opens(t)
  {}

  lemma PassInv(rate: real, s: System, dt: real)
    requires Inv(rate, s) && dt >= 0.0
    ensures Inv(rate, s.(now := s.now + dt))
  {
    hide Counts, Sane, FlowRight;
    SameOpens(s, s.(now := s.now + dt));
    hide Opens;
  }

  /** Every step keeps the invariant. */
  lemma {:induction false} StepInv(rate: real, s: System, step: Step)
    requires rate > 0.0 && Inv(rate, s)
    ensures Inv(rate, Apply(rate, s, step))
  {
    hide Entries, Current, Levels, Flows, Connected, Polled, Disconnected, SetFlow;
    if Enabled(s, step) {
      match step {
        case Pass(dt) => PassInv(rate, s, dt);
        case Connect(c, ip) => ConnectEntries(rate, s, c, ip); ConnectRest(rate, s, c, ip);
        case Poll(c, d, n) => PollInv(rate, s, c, d, n);
        case Write(c, d) => SetFlowInv(rate, s, c, d, Flow(0, false));
        case WriteFails(c, d, taken) => SetFlowInv(rate, s, c, d, Flow(0, true));
        case Stop(c, d) => SetFlowInv(rate, s, c, d, Flow(0, true));
        case Disconnect(c) => DisconnectEntries(s, c); DisconnectRest(rate, s, c);
      }
    }
  }

  /** Sharing holds in every reachable state, so no connection ever pays a
      limiter that was let go. */
  lemma {:induction false} RunInv(rate: real, s: System, steps: seq<Step>)
    requires rate > 0.0 && Inv(rate, s) && Valid(rate, s, steps)
    ensures Inv(rate, Exec(rate, s, steps))
    decreases |steps|
  {
    if steps != [] {
      StepInv(rate, s, steps[0]);
      RunInv(rate, Apply(rate, s, steps[0]), steps[1..]);
    }
  }

  // ---- the bound ----

  /** Tokens the address could draw now; an address without entry would start
      with a full bucket. */
  ghost function Avail(rate: real, s: System, ip: string, d: Direction): real {
    if ip in s.perIP && s.perIP[ip] < |s.limiters|
    then Refill(Settings(rate), s.limiters[s.perIP[ip]].At(d), s.now).tokens
    else BurstFor(rate)
  }

  lemma AvailBounds(rate: real, s: System, ip: string, d: Direction)
    requires rate > 0.0 && Inv(rate, s)
    ensures 0.0 <= Avail(rate, s, ip, d) <= BurstFor(rate)
  {
    if ip in s.perIP {
      var lv := s.limiters[s.perIP[ip]].At(d);
      EarnedGrows(rate, s.now - lv.last);
    }
  }

  /** Later, a bucket nobody drew from can give what it could plus what it
      earned, up to the burst. */
  lemma RefillLater(lim: Limits, lv: Level, a: real, b: real)
    requires Sane(lim, lv) && lv.last <= a <= b
    ensures Refill(lim, lv, b).tokens == Min(lim.burst, Refill(lim, lv, a).tokens + Earned(lim.rate, b - a))
  {
    EarnedAdds(lim.rate, lv.last, a, b);
    EarnedGrows(lim.rate, a - lv.last);
    EarnedGrows(lim.rate, b - a);
    assert Earned(lim.rate, lv.last - lv.last) == 0.0;
    hide Earned;
  }

  /** What a poll does to the tokens at hand. */
  lemma PollAvail(lim: Limits, lv: Level, n: real, now: real)
    requires Sane(lim, lv) && lv.last <= now && n >= 0.0
    ensures var (ok, lv') := Admit(lim, lv, n, now);
            && (ok <==> n <= Refill(lim, lv, now).tokens)
            && Refill(lim, lv', now).tokens == Refill(lim, lv, now).tokens - (if ok then n else 0.0)
  {
    hide Earned;
  }

  lemma SetFlowAvail(rate: real, s: System, c: nat, e: Direction, f: Flow, ip: string, d: Direction)
    requires c in s.conns
    ensures Avail(rate, SetFlow(s, c, e, f), ip, d) == Avail(rate, s, ip, d)
  {
    hide Refill;
  }

  lemma {:induction false} PassAvail(rate: real, s: System, dt: real, ip: string, d: Direction)
    requires rate > 0.0 && Inv(rate, s) && dt >= 0.0
    ensures Avail(rate, s.(now := s.now + dt), ip, d)
            == Min(BurstFor(rate), Avail(rate, s, ip, d) + Earned(rate, dt))
  {
    hide Earned, Refill, Counts, Flows, Current, BurstFor;
    EarnedGrows(rate, dt);
    if ip in s.perIP {
      RefillLater(Settings(rate), s.limiters[s.perIP[ip]].At(d), s.now, s.now + dt);
    }
  }

  lemma ConnectAvail(rate: real, s: System, c: nat, jp: string, ip: string, d: Direction)
    requires rate > 0.0 && Inv(rate, s)
    ensures Avail(rate, Connected(rate, s, c, jp), ip, d) == Avail(rate, s, ip, d)
  {
    hide Earned, BurstFor, Counts;
  }

  lemma DisconnectAvail(rate: real, s: System, c: nat, ip: string, d: Direction)
    requires rate > 0.0 && Inv(rate, s) && c in s.conns && Enabled(s, Disconnect(c))
    ensures Avail(rate, Disconnected(s, c), ip, d)
            == if EvictedBy(s, Disconnect(c), ip) == 1 then BurstFor(rate) else Avail(rate, s, ip, d)
  {
    hide Refill, BurstFor, Counts;
  }

  /** A new level counts for its own address and direction only. */
  lemma SetLevelAvail(rate: real, s: System, c: nat, e: Direction, level: Level, ip: string, d: Direction)
    requires Inv(rate, s) && c in s.conns
    ensures var l := s.conns[c].limiter;
            && l < |s.limiters|
            && Avail(rate, s.(limiters := s.limiters[l := s.limiters[l].With(e, level)]), ip, d)
               == if e == d && s.conns[c].ip == ip then Refill(Settings(rate), level, s.now).tokens
                  else Avail(rate, s, ip, d)
  {
    hide Refill, Counts, BurstFor, Levels, Flows;
  }

  lemma ConnAvail(rate: real, s: System, c: nat, d: Direction)
    requires rate > 0.0 && Inv(rate, s) && c in s.conns
    ensures s.conns[c].limiter < |s.limiters|
    ensures var lv := s.limiters[s.conns[c].limiter].At(d);
            && Avail(rate, s, s.conns[c].ip, d) == Refill(Settings(rate), lv, s.now).tokens
            && Sane(Settings(rate), lv) && lv.last <= s.now
  {
    hide Refill, Counts, Flows;
  }

  /** What a poll does to the tokens at hand of each address. */
  lemma AskedAvail(rate: real, s: System, c: nat, e: Direction, n: nat, ip: string, d: Direction)
    requires rate > 0.0 && Inv(rate, s) && Enabled(s, Poll(c, e, n))
    ensures var ok := Asked(rate, s, c, e, n).0;
            && (ok <==> n as real <= Avail(rate, s, s.conns[c].ip, e))
            && Avail(rate, Polled(rate, s, c, e, n), ip, d)
               == Avail(rate, s, ip, d) - (if ok && e == d && s.conns[c].ip == ip then n as real else 0.0)
  {
    hide Admit, Refill, Inv, Avail, SetFlow;
    var l := s.conns[c].limiter;
    ConnAvail(rate, s, c, e);
    PollAvail(Settings(rate), s.limiters[l].At(e), n as real, s.now);
    var (ok, level) := Asked(rate, s, c, e, n);
    SetLevelAvail(rate, s, c, e, level, ip, d);
    SetFlowAvail(rate, s.(limiters := s.limiters[l := s.limiters[l].With(e, level)]), c, e, Flow(n, false), ip, d);
  }

  /** What `k` evictions are worth. */
  ghost function Worth(k: nat, burst: real): real {
    k as real * burst
  }

  lemma WorthAdds(a: nat, b: nat, burst: real)
    ensures Worth(a + b, burst) == Worth(a, burst) + Worth(b, burst)
    ensures Worth(0, burst) == 0.0 && Worth(1, burst) == burst
  {}

  /** The potential: grants are paid from the tokens at hand, from the time
      that passes, or from an eviction. */
  ghost predicate Paid(rate: real, s: System, step: Step, ip: string, d: Direction) {
    GrantedBy(rate, s, step, ip, d) as real + Avail(rate, Apply(rate, s, step), ip, d)
    <= Avail(rate, s, ip, d) + Earned(rate, Apply(rate, s, step).now - s.now)
       + Worth(EvictedBy(s, step, ip), BurstFor(rate))
  }

  lemma {:induction false} StepBound(rate: real, s: System, step: Step, ip: string, d: Direction)
    requires rate > 0.0 && Inv(rate, s)
    ensures s.now <= Apply(rate, s, step).now && Paid(rate, s, step, ip, d)
  {
    hide Earned, BurstFor, Avail, Connected, Polled, Disconnected, SetFlow, Inv, Asked, Worth;
    NoTimeNoWorth(rate);
    AvailBounds(rate, s, ip, d);
    if Enabled(s, step) {
      if step.Pass? {
        PassAvail(rate, s, step.dt, ip, d);
      } else {
        SameTime(rate, s, step);
        StepAvail(rate, s, step, ip, d);
      }
    }
  }

  lemma NoTimeNoWorth(rate: real)
    ensures Earned(rate, 0.0) == 0.0
    ensures Worth(0, BurstFor(rate)) == 0.0 && Worth(1, BurstFor(rate)) == BurstFor(rate)
  {}

  lemma {:induction false} StepAvail(rate: real, s: System, step: Step, ip: string, d: Direction)
    requires rate > 0.0 && Inv(rate, s) && Enabled(s, step) && !step.Pass?
    ensures Avail(rate, Apply(rate, s, step), ip, d)
            == if EvictedBy(s, step, ip) == 1 then BurstFor(rate)
               else Avail(rate, s, ip, d) - GrantedBy(rate, s, step, ip, d) as real
  {
    hide BurstFor, Avail, Connected, Polled, Disconnected, SetFlow, Inv, Asked;
    match step {
      case Connect(c, jp) => ConnectAvail(rate, s, c, jp, ip, d);
      case Poll(c, e, n) => AskedAvail(rate, s, c, e, n, ip, d);
      case Write(c, e) => SetFlowAvail(rate, s, c, e, Flow(0, false), ip, d);
      case WriteFails(c, e, taken) => SetFlowAvail(rate, s, c, e, Flow(0, true), ip, d);
      case Stop(c, e) => SetFlowAvail(rate, s, c, e, Flow(0, true), ip, d);
      case Disconnect(c) => DisconnectAvail(rate, s, c, ip, d);
    }
  }

  lemma SameTime(rate: real, s: System, step: Step)
    requires Enabled(s, step) && !step.Pass?
    ensures Apply(rate, s, step).now == s.now
  {
    hide Acquired, Released, Asked, BurstFor;
  }

  /** Bytes paid for and not yet written, over the connections of `ip`. */
  ghost function PendingOf(s: System, ip: string, d: Direction): map<nat, nat> {
    map c | c in s.conns :: if s.conns[c].ip == ip then FlowOf(s, c, d).pending else 0
  }

  ghost function Pending(s: System, ip: string, d: Direction): nat {
    Total(PendingOf(s, ip, d))
  }

  lemma PendingSet(s: System, c: nat, e: Direction, f: Flow, ip: string, d: Direction)
    requires c in s.conns
    ensures Pending(SetFlow(s, c, e, f), ip, d)
              + (if e == d && s.conns[c].ip == ip then FlowOf(s, c, d).pending else 0)
            == Pending(s, ip, d) + (if e == d && s.conns[c].ip == ip then f.pending else 0)
  {
    var s' := SetFlow(s, c, e, f);
    var m := PendingOf(s, ip, d);
    Replace(m, c, PendingOf(s', ip, d)[c]);
    assert PendingOf(s', ip, d) == m[c := PendingOf(s', ip, d)[c]];
  }

  lemma PollPending(rate: real, s: System, c: nat, e: Direction, n: nat, ip: string, d: Direction)
    requires Enabled(s, Poll(c, e, n))
    ensures Pending(Polled(rate, s, c, e, n), ip, d)
            == Pending(s, ip, d)
               + if Asked(rate, s, c, e, n).0 && e == d && s.conns[c].ip == ip then n else 0
  {
    hide Asked;
    var l := s.conns[c].limiter;
    var (ok, level) := Asked(rate, s, c, e, n);
    var t := s.(limiters := s.limiters[l := s.limiters[l].With(e, level)]);
    assert PendingOf(t, ip, d) == PendingOf(s, ip, d);
    PendingSet(t, c, e, Flow(n, false), ip, d);
  }

  lemma ConnectPending(rate: real, s: System, c: nat, jp: string, ip: string, d: Direction)
    requires c !in s.conns
    ensures Pending(Connected(rate, s, c, jp), ip, d) == Pending(s, ip, d)
  {
    hide PendingOf;
    Replace(PendingOf(s, ip, d), c, 0);
    ConnectPendingOf(rate, s, c, jp, ip, d);
  }

  lemma ConnectPendingOf(rate: real, s: System, c: nat, jp: string, ip: string, d: Direction)
    requires c !in s.conns
    ensures PendingOf(Connected(rate, s, c, jp), ip, d) == PendingOf(s, ip, d)[c := 0]
    ensures c !in PendingOf(s, ip, d)
  {
    hide Acquired, BurstFor;
  }

  lemma DisconnectPending(s: System, c: nat, ip: string, d: Direction)
    requires c in s.conns && FlowOf(s, c, d).pending == 0
    ensures Pending(Disconnected(s, c), ip, d) == Pending(s, ip, d)
  {
    TakeOut(PendingOf(s, ip, d), c);
    assert PendingOf(Disconnected(s, c), ip, d) == PendingOf(s, ip, d) - {c};
  }

  /** Every paid byte is written, lost to a failed write, or still pending. */
  lemma {:induction false} StepConserves(rate: real, s: System, step: Step, ip: string, d: Direction)
    requires rate > 0.0 && Inv(rate, s) && Enabled(s, step)
    ensures Pending(s, ip, d) + GrantedBy(rate, s, step, ip, d)
            == Pending(Apply(rate, s, step), ip, d) + WrittenBy(s, step, ip, d) + LostBy(s, step, ip, d)
  {
    hide Connected, Polled, Disconnected, SetFlow, Asked, Pending, Entries, Levels;
    match step
    case Pass(dt) => PassPending(s, dt, ip, d);
    case Connect(c, jp) => ConnectPending(rate, s, c, jp, ip, d);
    case Poll(c, e, n) => PollPending(rate, s, c, e, n, ip, d);
    case Write(c, e) => PendingSet(s, c, e, Flow(0, false), ip, d);
    case WriteFails(c, e, taken) => PendingSet(s, c, e, Flow(0, true), ip, d);
    case Stop(c, e) => PendingSet(s, c, e, Flow(0, true), ip, d);
    case Disconnect(c) => DisconnectPending(s, c, ip, d);
  }

  lemma PassPending(s: System, dt: real, ip: string, d: Direction)
    ensures Pending(s.(now := s.now + dt), ip, d) == Pending(s, ip, d)
  {
    assert PendingOf(s.(now := s.now + dt), ip, d) == PendingOf(s, ip, d);
  }

  /** Conservation over a whole run. */
  lemma {:induction false} RunConserves(rate: real, s: System, steps: seq<Step>, ip: string, d: Direction)
    requires rate > 0.0 && Inv(rate, s) && Valid(rate, s, steps)
    ensures Pending(s, ip, d) + GrantTotal(rate, s, steps, ip, d)
            == Pending(Exec(rate, s, steps), ip, d) + Written(rate, s, steps, ip, d) + Lost(rate, s, steps, ip, d)
    decreases |steps|
  {
    if steps != [] {
      StepInv(rate, s, steps[0]);
      StepConserves(rate, s, steps[0], ip, d);
      hide Pending, Apply, Inv;
      RunConserves(rate, Apply(rate, s, steps[0]), steps[1..], ip, d);
    }
  }

  /** Whole-run bound on grants, for every interleaving from every reachable
      state: k evictions are worth k more bursts. */
  lemma {:induction false} GrantBound(rate: real, s: System, steps: seq<Step>, ip: string, d: Direction)
    requires rate > 0.0 && Inv(rate, s) && Valid(rate, s, steps)
    ensures s.now <= Exec(rate, s, steps).now
    ensures GrantTotal(rate, s, steps, ip, d) as real + Avail(rate, Exec(rate, s, steps), ip, d)
            <= Avail(rate, s, ip, d) + Earned(rate, Exec(rate, s, steps).now - s.now)
               + Worth(Evictions(rate, s, steps, ip), BurstFor(rate))
    decreases |steps|
  {
    NoTimeNoWorth(rate);
    hide Earned, Avail, Apply, Inv, BurstFor, GrantedBy, EvictedBy, Enabled, Worth;
    if steps != [] {
      var m := Apply(rate, s, steps[0]);
      StepInv(rate, s, steps[0]);
      StepBound(rate, s, steps[0], ip, d);
      GrantBound(rate, m, steps[1..], ip, d);
      EarnedAdds(rate, s.now, m.now, Exec(rate, m, steps[1..]).now);
      WorthAdds(EvictedBy(s, steps[0], ip), Evictions(rate, m, steps[1..], ip), BurstFor(rate));
    }
  }

  /** A write may fail after any part of the bytes paid for; the rest is lost, and
      the copy loop ends. */
  lemma {:induction false} WriteMayFail(rate: real, s: System, c: nat, d: Direction, taken: nat)
    requires c in s.conns && !FlowOf(s, c, d).done && 0 < FlowOf(s, c, d).pending && taken <= FlowOf(s, c, d).pending
    ensures var step, ip := WriteFails(c, d, taken), s.conns[c].ip;
            && Enabled(s, step) && WrittenBy(s, step, ip, d) == taken
            && LostBy(s, step, ip, d) == FlowOf(s, c, d).pending - taken
            && FlowOf(Apply(rate, s, step), c, d) == Flow(0, true)
  {}

  // ---- creations and evictions alternate ----

  function Present(s: System, ip: string): nat {
    if ip in s.perIP then 1 else 0
  }

  lemma SameEntriesSteps(rate: real, s: System, step: Step)
    requires Enabled(s, step) && !step.Connect? && !step.Disconnect?
    ensures Apply(rate, s, step).perIP == s.perIP
  {
    hide Asked;
  }

  lemma StepCounts(rate: real, s: System, step: Step, ip: string)
    requires Inv(rate, s)
    ensures CreatedBy(s, step, ip) + Present(s, ip) == EvictedBy(s, step, ip) + Present(Apply(rate, s, step), ip)
  {
    hide Counts, Levels, Flows, Asked, BurstFor;
    if Enabled(s, step) && !step.Connect? && !step.Disconnect? {
      SameEntriesSteps(rate, s, step);
      hide Apply;
    }
  }

  /** Over a run, an address gets as many entries as it loses, but for the one it
      may begin or end with. */
  lemma {:induction false} RunCounts(rate: real, s: System, steps: seq<Step>, ip: string)
    requires rate > 0.0 && Inv(rate, s)
    ensures Creations(rate, s, steps, ip) + Present(s, ip)
            == Evictions(rate, s, steps, ip) + Present(Exec(rate, s, steps), ip)
    decreases |steps|
  {
    if steps != [] {
      hide Inv, Apply, CreatedBy, EvictedBy, Present;
      StepInv(rate, s, steps[0]);
      StepCounts(rate, s, steps[0], ip);
      RunCounts(rate, Apply(rate, s, steps[0]), steps[1..], ip);
    }
  }
}
