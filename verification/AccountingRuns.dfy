/** Lifetime totals over whole runs of the node: traffic, counter resets, ticks
    that succeed or fail, and process restarts from the saved totals. */
module AccountingRuns {
  import opened Traffic
  import A = Accounting

  /** `carried` is the history of bytes that really passed; nothing in the
      program knows it. */
  datatype World = World(
    running: bool,
    tracked: set<string>,
    counters: Snapshot,
    last: Snapshot,
    recorded: Snapshot,
    saved: Snapshot,
    carried: Snapshot)

  datatype Step =
    | Carry(user: string, bytes: Counter)
    | Restart
    | Halt
    | Tick(save: bool)
    | Missed
    | Save
    | Reboot(ids: set<string>, load: bool, save: bool)

  function Raw(m: Snapshot): map<string, (int, int)> {
    map id | id in m :: (m[id].up, m[id].down)
  }

  /** XrayRuntime.Stats: without a stats manager it reports nobody. */
  function Report(w: World): Snapshot {
    if w.running then Reported(w.tracked, Raw(w.counters)) else map[]
  }

  function Add(m: Snapshot, u: string, c: Counter): Snapshot {
    m[u := Of(m, u).Plus(c)]
  }

  function Ticked(w: World, save: bool): World {
    var now := A.Credit(w.recorded, Deltas(w.last, Report(w)));
    w.(last := Report(w), recorded := now, saved := if save then now else w.saved)
  }

  function Apply(w: World, s: Step): World {
    match s
    case Carry(u, c) =>
      w.(carried := Add(w.carried, u, c), counters := if w.running then Add(w.counters, u, c) else w.counters)
    case Restart => w.(running := true, counters := map[])
    case Halt => w.(running := false, counters := map[])
    case Tick(save) => Ticked(w, save)
    case Missed => w
    case Save => w.(saved := w.recorded)
    case Reboot(ids, load, save) =>
      var start := if load then w.saved else map[];
      w.(running := true, tracked := ids, counters := map[], last := map[], recorded := start,
         saved := if save then start else w.saved)
  }

  ghost function Exec(w: World, steps: seq<Step>): World {
    if steps == [] then w else Apply(Exec(w, steps[..|steps| - 1]), steps[|steps| - 1])
  }

  /** A node that has just started on stored totals. */
  function Fresh(ids: set<string>, base: Snapshot): World {
    World(true, ids, map[], map[], base, base, map[])
  }

  // ----- One user's share of the state -----

  /** `seen` is what a tick would see of the user. */
  datatype Share = Share(running: bool, tracked: bool, counter: Counter, last: Counter,
                         recorded: Counter, saved: Counter, carried: Counter) {
    function Seen(): Counter { if running && tracked then counter else ZERO }
  }

  function ShareOf(w: World, u: string): Share {
    Share(w.running, u in w.tracked, Of(w.counters, u), Of(w.last, u),
          Of(w.recorded, u), Of(w.saved, u), Of(w.carried, u))
  }

  function Next(x: Share, s: Step, u: string): Share {
    match s
    case Carry(v, c) =>
      if u != v then x
      else x.(carried := x.carried.Plus(c), counter := if x.running then x.counter.Plus(c) else x.counter)
    case Restart => x.(running := true, counter := ZERO)
    case Halt => x.(running := false, counter := ZERO)
    case Tick(save) =>
      var now := x.recorded.Plus(Delta(x.last, x.Seen()));
      x.(last := x.Seen(), recorded := now, saved := if save then now else x.saved)
    case Missed => x
    case Save => x.(saved := x.recorded)
    case Reboot(ids, load, save) =>
      var start := if load then x.saved else ZERO;
      x.(running := true, tracked := u in ids, counter := ZERO, last := ZERO, recorded := start,
         saved := if save then start else x.saved)
  }

  lemma AddAt(m: Snapshot, u: string, c: Counter, v: string)
    ensures Of(Add(m, u, c), v) == if u == v then Of(m, u).Plus(c) else Of(m, v)
  {}

  lemma SeenIs(w: World, u: string)
    ensures Of(Report(w), u) == ShareOf(w, u).Seen()
  {}

  lemma DeltasAt(last: Snapshot, cur: Snapshot, u: string)
    ensures Of(Deltas(last, cur), u) == Delta(Of(last, u), Of(cur, u))
  {}

  lemma {:induction false} CreditAt(m: Snapshot, d: Snapshot, u: string)
    ensures Of(A.Credit(m, d), u) == Of(m, u).Plus(Of(d, u))
  {
    hide Of;
    if u in m.Keys + d.Keys {
      assert u in A.Credit(m, d) && A.Credit(m, d)[u] == Of(m, u).Plus(Of(d, u));
      Present(A.Credit(m, d), u);
    } else {
      Absent(m, u);
      Absent(d, u);
      Absent(A.Credit(m, d), u);
    }
  }

  lemma Present(m: Snapshot, u: string)
    requires u in m
    ensures Of(m, u) == m[u]
  {}

  lemma Absent(m: Snapshot, u: string)
    requires u !in m
    ensures Of(m, u) == ZERO
  {}

  lemma CarryShare(w: World, s: Step, u: string)
    requires s.Carry?
    ensures ShareOf(Apply(w, s), u) == Next(ShareOf(w, u), s, u)
  {
    hide Of, Add;
    AddAt(w.carried, s.user, s.bytes, u);
    AddAt(w.counters, s.user, s.bytes, u);
  }

  lemma {:induction false} TickShare(w: World, save: bool, u: string)
    ensures ShareOf(Ticked(w, save), u) == Next(ShareOf(w, u), Tick(save), u)
  {
    SeenIs(w, u);
    DeltasAt(w.last, Report(w), u);
    CreditAt(w.recorded, Deltas(w.last, Report(w)), u);
    hide Of, Report, A.Credit, Deltas, Delta, Apply;
  }

  /** Each user's share moves on its own. */
  lemma {:induction false} OwnShare(w: World, s: Step, u: string)
    ensures ShareOf(Apply(w, s), u) == Next(ShareOf(w, u), s, u)
  {
    if s.Carry? {
      CarryShare(w, s, u);
    } else if s.Tick? {
      TickShare(w, s.save, u);
    } else {
      Absent(map[], u);
      hide Of, A.Credit, Deltas, Report, Add;
    }
  }

  predicate AtMost(a: Counter, b: Counter) {
    a.up <= b.up && a.down <= b.down
  }

  /** What is recorded, together with what the next tick would add, and what is
      saved, are covered by the stored totals and the bytes carried. */
  predicate Covered(x: Share, base: Counter) {
    && AtMost(x.recorded.Plus(Delta(x.last, x.Seen())), base.Plus(x.carried))
    && AtMost(x.saved, base.Plus(x.carried))
  }

  lemma NextCovered(x: Share, s: Step, u: string, base: Counter)
    requires Covered(x, base)
    ensures Covered(Next(x, s, u), base)
  {}

  lemma {:induction false} RunCovered(ids: set<string>, base: Snapshot, steps: seq<Step>, u: string)
    ensures Covered(ShareOf(Exec(Fresh(ids, base), steps), u), Of(base, u))
  {
    var w := Fresh(ids, base);
    if steps != [] {
      RunCovered(ids, base, steps[..|steps| - 1], u);
      OwnShare(Exec(w, steps[..|steps| - 1]), steps[|steps| - 1], u);
      NextCovered(ShareOf(Exec(w, steps[..|steps| - 1]), u), steps[|steps| - 1], u, Of(base, u));
      hide Covered, ShareOf, Apply, Next;
    }
  }

  /** Totals never over-count, in memory or on disk, whatever happens. */
  lemma {:induction false} NeverOverCounts(ids: set<string>, base: Snapshot, steps: seq<Step>, u: string)
    ensures var w := Exec(Fresh(ids, base), steps);
            var truth := Of(base, u).Plus(Of(w.carried, u));
            AtMost(Of(w.recorded, u), truth) && AtMost(Of(w.saved, u), truth)
  {
    RunCovered(ids, base, steps, u);
  }

  /** Nothing in the steps resets the counters. */
  ghost predicate NoReset(steps: seq<Step>) {
    forall i | 0 <= i < |steps| :: !Resets(steps[i])
  }

  predicate Resets(s: Step) {
    s.Restart? || s.Halt? || s.Reboot?
  }

  /** The bytes carried up to the last tick that succeeded. */
  ghost function AtLastTick(w: World, steps: seq<Step>): Snapshot {
    if steps == [] then w.carried
    else if steps[|steps| - 1].Tick? then Exec(w, steps).carried
    else AtLastTick(w, steps[..|steps| - 1])
  }

  /** Between ticks of a node that has not been reset since it started. */
  predicate Steady(x: Share, base: Counter, was: Counter) {
    && x.running && x.tracked && x.counter == x.carried && x.last == was
    && AtMost(was, x.carried) && x.recorded == base.Plus(was)
  }

  lemma NextSteady(x: Share, s: Step, u: string, base: Counter, was: Counter)
    requires Steady(x, base, was) && !Resets(s)
    ensures Steady(Next(x, s, u), base, if s.Tick? then x.carried else was)
  {}

  lemma {:induction false} StartSteady(ids: set<string>, base: Snapshot, u: string)
    requires u in ids
    ensures Steady(ShareOf(Fresh(ids, base), u), Of(base, u), ZERO)
  {
    Absent(map[], u);
    A.PlusZero(Of(base, u));
    hide Of;
  }

  lemma LastTickNext(w: World, steps: seq<Step>, u: string)
    requires steps != []
    ensures var before, s := steps[..|steps| - 1], steps[|steps| - 1];
            Of(AtLastTick(w, steps), u)
            == if s.Tick? then ShareOf(Exec(w, before), u).carried else Of(AtLastTick(w, before), u)
  {
    hide Of;
  }

  lemma {:induction false} RunSteady(ids: set<string>, base: Snapshot, steps: seq<Step>, u: string)
    requires u in ids && NoReset(steps)
    ensures Steady(ShareOf(Exec(Fresh(ids, base), steps), u), Of(base, u), Of(AtLastTick(Fresh(ids, base), steps), u))
  {
    var start := Fresh(ids, base);
    if steps == [] {
      StartSteady(ids, base, u);
    } else {
      hide Steady, Apply, Next, Of, Resets, ShareOf, AtLastTick;
      var before, s := steps[..|steps| - 1], steps[|steps| - 1];
      LastTickNext(start, steps, u);
      RunSteady(ids, base, before, u);
      OwnShare(Exec(start, before), s, u);
      NextSteady(ShareOf(Exec(start, before), u), s, u, Of(base, u), Of(AtLastTick(start, before), u));
    }
  }

  /** The bytes that the last save knew of. */
  ghost function AtLastSave(w: World, steps: seq<Step>): Snapshot {
    if steps == [] then w.carried
    else if Saves(steps[|steps| - 1]) then AtLastTick(w, steps)
    else AtLastSave(w, steps[..|steps| - 1])
  }

  predicate Saves(s: Step) {
    s.Save? || (s.Tick? && s.save)
  }

  lemma SavedStep(w: World, s: Step)
    requires !Resets(s)
    ensures Apply(w, s).saved == if Saves(s) then Apply(w, s).recorded else w.saved
  {}

  lemma {:induction false} RunSaved(ids: set<string>, base: Snapshot, steps: seq<Step>, u: string)
    requires u in ids && NoReset(steps)
    ensures Of(Exec(Fresh(ids, base), steps).saved, u) == Of(base, u).Plus(Of(AtLastSave(Fresh(ids, base), steps), u))
  {
    var start := Fresh(ids, base);
    if steps == [] {
      StartSteady(ids, base, u);
      Absent(map[], u);
      hide Of;
    } else {
      var before, s := steps[..|steps| - 1], steps[|steps| - 1];
      RunSaved(ids, base, before, u);
      RunSteady(ids, base, steps, u);
      SavedStep(Exec(start, before), s);
      hide Of, Apply, AtLastTick, Resets, Saves;
    }
  }

  /** With no reset, a tracked user's totals are exactly the stored ones plus
      the bytes carried by the last successful tick; those on disk, plus the
      bytes carried by the last such tick before the last save. */
  lemma {:induction false} ExactWithoutReset(ids: set<string>, base: Snapshot, steps: seq<Step>, u: string)
    requires u in ids && NoReset(steps)
    ensures var start, w := Fresh(ids, base), Exec(Fresh(ids, base), steps);
            && Of(w.recorded, u) == Of(base, u).Plus(Of(AtLastTick(start, steps), u))
            && Of(w.saved, u) == Of(base, u).Plus(Of(AtLastSave(start, steps), u))
  {
    hide Of, AtLastTick, AtLastSave, Exec, NoReset;
    RunSteady(ids, base, steps, u);
    RunSaved(ids, base, steps, u);
  }

  // ----- Between two ticks -----

  function BytesFor(s: Step, u: string): Counter {
    if s.Carry? && s.user == u then s.bytes else ZERO
  }

  /** The bytes a user carried in the steps. */
  function CarriedIn(steps: seq<Step>, u: string): Counter {
    if steps == [] then ZERO else CarriedIn(steps[..|steps| - 1], u).Plus(BytesFor(steps[|steps| - 1], u))
  }

  /** The bytes a user carried after the last reset in the steps. */
  function SinceReset(steps: seq<Step>, u: string): Counter {
    if steps == [] || Resets(steps[|steps| - 1]) then ZERO
    else SinceReset(steps[..|steps| - 1], u).Plus(BytesFor(steps[|steps| - 1], u))
  }

  ghost predicate NoTick(steps: seq<Step>) {
    forall i | 0 <= i < |steps| :: !steps[i].Tick? && !steps[i].Reboot?
  }

  /** `x` has been read last at `from`; `all` bytes passed since, `late` of them
      after the last reset. */
  predicate Running(from: Share, x: Share, steady: bool, all: Counter, late: Counter) {
    && x.tracked && x.last == from.last && x.recorded == from.recorded && AtMost(late, all)
    && (steady && from.running ==> x.running && x.counter == from.last.Plus(all))
    && (steady && !from.running ==> !x.running)
    && (!steady && x.running ==> x.counter == late)
  }

  lemma NextRunning(from: Share, x: Share, s: Step, u: string, steady: bool, all: Counter, late: Counter)
    requires Running(from, x, steady, all, late) && !s.Tick? && !s.Reboot?
    ensures Running(from, Next(x, s, u), steady && !Resets(s), all.Plus(BytesFor(s, u)),
                    if Resets(s) then ZERO else late.Plus(BytesFor(s, u)))
  {}

  lemma SnocReset(steps: seq<Step>)
    requires steps != []
    ensures var before, s := steps[..|steps| - 1], steps[|steps| - 1];
            && (NoReset(steps) <==> NoReset(before) && !Resets(s))
            && (NoTick(steps) <==> NoTick(before) && !s.Tick? && !s.Reboot?)
  {
    assert steps == steps[..|steps| - 1] + [steps[|steps| - 1]];
  }

  lemma {:induction false} RunRunning(w: World, steps: seq<Step>, u: string)
    requires NoTick(steps) && u in w.tracked && (w.running ==> Of(w.counters, u) == Of(w.last, u))
    ensures Running(ShareOf(w, u), ShareOf(Exec(w, steps), u),
                    NoReset(steps), CarriedIn(steps, u), SinceReset(steps, u))
  {
    hide Running, Apply, Next, ShareOf, BytesFor, NoReset, NoTick, Resets, CarriedIn, SinceReset, Of;
    if steps == [] {
      NothingYet(w, u);
    } else {
      BytesSnoc(steps, u);
      SnocReset(steps);
      var from, before, s := ShareOf(w, u), steps[..|steps| - 1], steps[|steps| - 1];
      RunRunning(w, before, u);
      OwnShare(Exec(w, before), s, u);
      NextRunning(from, ShareOf(Exec(w, before), u), s, u,
                  NoReset(before), CarriedIn(before, u), SinceReset(before, u));
    }
  }

  lemma NothingYet(w: World, u: string)
    requires u in w.tracked && (w.running ==> Of(w.counters, u) == Of(w.last, u))
    ensures NoReset([]) && CarriedIn([], u) == SinceReset([], u) == ZERO
    ensures Running(ShareOf(w, u), ShareOf(w, u), true, ZERO, ZERO)
  {
    A.PlusZero(Of(w.last, u));
    hide Of;
  }

  lemma BytesSnoc(steps: seq<Step>, u: string)
    requires steps != []
    ensures var before, s := steps[..|steps| - 1], steps[|steps| - 1];
            && CarriedIn(steps, u) == CarriedIn(before, u).Plus(BytesFor(s, u))
            && SinceReset(steps, u) == if Resets(s) then ZERO else SinceReset(before, u).Plus(BytesFor(s, u))
  {
    hide BytesFor, Resets;
  }

  /** When a tick records exactly the bytes carried since the one before.  A
      stopped xray reports nobody. */
  predicate Exact(running: bool, prev: nat, noReset: bool, all: nat, late: nat) {
    if !running then all == 0
    else noReset || (late == all && (late < prev || prev == 0))
  }

  /** Between any two ticks, what the second adds is exact if and only if xray is
      stopped then and nothing was carried, or it runs and has not been reset
      since, or all the bytes passed after the last reset and the counter is
      still below the previous reading, or that was zero.  Otherwise it adds too
      little. */
  lemma {:induction false} ExactAcrossResets(w: World, first: bool, steps: seq<Step>, second: bool, u: string)
    requires u in w.tracked && NoTick(steps)
    ensures var a, b := Ticked(w, first), Ticked(Exec(Ticked(w, first), steps), second);
            var running, prev := Exec(a, steps).running, Of(a.last, u);
            var all, late := CarriedIn(steps, u), SinceReset(steps, u);
            && AtMost(Of(b.recorded, u), Of(a.recorded, u).Plus(all))
            && (Of(b.recorded, u).up == Of(a.recorded, u).up + all.up
                <==> Exact(running, prev.up, NoReset(steps), all.up, late.up))
            && (Of(b.recorded, u).down == Of(a.recorded, u).down + all.down
                <==> Exact(running, prev.down, NoReset(steps), all.down, late.down))
  {
    var a := Ticked(w, first);
    var mid := Exec(a, steps);
    TickShare(w, first, u);
    TickShare(mid, second, u);
    RunRunning(a, steps, u);
    TickAdds(ShareOf(a, u), ShareOf(mid, u), NoReset(steps), CarriedIn(steps, u), SinceReset(steps, u), second, u);
    hide Of, Ticked, Exec, Exact, Running, Next, CarriedIn, SinceReset;
  }

  lemma TickAdds(from: Share, x: Share, steady: bool, all: Counter, late: Counter, save: bool, u: string)
    requires Running(from, x, steady, all, late)
    ensures var r := Next(x, Tick(save), u).recorded;
            && AtMost(r, from.recorded.Plus(all))
            && (r.up == from.recorded.up + all.up <==> Exact(x.running, from.last.up, steady, all.up, late.up))
            && (r.down == from.recorded.down + all.down
                <==> Exact(x.running, from.last.down, steady, all.down, late.down))
  {}

  /** A restart of the process: the totals on disk are taken over if they can be
      read, and counting starts anew. */
  lemma {:induction false} RebootRestores(w: World, ids: set<string>, load: bool, save: bool)
    ensures var t := Apply(w, Reboot(ids, load, save));
            && t.recorded == (if load then w.saved else map[])
            && t.last == map[] && t.counters == map[] && t.running && t.tracked == ids && t.carried == w.carried
            && t.saved == (if save then t.recorded else w.saved)
  {}

  /** After a restart that could read the totals on disk, and without a reset
      since, the next tick leaves exactly those totals plus the bytes carried. */
  lemma {:induction false} RebootThenTick(w: World, ids: set<string>, save: bool, steps: seq<Step>, tick: bool,
                                          u: string)
    requires u in ids && NoTick(steps) && NoReset(steps)
    ensures var t := Ticked(Exec(Apply(w, Reboot(ids, true, save)), steps), tick);
            Of(t.recorded, u) == Of(w.saved, u).Plus(CarriedIn(steps, u))
  {
    var a := Apply(w, Reboot(ids, true, save));
    var mid := Exec(a, steps);
    RebootRestores(w, ids, true, save);
    Absent(map[], u);
    hide Of, Ticked, Exec, Running, Next, CarriedIn, SinceReset, Apply, NoTick, NoReset;
    RunRunning(a, steps, u);
    TickShare(mid, tick, u);
    SteadyTick(ShareOf(a, u), ShareOf(mid, u), CarriedIn(steps, u), SinceReset(steps, u), tick, u);
  }

  lemma SteadyTick(from: Share, x: Share, all: Counter, late: Counter, save: bool, u: string)
    requires Running(from, x, true, all, late) && from.running
    ensures Next(x, Tick(save), u).recorded == from.recorded.Plus(all)
  {}

  lemma ExecSnoc(w: World, steps: seq<Step>, s: Step)
    ensures Exec(w, steps + [s]) == Apply(Exec(w, steps), s)
  {
    assert (steps + [s])[..|steps|] == steps;
    hide Apply;
  }

  /** A reset that goes unnoticed: `c` bytes are read, the counters restart, and
      after `d` bytes, no fewer, the next tick adds `d - c`. */
  lemma ResetUnnoticed(u: string, c: Counter, d: Counter)
    requires AtMost(c, d)
    ensures var w := Exec(Fresh({u}, map[]), [Carry(u, c), Tick(true), Restart, Carry(u, d), Tick(true)]);
            Of(w.carried, u) == c.Plus(d) && Of(w.recorded, u) == d
  {
    var w2 := Apply(Apply(Fresh({u}, map[]), Carry(u, c)), Tick(true));
    FiveSteps(Fresh({u}, map[]), Carry(u, c), Tick(true), Restart, Carry(u, d), Tick(true));
    hide Apply, Exec, Fresh, Of;
    FirstTick(u, c);
    TickAfterReset(w2, u, c, d);
  }

  lemma FirstTick(u: string, c: Counter)
    ensures var x := ShareOf(Apply(Apply(Fresh({u}, map[]), Carry(u, c)), Tick(true)), u);
            x.tracked && x.last == c && x.carried == c && x.recorded == c
  {
    FreshShare(u);
    hide Apply, Next, Fresh, Delta, Of;
    CarryThenTick(Fresh({u}, map[]), c, u);
    DeltaBack(ZERO, c);
  }

  lemma TickAfterReset(w: World, u: string, c: Counter, d: Counter)
    requires AtMost(c, d)
    requires var x := ShareOf(w, u); x.tracked && x.last == c && x.carried == c && x.recorded == c
    ensures var y := ShareOf(Apply(Apply(Apply(w, Restart), Carry(u, d)), Tick(true)), u);
            y.carried == c.Plus(d) && y.recorded == d
  {
    hide Apply, Next, Delta, ShareOf;
    OwnShare(w, Restart, u);
    RestartShare(ShareOf(w, u), u);
    CarryThenTick(Apply(w, Restart), d, u);
    DeltaBack(c, d);
  }

  lemma DeltaBack(c: Counter, d: Counter)
    requires AtMost(c, d)
    ensures c.Plus(Delta(c, d)) == d && ZERO.Plus(d) == d
  {}

  lemma CarryThenTick(w: World, c: Counter, u: string)
    requires var x := ShareOf(w, u); x.running && x.tracked && x.counter == ZERO
    ensures var x, y := ShareOf(w, u), ShareOf(Apply(Apply(w, Carry(u, c)), Tick(true)), u);
            && y.running && y.tracked && y.last == c && y.carried == x.carried.Plus(c)
            && y.recorded == x.recorded.Plus(Delta(x.last, c))
  {
    OwnShare(w, Carry(u, c), u);
    OwnShare(Apply(w, Carry(u, c)), Tick(true), u);
    CarryTick(ShareOf(w, u), c, u);
    hide Apply, Next, Delta, ShareOf;
  }

  /** Ten bytes, a reset, 25 bytes: 35 carried, 25 recorded. */
  lemma TenBytesLost(u: string)
    ensures var w := Exec(Fresh({u}, map[]), [Carry(u, Counter(10, 0)), Tick(true), Restart,
                                             Carry(u, Counter(25, 0)), Tick(true)]);
            Of(w.carried, u).up == 35 && Of(w.recorded, u).up == 25
  {
    hide Exec, Fresh, Of;
    ResetUnnoticed(u, Counter(10, 0), Counter(25, 0));
  }

  lemma RestartShare(x: Share, u: string)
    ensures Next(x, Restart, u) == x.(running := true, counter := ZERO)
  {}

  lemma FreshShare(u: string)
    ensures ShareOf(Fresh({u}, map[]), u) == Share(true, true, ZERO, ZERO, ZERO, ZERO, ZERO)
  {
    Absent(map[], u);
    hide Of;
  }

  /** Right after a start or reset, some bytes and then a tick. */
  lemma CarryTick(x: Share, c: Counter, u: string)
    requires x.running && x.tracked && x.counter == ZERO
    ensures var y := Next(Next(x, Carry(u, c), u), Tick(true), u);
            && y.running && y.tracked && y.last == c && y.carried == x.carried.Plus(c)
            && y.recorded == x.recorded.Plus(Delta(x.last, c))
  {
    assert ZERO.Plus(c) == c;
    hide Delta;
  }

  lemma FiveSteps(w: World, a: Step, b: Step, c: Step, d: Step, e: Step)
    ensures Exec(w, [a, b, c, d, e]) == Apply(Apply(Apply(Apply(Apply(w, a), b), c), d), e)
  {
    assert Exec(w, []) == w;
    hide Apply, Exec;
    var s1, s2 := [] + [a], [] + [a] + [b];
    var s3, s4 := s2 + [c], s2 + [c] + [d];
    assert s4 + [e] == [a, b, c, d, e];
    ExecSnoc(w, [], a);
    ExecSnoc(w, s1, b);
    ExecSnoc(w, s2, c);
    ExecSnoc(w, s3, d);
    ExecSnoc(w, s4, e);
  }
}
