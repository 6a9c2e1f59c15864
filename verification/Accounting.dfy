/** The stats tick of runNode: src/internal/commands/node.go:176-216. */
module Accounting {
  import opened Options
  import opened Traffic
  import opened SlidingWindow
  import opened Sums

  function Ups(m: Snapshot): map<string, nat> {
    map k | k in m :: m[k].up
  }

  function Downs(m: Snapshot): map<string, nat> {
    map k | k in m :: m[k].down
  }

  /** Both directions, summed over all keys. */
  ghost function Sum(m: Snapshot): Counter {
    Counter(Total(Ups(m)), Total(Downs(m)))
  }

  lemma SumReplace(m: Snapshot, k: string, c: Counter)
    ensures Sum(m[k := c]).up + Of(m, k).up == Sum(m).up + c.up
    ensures Sum(m[k := c]).down + Of(m, k).down == Sum(m).down + c.down
  {
    assert Ups(m[k := c]) == Ups(m)[k := c.up] && Downs(m[k := c]) == Downs(m)[k := c.down];
    Replace(Ups(m), k, c.up);
    Replace(Downs(m), k, c.down);
  }

  lemma SumCredited(m: Snapshot, k: string, c: Counter)
    ensures Sum(m[k := Of(m, k).Plus(c)]) == Sum(m).Plus(c)
  {
    hide Sum;
    SumReplace(m, k, Of(m, k).Plus(c));
  }

  lemma SumAdded(m: Snapshot, k: string, c: Counter)
    requires k !in m
    ensures Sum(m[k := c]) == Sum(m).Plus(c)
  {
    hide Sum;
    SumReplace(m, k, c);
  }

  /** One more delta taken into account. */
  lemma SumNext(d: Snapshot, todo: set<string>, k: string)
    requires k in todo && todo <= d.Keys
    ensures d - (todo - {k}) == (d - todo)[k := d[k]]
    ensures Sum(d - (todo - {k})) == Sum(d - todo).Plus(d[k])
  {
    assert d - (todo - {k}) == (d - todo)[k := d[k]];
    SumAdded(d - todo, k, d[k]);
  }

  /** Each key credited with its delta; other entries stay as they are. */
  function Credit(m: Snapshot, d: Snapshot): Snapshot {
    map k | k in m.Keys + d.Keys :: Of(m, k).Plus(Of(d, k))
  }

  /** The display name of an inbound tag. */
  function LabelOf(labels: map<string, string>, tag: string): string {
    if tag in labels && labels[tag] != "" then labels[tag] else tag
  }

  /** The deltas of the tags that share a display name. */
  function OnLabel(labels: map<string, string>, d: Snapshot, l: string): Snapshot {
    map t | t in d && LabelOf(labels, t) == l :: d[t]
  }

  lemma OnLabelNext(labels: map<string, string>, d: Snapshot, todo: set<string>, k: string, l: string)
    requires k in todo && todo <= d.Keys
    ensures Sum(OnLabel(labels, d - (todo - {k}), l))
            == if LabelOf(labels, k) == l then Sum(OnLabel(labels, d - todo, l)).Plus(d[k])
               else Sum(OnLabel(labels, d - todo, l))
  {
    hide LabelOf;
    var before, after := OnLabel(labels, d - todo, l), OnLabel(labels, d - (todo - {k}), l);
    if LabelOf(labels, k) == l {
      assert after == before[k := d[k]];
      SumAdded(before, k, d[k]);
    } else {
      assert after == before;
    }
  }

  ghost function Names(labels: map<string, string>, d: Snapshot): set<string> {
    set t | t in d :: LabelOf(labels, t)
  }

  /** Every display name credited with the deltas of its tags. */
  ghost function CreditLabels(labels: map<string, string>, m: Snapshot, d: Snapshot): Snapshot {
    map l | l in m.Keys + Names(labels, d) :: Of(m, l).Plus(Sum(OnLabel(labels, d, l)))
  }

  /** The users with traffic in a tick. */
  function ActiveUsers(d: Snapshot): set<string> {
    set u | u in d && d[u].Total() > 0
  }

  /** What the loop over users changes. */
  datatype Tally = Tally(up: nat, down: nat, bytes: nat, perClient: Snapshot, last: map<string, int>)

  /** The state after the users in `done`. */
  ghost function TallyOf(t: Tally, done: Snapshot, now: int): Tally {
    Tally(t.up + Sum(done).up, t.down + Sum(done).down, t.bytes + Sum(done).up + Sum(done).down,
          Credit(t.perClient, done), Touch(t.last, Active(now, ActiveUsers(done))))
  }

  /** One turn of the loop. */
  function AddUser(t: Tally, u: string, d: Counter, now: int): Tally {
    Tally(t.up + d.up, t.down + d.down, t.bytes + d.Total(),
          t.perClient[u := Of(t.perClient, u).Plus(d)],
          if d.Total() > 0 then t.last[u := now] else t.last)
  }

  lemma {:induction false} TallyNext(t: Tally, d: Snapshot, todo: set<string>, u: string, now: int)
    requires u in todo && todo <= d.Keys
    ensures TallyOf(t, d - (todo - {u}), now) == AddUser(TallyOf(t, d - todo, now), u, d[u], now)
  {
    SumNext(d, todo, u);
    CreditNext(t.perClient, d - todo, u, d[u]);
    TouchNext(t.last, now, d - todo, u, d[u]);
    hide Sum, Credit, Touch, ActiveUsers;
  }

  lemma TallyStart(t: Tally, d: Snapshot, now: int)
    ensures TallyOf(t, d - d.Keys, now) == t
  {
    assert d - d.Keys == map[];
    assert Credit(t.perClient, map[]) == t.perClient;
    assert ActiveUsers(map[]) == {} && Touch(t.last, Active(now, {})) == t.last;
  }

  lemma {:induction false} CreditLabelsAt(labels: map<string, string>, m: Snapshot, d: Snapshot, l: string)
    ensures Of(CreditLabels(labels, m, d), l) == Of(m, l).Plus(Sum(OnLabel(labels, d, l)))
  {
    CreditLabelsIn(labels, m, d, l);
    hide LabelOf, Sum, OnLabel, Names, CreditLabels;
    if l !in Names(labels, d) {
      NoTags(labels, d, l);
      PlusZero(Of(m, l));
    }
  }

  lemma PlusZero(c: Counter)
    ensures c.Plus(ZERO) == c
  {}

  lemma CreditLabelsIn(labels: map<string, string>, m: Snapshot, d: Snapshot, l: string)
    ensures l in CreditLabels(labels, m, d) <==> l in m || l in Names(labels, d)
    ensures l in CreditLabels(labels, m, d) ==>
              CreditLabels(labels, m, d)[l] == Of(m, l).Plus(Sum(OnLabel(labels, d, l)))
  {
    hide LabelOf, Sum, OnLabel, Names, Of;
  }

  lemma LabelKeys(labels: map<string, string>, m: Snapshot, d: Snapshot, todo: set<string>, k: string)
    requires k in todo && todo <= d.Keys
    ensures CreditLabels(labels, m, d - (todo - {k})).Keys
            == CreditLabels(labels, m, d - todo).Keys + {LabelOf(labels, k)}
  {
    hide LabelOf, Sum, OnLabel;
    var was, now := d - todo, d - (todo - {k});
    assert now.Keys == was.Keys + {k};
  }

  lemma SameSnapshot(a: Snapshot, b: Snapshot)
    requires a.Keys == b.Keys && forall l | l in a :: Of(a, l) == Of(b, l)
    ensures a == b
  {
    assert forall l | l in a :: a[l] == Of(a, l) && b[l] == Of(b, l);
  }

  lemma LabelsNext(labels: map<string, string>, m: Snapshot, d: Snapshot, todo: set<string>, k: string)
    requires k in todo && todo <= d.Keys
    ensures var l, was := LabelOf(labels, k), CreditLabels(labels, m, d - todo);
            CreditLabels(labels, m, d - (todo - {k})) == was[l := Of(was, l).Plus(d[k])]
  {
    hide LabelOf, Sum, OnLabel, CreditLabels;
    var name := LabelOf(labels, k);
    var was, now := CreditLabels(labels, m, d - todo), CreditLabels(labels, m, d - (todo - {k}));
    LabelKeys(labels, m, d, todo, k);
    forall l | l in now ensures Of(now, l) == if l == name then Of(was, l).Plus(d[k]) else Of(was, l) {
      OnLabelNext(labels, d, todo, k, l);
      CreditLabelsAt(labels, m, d - todo, l);
      CreditLabelsAt(labels, m, d - (todo - {k}), l);
    }
    SameSnapshot(now, was[name := Of(was, name).Plus(d[k])]);
  }

  lemma NoTags(labels: map<string, string>, d: Snapshot, l: string)
    requires l !in Names(labels, d)
    ensures Sum(OnLabel(labels, d, l)) == ZERO
  {
    hide LabelOf, Sum;
    assert OnLabel(labels, d, l) == map[];
    CreditStart(map[]);
  }

  lemma LabelsStart(labels: map<string, string>, m: Snapshot, d: Snapshot)
    ensures CreditLabels(labels, m, d - d.Keys) == m
  {
    hide LabelOf, Sum, OnLabel, Of;
    assert d - d.Keys == map[];
    forall l | l in m ensures CreditLabels(labels, m, map[])[l] == m[l] {
      NoTags(labels, map[], l);
      NothingAdded(m, l);
    }
  }

  lemma NothingAdded(m: Snapshot, l: string)
    requires l in m
    ensures Of(m, l).Plus(ZERO) == m[l]
  {}

  lemma Rejoin(d: Snapshot, k: string)
    requires k in d
    ensures (d - {k})[k := d[k]] == d
  {}

  lemma CreditStart(m: Snapshot)
    ensures Credit(m, map[]) == m && Sum(map[]) == ZERO
  {
    assert Credit(m, map[]) == m;
  }

  /** Conservation: crediting adds up to the deltas, whatever the order of the
      map. */
  lemma {:induction false} CreditConserves(m: Snapshot, d: Snapshot)
    ensures Sum(Credit(m, d)) == Sum(m).Plus(Sum(d))
    decreases |d|
  {
    hide Sum, Credit;
    if d == map[] {
      CreditStart(m);
      PlusZero(Sum(m));
    } else {
      var k :| k in d;
      Rejoin(d, k);
      CreditConserves(m, d - {k});
      CreditStep(m, d - {k}, k, d[k]);
    }
  }

  lemma {:induction false} CreditStep(m: Snapshot, done: Snapshot, k: string, c: Counter)
    requires k !in done && Sum(Credit(m, done)) == Sum(m).Plus(Sum(done))
    ensures Sum(Credit(m, done[k := c])) == Sum(m).Plus(Sum(done[k := c]))
  {
    hide Sum, Credit;
    CreditNext(m, done, k, c);
    SumCredited(Credit(m, done), k, c);
    SumAdded(done, k, c);
  }

  /** The same for inbounds, though several tags may share a display name. */
  lemma {:induction false} LabelsConserve(labels: map<string, string>, m: Snapshot, d: Snapshot, todo: set<string>)
    requires todo <= d.Keys
    ensures Sum(CreditLabels(labels, m, d - todo)) == Sum(m).Plus(Sum(d - todo))
    decreases |d.Keys - todo|
  {
    hide Sum, CreditLabels;
    if forall k | k in d :: k in todo {
      assert todo == d.Keys;
      LabelsStart(labels, m, d);
      EmptySum(d);
    } else {
      var k :| k in d && k !in todo;
      var more := todo + {k};
      assert more - {k} == todo;
      LabelsConserve(labels, m, d, more);
      LabelsNext(labels, m, d, more, k);
      SumNext(d, more, k);
      SumCredited(CreditLabels(labels, m, d - more), LabelOf(labels, k), d[k]);
    }
  }

  /** Crediting inbounds: each display name gains the deltas of its own tags, and
      all names together gain all deltas. */
  lemma {:induction false} InboundsConserve(labels: map<string, string>, m: Snapshot, d: Snapshot, l: string)
    ensures Sum(CreditLabels(labels, m, d)) == Sum(m).Plus(Sum(d))
    ensures Of(CreditLabels(labels, m, d), l) == Of(m, l).Plus(Sum(OnLabel(labels, d, l)))
  {
    hide Sum, CreditLabels, OnLabel, Of;
    LabelsConserve(labels, m, d, {});
    assert d - {} == d;
    CreditLabelsAt(labels, m, d, l);
  }

  /** One inbound: its display name gains its bytes; without one, or with an empty
      one, its tag does. */
  lemma {:induction false} OneInbound(labels: map<string, string>, m: Snapshot, tag: string, c: Counter)
    ensures var name := if tag in labels && labels[tag] != "" then labels[tag] else tag;
            CreditLabels(labels, m, map[tag := c]) == m[name := Of(m, name).Plus(c)]
  {
    var d := map[tag := c];
    assert LabelOf(labels, tag) == if tag in labels && labels[tag] != "" then labels[tag] else tag;
    hide CreditLabels, LabelOf, Of;
    LabelsNext(labels, m, d, {tag}, tag);
    LabelsStart(labels, m, d);
    assert d.Keys == {tag} && {tag} - {tag} == {} && d - {} == d;
  }

  lemma EmptySum(d: Snapshot)
    ensures Sum(d - d.Keys) == ZERO
  {
    assert d - d.Keys == map[];
  }

  class NodeStats {
    const labels: map<string, string>
    const window: LoadWindow
    const activity: Activity
    var lastSnap: Snapshot
    var lastInbound: Snapshot
    var totalUp: nat
    var totalDown: nat
    var perClient: Snapshot
    var perInbound: Snapshot
    var recentBps: real
    var activeClients: nat
    ghost var ticks: seq<Sample>  // all that the load window was fed
    ghost var totals: seq<nat>    // up and down together before each tick, and now

    /** The totals and the load window tell the same story. */
    ghost predicate Logged() reads this, window {
      LoggedTo(totalUp + totalDown)
    }

    ghost predicate LoggedTo(total: nat)
      reads this`ticks, this`totals, this`recentBps, window
    {
      && Cumulates(ticks, totals)
      && totals[|ticks|] == total
      && window.samples == WindowAfter(ticks)
      && (ticks != [] ==> window.samples != [] && recentBps == RateOf(window.samples, ticks[|ticks| - 1].t))
    }

    /** A node starts with the stored totals and no snapshot. */
    constructor (labels: map<string, string>, totalUp: nat, totalDown: nat, perClient: Snapshot, perInbound: Snapshot)
      ensures this.labels == labels && fresh(window) && fresh(activity)
      ensures lastSnap == map[] && lastInbound == map[]
      ensures this.totalUp == totalUp && this.totalDown == totalDown
      ensures this.perClient == perClient && this.perInbound == perInbound
      ensures window.samples == [] && activity.last == map[]
      ensures Logged() && ticks == []
    {
      this.labels := labels;
      window := new LoadWindow();
      activity := new Activity();
      lastSnap, lastInbound := map[], map[];
      this.totalUp, this.totalDown, this.perClient, this.perInbound := totalUp, totalDown, perClient, perInbound;
      recentBps, activeClients := 0.0, 0;
      ticks, totals := [], [totalUp + totalDown];
    }

    ghost function View(bytes: nat): Tally reads this, activity {
      Tally(totalUp, totalDown, bytes, perClient, activity.last)
    }

    /** Credit the users, in whatever order the map yields them. */
    method CreditClients(deltas: Snapshot, now: int) returns (tickBytes: nat)
      modifies this`totalUp, this`totalDown, this`perClient, activity
      ensures View(tickBytes) == TallyOf(old(View(0)), deltas, now)
    {
      hide TallyOf;
      tickBytes := 0;
      var todo := deltas.Keys;
      TallyStart(View(0), deltas, now);
      while todo != {}
        invariant todo <= deltas.Keys
        invariant View(tickBytes) == TallyOf(old(View(0)), deltas - todo, now)
        decreases |todo|
      {
        var u :| u in todo;
        var d := deltas[u];
        TallyNext(old(View(0)), deltas, todo, u, now);
        totalUp := totalUp + d.up;
        totalDown := totalDown + d.down;
        tickBytes := tickBytes + d.Total();
        if d.Total() > 0 {
          activity.last := activity.last[u := now];
        }
        perClient := perClient[u := Of(perClient, u).Plus(d)];
        todo := todo - {u};
      }
      assert deltas - {} == deltas;
    }

    /** Credit the inbounds under their display names. */
    method CreditInbounds(deltas: Snapshot)
      modifies this`perInbound
      ensures perInbound == CreditLabels(labels, old(perInbound), deltas)
    {
      hide CreditLabels, LabelOf;
      var todo := deltas.Keys;
      LabelsStart(labels, perInbound, deltas);
      while todo != {}
        invariant todo <= deltas.Keys
        invariant perInbound == CreditLabels(labels, old(perInbound), deltas - todo)
        decreases |todo|
      {
        var tag :| tag in todo;
        var d := deltas[tag];
        LabelsNext(labels, old(perInbound), deltas, todo, tag);
        var name := LabelOf(labels, tag);
        perInbound := perInbound[name := Of(perInbound, name).Plus(d)];
        todo := todo - {tag};
      }
      assert deltas - {} == deltas;
    }

    /** A reading of the inbounds, unless it failed. */
    method ReadInbounds(curIn: Option<Snapshot>)
      modifies this`perInbound, this`lastInbound
      ensures curIn == None ==> perInbound == old(perInbound) && lastInbound == old(lastInbound)
      ensures curIn.Some? ==>
                && lastInbound == curIn.value
                && perInbound == CreditLabels(labels, old(perInbound), Deltas(old(lastInbound), curIn.value))
    {
      hide CreditLabels, Deltas;
      if curIn.Some? {
        var inDeltas := ComputeDeltas(lastInbound, curIn.value);
        CreditInbounds(inDeltas);
        lastInbound := curIn.value;
      }
    }

    /** The bytes of a tick go into the load window; `total` is what the node had
        carried before. */
    method Feed(now: int, bytes: nat, ghost total: nat)
      modifies this`recentBps, this`ticks, this`totals, window
      ensures window.samples == DropOld(old(window.samples) + [Sample(now, bytes)], now - LOAD_SPAN)
      ensures window.samples != [] && recentBps == RateOf(window.samples, now)
      ensures ticks == old(ticks) + [Sample(now, bytes)]
      ensures old(LoggedTo(total)) ==> LoggedTo(total + bytes)
    {
      hide DropOld, RateOf, WindowAfter, Cumulates;
      LogTick(ticks, totals, total, now, bytes);
      WindowTick(ticks, now, bytes);
      ticks, totals := ticks + [Sample(now, bytes)], totals + [total + bytes];
      recentBps := window.Add(now, bytes);
    }

    /** The load window and the activity map at the end of a tick. */
    method Measure(now: int, bytes: nat, ghost total: nat)
      modifies this`recentBps, this`activeClients, this`ticks, this`totals, window, activity
      ensures window.samples == DropOld(old(window.samples) + [Sample(now, bytes)], now - LOAD_SPAN)
      ensures window.samples != [] && recentBps == RateOf(window.samples, now)
      ensures activity.last == KeepSince(old(activity.last), now - ACTIVE_SPAN) && activeClients == |activity.last|
      ensures ticks == old(ticks) + [Sample(now, bytes)]
      ensures old(LoggedTo(total)) ==> LoggedTo(total + bytes)
    {
      hide DropOld, RateOf, KeepSince, LoggedTo;
      Feed(now, bytes, total);
      var users := activity.ActiveSince(now - ACTIVE_SPAN);
      activeClients := |users|;
    }

    /** One tick.  `cur` and `curIn` are what the runtime reports, or nothing
        when reading failed.  A failed user reading skips the tick. */
    method Tick(now: int, cur: Option<Snapshot>, curIn: Option<Snapshot>)
      modifies this, window, activity
      ensures cur == None ==> unchanged(this) && unchanged(window) && unchanged(activity)
      ensures cur.Some? ==> lastSnap == cur.value && TickUsers(now, Deltas(old(lastSnap), cur.value))
      ensures cur == None || curIn == None ==> perInbound == old(perInbound) && lastInbound == old(lastInbound)
      ensures cur.Some? && curIn.Some? ==>
                && lastInbound == curIn.value
                && perInbound == CreditLabels(labels, old(perInbound), Deltas(old(lastInbound), curIn.value))
      ensures old(Logged()) ==> Logged()
      ensures cur.Some? ==>
                ticks == old(ticks) + [Sample(now, totalUp + totalDown - old(totalUp) - old(totalDown))]
    {
      hide Sum, Credit, CreditLabels, Touch, ActiveUsers, DropOld, RateOf, Deltas, KeepSince, LoggedTo;
      if cur == None {
        return;
      }
      ghost var total := totalUp + totalDown;
      var deltas := ComputeDeltas(lastSnap, cur.value);
      lastSnap := cur.value;
      var tickBytes := CreditClients(deltas, now);
      ReadInbounds(curIn);
      Measure(now, tickBytes, total);
    }

    /** The effect of a successful reading with deltas `d`: both totals and the
        load window grow by the same bytes, each client by its own. */
    twostate predicate TickUsers(now: int, d: Snapshot)
      reads this, window, activity
    {
      && totalUp == old(totalUp) + Sum(d).up && totalDown == old(totalDown) + Sum(d).down
      && perClient == Credit(old(perClient), d)
      && window.samples == DropOld(old(window.samples) + [Sample(now, Sum(d).up + Sum(d).down)], now - LOAD_SPAN)
      && window.samples != [] && recentBps == RateOf(window.samples, now)
      && activity.last == KeepSince(Touch(old(activity.last), Active(now, ActiveUsers(d))), now - ACTIVE_SPAN)
      && activeClients == |activity.last|
    }
  }

  /** One more tick in the history of the window. */
  lemma WindowTick(h: seq<Sample>, now: int, bytes: nat)
    ensures WindowAfter(h + [Sample(now, bytes)]) == DropOld(WindowAfter(h) + [Sample(now, bytes)], now - LOAD_SPAN)
  {
    hide DropOld;
    assert (h + [Sample(now, bytes)])[..|h|] == h;
  }

  lemma LogTick(h: seq<Sample>, totals: seq<nat>, total: nat, now: int, bytes: nat)
    ensures Cumulates(h, totals) && totals[|h|] == total ==>
              Cumulates(h + [Sample(now, bytes)], totals + [total + bytes])
              && (totals + [total + bytes])[|h| + 1] == total + bytes
  {
    if Cumulates(h, totals) && totals[|h|] == total {
      var more, sums := h + [Sample(now, bytes)], totals + [total + bytes];
      forall i | 0 <= i < |more| ensures sums[i + 1] == sums[i] + more[i].bytes {
        if i < |h| {
          assert more[i] == h[i] && sums[i] == totals[i] && sums[i + 1] == totals[i + 1];
        }
      }
    }
  }

  /** The recent rate, over every run of ticks in order of time: times the seconds
      since the oldest tick of the last ten minutes it is what the node's totals
      have gained since before that tick. */
  lemma {:induction false} RecentRate(n: NodeStats) returns (k: nat)
    requires n.Logged() && n.ticks != [] && Ordered(n.ticks)
    ensures var now := n.ticks[|n.ticks| - 1].t;
            && k < |n.ticks| && |n.totals| == |n.ticks| + 1
            && (forall i | 0 <= i < k :: now - n.ticks[i].t > 600_000_000_000)
            && (forall i | k <= i < |n.ticks| :: now - n.ticks[i].t <= 600_000_000_000)
            && var age := now - n.ticks[k].t;
               n.recentBps * (if age < 1_000_000_000 then 30.0 else age as real / 1_000_000_000.0)
               == (n.totalUp + n.totalDown) as real - n.totals[k] as real
  {
    hide WindowAfter, RateOf;
    k := WindowRate(n.ticks, n.totals);
  }

  /** Who is active after a tick: those with traffic in it, in either direction,
      and those seen within half an hour before. */
  twostate lemma TickMarks(n: NodeStats, now: int, d: Snapshot, u: string)
    requires n.TickUsers(now, d)
    ensures var traffic := u in d && (d[u].up > 0 || d[u].down > 0);
            && (u in n.activity.last
                <==> traffic || (u in old(n.activity.last) && now - old(n.activity.last)[u] <= 1_800_000_000_000))
            && (u in n.activity.last ==> n.activity.last[u] == if traffic then now else old(n.activity.last)[u])
  {
    hide Sum, Credit, DropOld, RateOf;
  }

  /** Conservation at every tick: what the node totals gain, the per-client
      entries gain together, and the window is fed; entries of users that no
      longer report stay as they are. */
  twostate lemma TickConserves(n: NodeStats, now: int, d: Snapshot)
    requires n.TickUsers(now, d)
    ensures n.totalUp - old(n.totalUp) == Sum(n.perClient).up - Sum(old(n.perClient)).up
    ensures n.totalDown - old(n.totalDown) == Sum(n.perClient).down - Sum(old(n.perClient)).down
    ensures n.window.samples[|n.window.samples| - 1].bytes
            == n.totalUp + n.totalDown - old(n.totalUp) - old(n.totalDown)
    ensures forall u | u !in d :: Of(n.perClient, u) == Of(old(n.perClient), u)
  {
    hide Sum, Touch, ActiveUsers, DropOld, RateOf, KeepSince, Credit, Of;
    SumsGrow(old(n.perClient), d);
    NewestStays(old(n.window.samples), now, Sum(d).up + Sum(d).down);
    OthersStay(old(n.perClient), d);
  }

  lemma {:induction false} SumsGrow(m: Snapshot, d: Snapshot)
    ensures Sum(Credit(m, d)).up == Sum(m).up + Sum(d).up && Sum(Credit(m, d)).down == Sum(m).down + Sum(d).down
  {
    hide Sum, Credit;
    CreditConserves(m, d);
  }

  lemma NewestStays(s: seq<Sample>, now: int, bytes: nat)
    ensures var w := DropOld(s + [Sample(now, bytes)], now - LOAD_SPAN);
            w != [] && w[|w| - 1] == Sample(now, bytes)
  {
    hide DropOld;
    DropOldSnoc(s, Sample(now, bytes), now - LOAD_SPAN);
  }

  lemma OthersStay(m: Snapshot, d: Snapshot)
    ensures forall u | u !in d :: Of(Credit(m, d), u) == Of(m, u)
  {
    forall u | u !in d ensures Of(Credit(m, d), u) == Of(m, u) {
      PlusZero(Of(m, u));
    }
  }

  lemma CreditNext(m: Snapshot, done: Snapshot, u: string, d: Counter)
    requires u !in done
    ensures Credit(m, done[u := d]) == Credit(m, done)[u := Of(Credit(m, done), u).Plus(d)]
  {}

  lemma TouchNext(last: map<string, int>, now: int, done: Snapshot, u: string, d: Counter)
    requires u !in done
    ensures Touch(last, Active(now, ActiveUsers(done[u := d])))
            == if d.Total() > 0 then Touch(last, Active(now, ActiveUsers(done)))[u := now]
               else Touch(last, Active(now, ActiveUsers(done)))
  {
    assert ActiveUsers(done[u := d]) == if d.Total() > 0 then ActiveUsers(done) + {u} else ActiveUsers(done);
  }
}
