/** The load window and the activity map of src/internal/commands/node.go.
    Times are nanoseconds. */
module SlidingWindow {

  const SECOND: int := 1_000_000_000
  const LOAD_SPAN: int := 10 * 60 * SECOND

  datatype Sample = Sample(t: int, bytes: nat)

  /** Drop samples from the front while they are before the cutoff. */
  function DropOld(s: seq<Sample>, cutoff: int): seq<Sample> {
    if s != [] && s[0].t < cutoff then DropOld(s[1..], cutoff) else s
  }

  function SumBytes(s: seq<Sample>): nat {
    if s == [] then 0 else SumBytes(s[..|s| - 1]) + s[|s| - 1].bytes
  }

  /** Average over the span of the samples, or over half a minute when they
      span less than a second. */
  function RateOf(s: seq<Sample>, now: int): real
    requires s != []
  {
    var span := (now - s[0].t) as real / SECOND as real;
    SumBytes(s) as real / (if span < 1.0 then 30.0 else span)
  }

  /** Exactly the additions of the last ten minutes. */
  function Recent(h: seq<Sample>, cutoff: int): seq<Sample> {
    if h == [] then []
    else
      var x := h[|h| - 1];
      Recent(h[..|h| - 1], cutoff) + if x.t >= cutoff then [x] else []
  }

  ghost predicate Ordered(h: seq<Sample>) {
    forall i, j | 0 <= i < j < |h| :: h[i].t <= h[j].t
  }

  lemma {:induction false} DropOldSnoc(s: seq<Sample>, x: Sample, cutoff: int)
    ensures DropOld(s + [x], cutoff) == if DropOld(s, cutoff) != [] then DropOld(s, cutoff) + [x]
                                        else if x.t < cutoff then [] else [x]
  {
    if s == [] {
      assert s + [x] == [x] && [x][1..] == [];
    } else if s[0].t < cutoff {
      assert (s + [x])[1..] == s[1..] + [x];
      DropOldSnoc(s[1..], x, cutoff);
    }
  }

  lemma {:induction false} DropOldTail(s: seq<Sample>, cutoff: int) returns (k: nat)
    ensures k <= |s| && DropOld(s, cutoff) == s[k..]
    ensures k < |s| ==> s[k].t >= cutoff
    ensures forall i | 0 <= i < k :: s[i].t < cutoff
  {
    if s != [] && s[0].t < cutoff {
      k := DropOldTail(s[1..], cutoff);
      k := k + 1;
    } else {
      k := 0;
    }
  }

  /** On an ordered history, dropping from the front is filtering. */
  lemma {:induction false} DropIsFilter(h: seq<Sample>, cutoff: int)
    requires Ordered(h)
    ensures DropOld(h, cutoff) == Recent(h, cutoff)
  {
    if h != [] {
      var front, x := h[..|h| - 1], h[|h| - 1];
      assert h == front + [x];
      assert Recent(h, cutoff) == Recent(front, cutoff) + if x.t >= cutoff then [x] else [];
      hide DropOld, Recent;
      DropIsFilter(front, cutoff);
      DropOldSnoc(front, x, cutoff);
      LastIsRecent(front, x, cutoff);
      assert Recent(front, cutoff) + [] == Recent(front, cutoff);
    }
  }

  lemma {:induction false} LastIsRecent(front: seq<Sample>, x: Sample, cutoff: int)
    requires Ordered(front + [x])
    ensures DropOld(front, cutoff) != [] ==> x.t >= cutoff
  {
    hide DropOld;
    if DropOld(front, cutoff) != [] {
      var k := DropOldTail(front, cutoff);
      assert (front + [x])[k].t <= (front + [x])[|front|].t;
    }
  }

  /** Filtering with a later cutoff forgets an earlier filtering. */
  lemma {:induction false} RecentTwice(h: seq<Sample>, early: int, late: int)
    requires early <= late
    ensures Recent(Recent(h, early), late) == Recent(h, late)
  {
    if h != [] {
      var front, x := h[..|h| - 1], h[|h| - 1];
      RecentTwice(front, early, late);
      var r := Recent(front, early);
      assert (r + [x])[..|r|] == r;
      assert r + [] == r;
    }
  }

  lemma {:induction false} RecentOrdered(h: seq<Sample>, cutoff: int)
    requires Ordered(h)
    ensures Ordered(Recent(h, cutoff))
    ensures h != [] && Recent(h, cutoff) != [] ==> Recent(h, cutoff)[|Recent(h, cutoff)| - 1].t <= h[|h| - 1].t
  {
    if h != [] {
      RecentOrdered(h[..|h| - 1], cutoff);
    }
  }

  class LoadWindow {
    var samples: seq<Sample>

    constructor ()
      ensures samples == []
    {
      samples := [];
    }

    /** The newest sample always stays, so the window is never empty and the
        rate is always a sum over a span. */
    method Add(now: int, bytes: nat) returns (rate: real)
      modifies this
      ensures samples == DropOld(old(samples) + [Sample(now, bytes)], now - LOAD_SPAN)
      ensures samples != [] && samples[|samples| - 1] == Sample(now, bytes)
      ensures rate == RateOf(samples, now)
    {
      var all := samples + [Sample(now, bytes)];
      var cutoff := now - LOAD_SPAN;
      var i := 0;
      while i < |all| && all[i].t < cutoff
        invariant i <= |all|
        invariant DropOld(all[i..], cutoff) == DropOld(all, cutoff)
        invariant i < |all|
      {
        assert all[i..][1..] == all[i + 1..];
        i := i + 1;
      }
      samples := all[i..];
      var total := 0;
      for j := 0 to |samples|
        invariant total == SumBytes(samples[..j])
      {
        assert samples[..j + 1][..j] == samples[..j];
        total := total + samples[j].bytes;
      }
      assert samples[..|samples|] == samples;
      var span := (now - samples[0].t) as real / SECOND as real;
      if span < 1.0 {
        span := 30.0;
      }
      rate := total as real / span;
    }
  }

  /** The window after a whole history of additions. */
  ghost function WindowAfter(h: seq<Sample>): seq<Sample> {
    if h == [] then []
    else
      var x := h[|h| - 1];
      DropOld(WindowAfter(h[..|h| - 1]) + [x], x.t - LOAD_SPAN)
  }

  /** Over every run with non-decreasing times, the window holds exactly the
      additions of the last ten minutes. */
  lemma {:induction false} WindowIsRecent(h: seq<Sample>)
    requires h != [] && Ordered(h)
    ensures WindowAfter(h) == Recent(h, h[|h| - 1].t - LOAD_SPAN)
  {
    var front, x := h[..|h| - 1], h[|h| - 1];
    var cutoff := x.t - LOAD_SPAN;
    assert WindowAfter(h) == DropOld(WindowAfter(front) + [x], cutoff);
    assert Recent(h, cutoff) == Recent(front, cutoff) + [x];
    assert front == [] ==> WindowAfter(front) == [] && Recent(front, cutoff) == [] && Recent([], cutoff) == [];
    hide DropOld, Recent, WindowAfter;
    if front != [] {
      assert front[|front| - 1] == h[|front| - 1];
      WindowIsRecent(front);
      var before := front[|front| - 1].t - LOAD_SPAN;
      RecentOrdered(front, before);
      RecentTwice(front, before, cutoff);
    }
    WindowStep(WindowAfter(front), x, cutoff);
  }

  lemma WindowStep(w: seq<Sample>, x: Sample, cutoff: int)
    requires Ordered(w) && (w != [] ==> w[|w| - 1].t <= x.t) && x.t >= cutoff
    ensures DropOld(w + [x], cutoff) == Recent(w, cutoff) + [x]
  {
    assert Ordered(w + [x]) by {
      forall i, j | 0 <= i < j < |w + [x]| ensures (w + [x])[i].t <= (w + [x])[j].t {
        if j == |w| && i < |w| - 1 {
          assert w[i].t <= w[|w| - 1].t;
        }
      }
    }
    DropIsFilter(w + [x], cutoff);
    assert (w + [x])[..|w|] == w;
  }

  /** In plain numbers: exactly the additions of the last 600 seconds. */
  lemma {:induction false} WindowSpans(h: seq<Sample>) returns (k: nat)
    requires h != [] && Ordered(h)
    ensures var now := h[|h| - 1].t;
            && k < |h| && WindowAfter(h) == h[k..]
            && (forall i | 0 <= i < k :: now - h[i].t > 600_000_000_000)
            && (forall i | k <= i < |h| :: now - h[i].t <= 600_000_000_000)
  {
    var cutoff := h[|h| - 1].t - LOAD_SPAN;
    WindowIsRecent(h);
    DropIsFilter(h, cutoff);
    k := DropOldTail(h, cutoff);
    hide DropOld, Recent, WindowAfter;
  }

  /** A running total of the bytes: before the first sample, after it, and so on. */
  ghost predicate Cumulates(s: seq<Sample>, totals: seq<nat>) {
    |totals| == |s| + 1 && forall i | 0 <= i < |s| :: totals[i + 1] == totals[i] + s[i].bytes
  }

  lemma {:induction false} SumIsGrowth(s: seq<Sample>, totals: seq<nat>)
    requires Cumulates(s, totals)
    ensures SumBytes(s) + totals[0] == totals[|s|]
  {
    if s != [] {
      SumIsGrowth(s[..|s| - 1], totals[..|s|]);
      var p: nat := |s| - 1;
      assert totals[p + 1] == totals[p] + s[p].bytes;
    }
  }

  lemma Divides(a: real, d: real)
    requires d != 0.0
    ensures a / d * d == a
  {}

  /** The rate times the seconds since the oldest sample is what was added; the
      seconds are taken as thirty when they are less than one. */
  lemma {:induction false} RateIs(s: seq<Sample>, totals: seq<nat>, now: int)
    requires s != [] && Cumulates(s, totals)
    ensures var age := now - s[0].t;
            RateOf(s, now) * (if age < 1_000_000_000 then 30.0 else age as real / 1_000_000_000.0)
            == totals[|s|] as real - totals[0] as real
  {
    SumIsGrowth(s, totals);
    var age := now - s[0].t;
    UnderASecond(age);
    Divides(SumBytes(s) as real, if age < 1_000_000_000 then 30.0 else age as real / 1_000_000_000.0);
    hide SumBytes;
  }

  lemma UnderASecond(age: int)
    ensures age as real / SECOND as real < 1.0 <==> age < 1_000_000_000
    ensures age >= 1_000_000_000 ==> age as real / 1_000_000_000.0 != 0.0
  {}

  /** Over every history of additions in order of time: the rate, times the
      seconds since the oldest addition of the last ten minutes, is the total of
      all bytes ever added, less the total before that addition. */
  lemma {:induction false} WindowRate(h: seq<Sample>, totals: seq<nat>) returns (k: nat)
    requires h != [] && Ordered(h) && Cumulates(h, totals)
    ensures var now := h[|h| - 1].t;
            && k < |h| && WindowAfter(h) == h[k..]
            && (forall i | 0 <= i < k :: now - h[i].t > 600_000_000_000)
            && (forall i | k <= i < |h| :: now - h[i].t <= 600_000_000_000)
            && var age := now - h[k].t;
               RateOf(h[k..], now) * (if age < 1_000_000_000 then 30.0 else age as real / 1_000_000_000.0)
               == totals[|h|] as real - totals[k] as real
  {
    hide WindowAfter, RateOf;
    k := WindowSpans(h);
    CumulatesFrom(h, totals, k);
    RateIs(h[k..], totals[k..], h[|h| - 1].t);
  }

  lemma CumulatesFrom(h: seq<Sample>, totals: seq<nat>, k: nat)
    requires Cumulates(h, totals) && k <= |h|
    ensures Cumulates(h[k..], totals[k..])
  {
    forall i | 0 <= i < |h| - k ensures totals[k..][i + 1] == totals[k..][i] + h[k..][i].bytes {
      var j := k + i;
      assert totals[j + 1] == totals[j] + h[j].bytes;
    }
  }

  // ---- activity ----

  const ACTIVE_SPAN: int := 30 * 60 * SECOND

  function KeepSince(m: map<string, int>, cutoff: int): map<string, int> {
    map u | u in m && m[u] >= cutoff :: m[u]
  }

  /** activeSince: prunes its argument and lists who is left, each once. */
  class Activity {
    var last: map<string, int>

    constructor ()
      ensures last == map[]
    {
      last := map[];
    }

    method ActiveSince(cutoff: int) returns (users: seq<string>)
      modifies this
      ensures last == KeepSince(old(last), cutoff)
      ensures forall u :: u in users <==> u in last
      ensures |users| == |last|
    {
      users := [];
      var todo := last.Keys;
      while todo != {}
        invariant todo <= last.Keys && last.Keys <= old(last).Keys
        invariant forall u | u in last :: last[u] == old(last)[u]
        invariant forall u | u in old(last) && u !in todo :: u in last <==> old(last)[u] >= cutoff
        invariant forall u | u in todo :: u in last
        invariant forall u :: u in users <==> u in last && u !in todo
        invariant |users| + |todo| == |last|
        decreases |todo|
      {
        var u :| u in todo;
        todo := todo - {u};
        if last[u] < cutoff {
          assert (last - {u}).Keys == last.Keys - {u};
          last := last - {u};
        } else {
          users := users + [u];
        }
      }
      assert last == KeepSince(old(last), cutoff);
    }
  }

  /** A tick: its time and the users with traffic in it. */
  datatype Active = Active(now: int, users: set<string>)

  function Touch(m: map<string, int>, a: Active): map<string, int> {
    m + (map u | u in a.users :: a.now)
  }

  /** The map after a history of ticks, each marking its users and then
      pruning. */
  ghost function ActivityAfter(h: seq<Active>): map<string, int> {
    if h == [] then map[]
    else
      var a := h[|h| - 1];
      KeepSince(Touch(ActivityAfter(h[..|h| - 1]), a), a.now - ACTIVE_SPAN)
  }

  /** `t` is the time of the last tick in which `u` had traffic. */
  ghost predicate LastSeen(h: seq<Active>, u: string, t: int) {
    exists i :: && 0 <= i < |h| && u in h[i].users && h[i].now == t
                && forall j | i < j < |h| :: u !in h[j].users
  }

  ghost predicate TicksOrdered(h: seq<Active>) {
    forall i, j | 0 <= i < j < |h| :: h[i].now <= h[j].now
  }

  lemma LastSeenStep(front: seq<Active>, a: Active, u: string, t: int)
    ensures LastSeen(front + [a], u, t) <==> if u in a.users then t == a.now else LastSeen(front, u, t)
  {
    var h := front + [a];
    if u in a.users {
      assert h[|front|] == a;
      if LastSeen(h, u, t) {
        var i :| 0 <= i < |h| && u in h[i].users && h[i].now == t && forall j | i < j < |h| :: u !in h[j].users;
        assert i == |front|;
      }
    } else {
      if LastSeen(h, u, t) {
        var i :| 0 <= i < |h| && u in h[i].users && h[i].now == t && forall j | i < j < |h| :: u !in h[j].users;
        assert front[i] == h[i] && forall j | i < j < |front| :: front[j] == h[j];
      }
      if LastSeen(front, u, t) {
        var i :| && 0 <= i < |front| && u in front[i].users && front[i].now == t
                 && forall j | i < j < |front| :: u !in front[j].users;
        assert h[i] == front[i] && forall j | i < j < |front| :: h[j] == front[j];
      }
    }
  }

  /** Over every run with non-decreasing times, the map holds exactly the users
      with traffic at a tick of the last thirty minutes, each with its latest
      such time. */
  lemma {:induction false} ActivityExact(h: seq<Active>, u: string, t: int)
    requires h != [] && TicksOrdered(h)
    ensures u in ActivityAfter(h) && ActivityAfter(h)[u] == t
            <==> LastSeen(h, u, t) && t >= h[|h| - 1].now - ACTIVE_SPAN
  {
    var front, a := h[..|h| - 1], h[|h| - 1];
    assert h == front + [a];
    LastSeenStep(front, a, u, t);
    if front == [] {
      assert !LastSeen([], u, t);
    } else {
      ActivityExact(front, u, t);
      assert h[|front| - 1].now <= a.now;
    }
  }
}
