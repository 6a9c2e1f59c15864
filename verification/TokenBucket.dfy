/** The token bucket of src/internal/throttle/throttle.go.

    Tokens are bytes.  A bucket refills lazily: the elapsed time is credited
    only when somebody asks.  Time and tokens are real numbers. */
module TokenBucket {

  /** The two settings of a bucket; a rate of 0 means unlimited. */
  datatype Limits = Limits(rate: real, burst: real)

  /** The two fields a call changes. */
  datatype Level = Level(tokens: real, last: real)

  function Min(a: real, b: real): real {
    if a < b then a else b
  }

  function Max(a: real, b: real): real {
    if a < b then b else a
  }

  /** Tokens earned in `d` seconds. */
  function Earned(rate: real, d: real): real {
    d * rate
  }

  lemma EarnedAdds(rate: real, a: real, b: real, c: real)
    ensures Earned(rate, c - a) == Earned(rate, b - a) + Earned(rate, c - b)
  {}

  lemma EarnedGrows(rate: real, d: real)
    requires rate >= 0.0 && d >= 0.0
    ensures Earned(rate, d) >= 0.0
  {}

  /** Credit the time since `last`, never beyond the burst; a reading that is
      not later than `last` credits nothing and leaves `last` alone. */
  function Refill(lim: Limits, lv: Level, now: real): Level {
    if now > lv.last
    then Level(Min(lv.tokens + Earned(lim.rate, now - lv.last), lim.burst), now)
    else lv
  }

  /** One AllowN call that reads the clock as `now`. */
  function Admit(lim: Limits, lv: Level, n: real, now: real): (r: (bool, Level)) {
    if lim.rate == 0.0 then (true, lv)
    else
      var full := Refill(lim, lv, now);
      if full.tokens >= n
      then (true, full.(tokens := full.tokens - n))
      else (false, full)
  }

  ghost predicate Sane(lim: Limits, lv: Level) {
    lim.rate > 0.0 && 0.0 <= lv.tokens <= lim.burst
  }

  /** What one call does to a sane bucket, whatever the clock says. */
  lemma AdmitStep(lim: Limits, lv: Level, n: real, now: real)
    requires Sane(lim, lv) && n >= 0.0
    ensures var (ok, lv') := Admit(lim, lv, n, now);
            && Sane(lim, lv')
            && lv'.last == Max(lv.last, now)
            && lv'.tokens + (if ok then n else 0.0)
               == Min(lim.burst, lv.tokens + Earned(lim.rate, lv'.last - lv.last))
            && (ok <==> n <= Min(lim.burst, lv.tokens + Earned(lim.rate, lv'.last - lv.last)))
  {
    if now > lv.last {
      EarnedGrows(lim.rate, now - lv.last);
    } else {
      assert Earned(lim.rate, lv.last - lv.last) == 0.0;
    }
  }

  // ---- whole histories of calls ----

  /** A call: the bytes asked for and the clock reading it saw. */
  datatype Call = Call(n: real, now: real)

  ghost predicate Asks(calls: seq<Call>) {
    forall i | 0 <= i < |calls| :: calls[i].n >= 0.0
  }

  /** The bucket after all the calls. */
  ghost function After(lim: Limits, lv: Level, calls: seq<Call>): Level {
    if calls == [] then lv
    else
      var c := calls[|calls| - 1];
      Admit(lim, After(lim, lv, calls[..|calls| - 1]), c.n, c.now).1
  }

  /** The bytes granted by call number `i`. */
  ghost function GrantAt(lim: Limits, lv: Level, calls: seq<Call>, i: nat): real
    requires i < |calls|
  {
    if Admit(lim, After(lim, lv, calls[..i]), calls[i].n, calls[i].now).0
    then calls[i].n else 0.0
  }

  /** The bytes granted from call number `i` up to, not including, `j`. */
  ghost function Granted(lim: Limits, lv: Level, calls: seq<Call>, i: nat, j: nat): real
    requires i <= j <= |calls|
  {
    if i == j then 0.0
    else Granted(lim, lv, calls, i, j - 1) + GrantAt(lim, lv, calls, j - 1)
  }

  /** One more call, seen through the history before it. */
  lemma AfterStep(lim: Limits, lv: Level, calls: seq<Call>, j: nat)
    requires Asks(calls) && j < |calls| && Sane(lim, After(lim, lv, calls[..j]))
    ensures var m, e := After(lim, lv, calls[..j]), After(lim, lv, calls[..j + 1]);
            && Sane(lim, e)
            && e.last == Max(m.last, calls[j].now)
            && e.tokens + GrantAt(lim, lv, calls, j)
               == Min(lim.burst, m.tokens + Earned(lim.rate, e.last - m.last))
  {
    assert calls[..j + 1][..j] == calls[..j];
    AdmitStep(lim, After(lim, lv, calls[..j]), calls[j].n, calls[j].now);
  }

  /** Bounds are kept, and `last` is the latest reading so far. */
  lemma {:induction false} BoundsKept(lim: Limits, lv: Level, calls: seq<Call>, j: nat)
    requires Sane(lim, lv) && Asks(calls) && j <= |calls|
    ensures var e := After(lim, lv, calls[..j]);
            && Sane(lim, e)
            && e.last >= lv.last
            && forall i | 0 <= i < j :: calls[i].now <= e.last
  {
    if j > 0 {
      BoundsKept(lim, lv, calls, j - 1);
      AfterStep(lim, lv, calls, j - 1);
    }
  }

  /** Window bound: between any two points of any history of calls, with any
      clock readings, the grants are at most the tokens at the start plus the
      rate times the time that passed. */
  lemma {:induction false} WindowBound(lim: Limits, lv: Level, calls: seq<Call>, i: nat, j: nat)
    requires Sane(lim, lv) && Asks(calls) && i <= j <= |calls|
    ensures var a, b := After(lim, lv, calls[..i]), After(lim, lv, calls[..j]);
            && a.last <= b.last
            && Granted(lim, lv, calls, i, j) + b.tokens <= a.tokens + Earned(lim.rate, b.last - a.last)
            && 0.0 <= b.tokens
    decreases j - i
  {
    BoundsKept(lim, lv, calls, i);
    if i == j {
      assert Earned(lim.rate, After(lim, lv, calls[..j]).last - After(lim, lv, calls[..i]).last) == 0.0;
    } else {
      WindowBound(lim, lv, calls, i, j - 1);
      WindowGrows(lim, lv, calls, i, j);
    }
    hide Earned, After, Admit;
  }

  lemma {:induction false} WindowGrows(lim: Limits, lv: Level, calls: seq<Call>, i: nat, j: nat)
    requires Sane(lim, lv) && Asks(calls) && i < j <= |calls|
    ensures var m, b := After(lim, lv, calls[..j - 1]), After(lim, lv, calls[..j]);
            var from := After(lim, lv, calls[..i]).last;
            && m.last <= b.last && 0.0 <= b.tokens
            && Granted(lim, lv, calls, i, j) + b.tokens - Earned(lim.rate, b.last - from)
               <= Granted(lim, lv, calls, i, j - 1) + m.tokens - Earned(lim.rate, m.last - from)
  {
    assert Granted(lim, lv, calls, i, j) == Granted(lim, lv, calls, i, j - 1) + GrantAt(lim, lv, calls, j - 1);
    hide Earned, After, Admit, Granted, GrantAt;
    BoundsKept(lim, lv, calls, j - 1);
    AfterStep(lim, lv, calls, j - 1);
    EarnedAdds(lim.rate, After(lim, lv, calls[..i]).last,
               After(lim, lv, calls[..j - 1]).last, After(lim, lv, calls[..j]).last);
  }

  lemma EarnedIs(rate: real, d: real)
    ensures Earned(rate, d) == rate * d
  {}

  /** In plain numbers: a call is granted if and only if the bytes are within the
      burst and within the tokens left plus the rate times the time since the
      last call. */
  lemma {:induction false} PlainAdmit(lim: Limits, lv: Level, n: real, now: real)
    requires Sane(lim, lv) && n >= 0.0
    ensures var since := if now > lv.last then now - lv.last else 0.0;
            Admit(lim, lv, n, now).0 <==> n <= lim.burst && n <= lv.tokens + lim.rate * since
  {
    var since := if now > lv.last then now - lv.last else 0.0;
    AdmitStep(lim, lv, n, now);
    assert Max(lv.last, now) - lv.last == since;
    hide Earned, Admit;
    EarnedIs(lim.rate, since);
  }

  /** And over any window of any history the grants are within the tokens at its
      start plus the rate times its length. */
  lemma {:induction false} PlainBound(lim: Limits, lv: Level, calls: seq<Call>, i: nat, j: nat) returns (dt: real)
    requires Sane(lim, lv) && Asks(calls) && i <= j <= |calls|
    ensures dt == After(lim, lv, calls[..j]).last - After(lim, lv, calls[..i]).last >= 0.0
    ensures Granted(lim, lv, calls, i, j) <= After(lim, lv, calls[..i]).tokens + lim.rate * dt
  {
    hide Earned, After, Admit, Granted, Asks;
    var a, b := After(lim, lv, calls[..i]), After(lim, lv, calls[..j]);
    dt := b.last - a.last;
    WindowBound(lim, lv, calls, i, j);
    SpentWithin(lim.rate, dt, Granted(lim, lv, calls, i, j), b.tokens, a.tokens);
  }

  lemma SpentWithin(rate: real, d: real, spent: real, left: real, had: real)
    requires spent + left <= had + Earned(rate, d) && left >= 0.0
    ensures spent <= had + rate * d
  {}

  /** The time at which call `j` took effect: the latest reading up to it. */
  ghost function EffectiveTime(lim: Limits, lv: Level, calls: seq<Call>, j: nat): real
    requires j < |calls|
  {
    After(lim, lv, calls[..j + 1]).last
  }

  /** The window from call `j` to call `k`, closed by `x` more bytes at time
      `t`, is within burst + rate * length. */
  ghost predicate FitsWindow(lim: Limits, lv: Level, calls: seq<Call>, j: nat, k: nat, x: real, t: real)
    requires j < k <= |calls|
  {
    Granted(lim, lv, calls, j, k) + x <= lim.burst + Earned(lim.rate, t - EffectiveTime(lim, lv, calls, j))
  }

  /** The independent definition of a token bucket: after the first `k` calls,
      `x` more bytes at time `t` overrun no window that starts at an earlier
      call. */
  ghost predicate FitsEveryWindow(lim: Limits, lv: Level, calls: seq<Call>, k: nat, x: real, t: real)
    requires k <= |calls|
  {
    && x <= lim.burst
    && forall j: nat | j < k :: FitsWindow(lim, lv, calls, j, k, x, t)
  }

  /** Moving the end of a window across call number `k - 1`. */
  lemma WindowShift(lim: Limits, lv: Level, calls: seq<Call>, j: nat, k: nat, x: real, t: real)
    requires j < k - 1 < |calls|
    ensures var e := After(lim, lv, calls[..k]);
            var y := x + GrantAt(lim, lv, calls, k - 1) - Earned(lim.rate, t - e.last);
            FitsWindow(lim, lv, calls, j, k - 1, y, e.last) <==> FitsWindow(lim, lv, calls, j, k, x, t)
  {
    hide Earned, After, Admit, EffectiveTime;
    EarnedAdds(lim.rate, EffectiveTime(lim, lv, calls, j), After(lim, lv, calls[..k]).last, t);
  }

  lemma NewestWindow(lim: Limits, lv: Level, calls: seq<Call>, k: nat, x: real, t: real)
    requires 0 < k <= |calls|
    ensures FitsWindow(lim, lv, calls, k - 1, k, x, t)
            <==> x + GrantAt(lim, lv, calls, k - 1) <= lim.burst + Earned(lim.rate, t - After(lim, lv, calls[..k]).last)
  {
    assert Granted(lim, lv, calls, k - 1, k) == Granted(lim, lv, calls, k - 1, k - 1) + GrantAt(lim, lv, calls, k - 1);
    hide Earned, After, Admit;
  }

  /** The level after a history equals the tightest window. */
  lemma {:induction false} RefillIsTightestWindow(lim: Limits, lv: Level, calls: seq<Call>, k: nat, x: real, t: real)
    requires Sane(lim, lv) && lv.tokens == lim.burst && Asks(calls) && k <= |calls|
    requires After(lim, lv, calls[..k]).last <= t
    ensures var e := After(lim, lv, calls[..k]);
            x <= Min(lim.burst, e.tokens + Earned(lim.rate, t - e.last))
            <==> FitsEveryWindow(lim, lv, calls, k, x, t)
  {
    var e := After(lim, lv, calls[..k]);
    EarnedGrows(lim.rate, t - e.last);
    assert k == 0 ==> e == lv;
    hide Earned, After, Admit, Granted, GrantAt, FitsWindow;
    if k > 0 {
      var p: nat := k - 1;
      var m, g := After(lim, lv, calls[..p]), GrantAt(lim, lv, calls, p);
      BoundsKept(lim, lv, calls, p);
      AfterStep(lim, lv, calls, p);
      var y := x + g - Earned(lim.rate, t - e.last);
      RefillIsTightestWindow(lim, lv, calls, p, y, e.last);
      EveryWindowShift(lim, lv, calls, k, x, t);
      hide FitsEveryWindow;
    }
  }

  /** Moving the end of all windows across call number `k - 1`. */
  lemma {:induction false} EveryWindowShift(lim: Limits, lv: Level, calls: seq<Call>, k: nat, x: real, t: real)
    requires 0 < k <= |calls|
    ensures var e := After(lim, lv, calls[..k]);
            var y := x + GrantAt(lim, lv, calls, k - 1) - Earned(lim.rate, t - e.last);
            FitsEveryWindow(lim, lv, calls, k, x, t)
            <==> x <= lim.burst && FitsEveryWindow(lim, lv, calls, k - 1, y, e.last)
  {
    hide Earned, After, Admit, Granted, GrantAt, FitsWindow;
    var p: nat := k - 1;
    var e := After(lim, lv, calls[..k]);
    var y := x + GrantAt(lim, lv, calls, p) - Earned(lim.rate, t - e.last);
    forall j: nat | j < p
      ensures FitsWindow(lim, lv, calls, j, p, y, e.last) <==> FitsWindow(lim, lv, calls, j, k, x, t)
    {
      WindowShift(lim, lv, calls, j, k, x, t);
    }
    NewestWindow(lim, lv, calls, k, x, t);
    assert FitsWindow(lim, lv, calls, p, k, x, t) <==> y <= lim.burst;
  }

  /** Admission is exact: after any history since the bucket was created full,
      a request is granted if and only if granting it overruns no window; the
      bucket never gives too much and never refuses without need. */
  lemma {:induction false} AdmissionExact(lim: Limits, lv: Level, calls: seq<Call>, n: real, now: real)
    requires Sane(lim, lv) && lv.tokens == lim.burst && Asks(calls) && n >= 0.0
    ensures Admit(lim, After(lim, lv, calls), n, now).0
            <==> FitsEveryWindow(lim, lv, calls, |calls|, n, Max(now, After(lim, lv, calls).last))
  {
    hide Earned, After, Admit, FitsEveryWindow;
    var m := After(lim, lv, calls);
    assert calls[..|calls|] == calls;
    BoundsKept(lim, lv, calls, |calls|);
    AdmitStep(lim, m, n, now);
    RefillIsTightestWindow(lim, lv, calls, |calls|, n, Max(now, m.last));
  }

  /** A request above the burst is refused after every history. */
  lemma {:induction false} AboveBurstNeverAdmitted(lim: Limits, lv: Level, calls: seq<Call>, n: real, now: real)
    requires Sane(lim, lv) && Asks(calls) && n > lim.burst
    ensures !Admit(lim, After(lim, lv, calls), n, now).0
  {
    assert calls[..|calls|] == calls;
    BoundsKept(lim, lv, calls, |calls|);
    AdmitStep(lim, After(lim, lv, calls), n, now);
  }

  // ---- the clock and the bucket object ----

  /** The wall clock, a script of how much time passes before each reading; a
      negative lag is a clock that steps back. */
  class Clock {
    var lags: seq<real>
    var t: real

    ghost predicate Monotonic() reads this {
      forall d | d in lags :: d >= 0.0
    }

    method Now() returns (r: real)
      modifies this
      ensures r == t && (old(Monotonic()) ==> Monotonic() && old(t) <= t)
      ensures old(lags) != [] ==> t == old(t) + old(lags)[0] && lags == old(lags)[1..]
    {
      if lags != [] {
        var lag := lags[0];
        assert lag in lags && forall d | d in lags[1..] :: d in lags;
        t, lags := t + lag, lags[1..];
      }
      r := t;
    }

    method Sleep(d: real)
      modifies this`t
      ensures t == old(t) + d
    {
      t := t + d;
    }
  }

  /** WaitN sleeps two milliseconds between polls. */
  const POLL := 0.002

  class Bucket {
    const rate: real
    const burst: real
    const clock: Clock
    var tokens: real
    var last: real

    ghost function Lim(): Limits { Limits(rate, burst) }

    ghost function View(): Level reads this { Level(tokens, last) }

    ghost predicate Ready() reads this, clock {
      && clock.Monotonic()
      && last <= clock.t
      && rate >= 0.0
      && (rate > 0.0 ==> Sane(Lim(), View()))
    }

    /** A new bucket is full. */
    constructor (rate: real, burst: real, clock: Clock)
      modifies clock
      ensures this.rate == rate && this.burst == burst && this.clock == clock
      ensures tokens == burst && last == clock.t
      ensures old(clock.Monotonic()) ==> clock.Monotonic() && old(clock.t) <= clock.t
    {
      this.rate, this.burst, this.clock := rate, burst, clock;
      this.tokens := burst;
      var now := clock.Now();
      this.last := now;
    }

    method AllowN(n: real) returns (ok: bool)
      modifies this, clock
      ensures (ok, View()) == if rate == 0.0 then (true, old(View())) else Admit(Lim(), old(View()), n, clock.t)
      ensures if rate == 0.0 then unchanged(this) && unchanged(clock)
              else old(clock.Monotonic()) ==> clock.Monotonic() && old(clock.t) <= clock.t
    {
      hide Earned;
      if rate == 0.0 {
        return true;
      }
      var now := clock.Now();
      var elapsed := now - last;
      if elapsed > 0.0 {
        tokens := tokens + Earned(rate, elapsed);
        if tokens > burst {
          tokens := burst;
        }
        last := now;
      }
      if tokens >= n {
        tokens := tokens - n;
        return true;
      }
      return false;
    }

    /** One poll of a waiter. */
    method Poll(n: real) returns (ok: bool)
      requires Ready() && rate > 0.0 && n >= 0.0
      modifies this, clock
      ensures Ready() && last == clock.t && old(clock.t) <= clock.t
      ensures tokens + (if ok then n else 0.0) == Min(burst, old(tokens) + Earned(rate, last - old(last)))
      ensures !ok ==> tokens < n
    {
      ghost var before := View();
      ok := AllowN(n);
      AdmitStep(Lim(), before, n, clock.t);
    }

    /** A sole waiter is served after about n / (rate * 2ms) polls, having paid
        for its bytes in full. */
    method WaitN(n: real) returns (polls: nat)
      requires Ready() && n >= 0.0
      requires rate > 0.0 ==> n <= burst
      modifies this, clock
      ensures Ready() && old(clock.t) <= clock.t
      ensures rate == 0.0 ==> polls == 0 && unchanged(this) && unchanged(clock)
      ensures rate > 0.0 ==> polls >= 1 && last == clock.t && old(last) <= last
      ensures rate > 0.0 ==> tokens + n <= old(tokens) + Earned(rate, last - old(last))
      ensures rate > 0.0 && polls > 1 ==> rate * 0.002 * (polls - 2) as real < n
    {
      polls := 0;
      if rate == 0.0 {
        return;
      }
      var ok := Poll(n);
      polls := 1;
      ghost var perPoll := rate * POLL;
      while !ok
        invariant Ready() && last == clock.t && old(clock.t) <= clock.t && old(last) <= last
        invariant tokens + (if ok then n else 0.0) <= old(tokens) + Earned(rate, last - old(last))
        invariant polls >= 1
        invariant !ok ==> tokens < n && Earned(perPoll, (polls - 1) as real) <= tokens
        invariant ok && polls > 1 ==> Earned(perPoll, (polls - 2) as real) < n
        decreases !ok, if ok then 0.0 else (n - tokens) / perPoll
      {
        ghost var was, wasLast := tokens, last;
        clock.Sleep(POLL);
        ok := Poll(n);
        polls := polls + 1;
        PollEarns(rate, last - wasLast);
        EarnedAdds(rate, old(last), wasLast, last);
        EarnedOnce(perPoll, polls - 1);
        if !ok {
          OneLess(n - tokens, n - was, perPoll);
        }
        hide Earned;
      }
    }
  }

  lemma PollEarns(rate: real, d: real)
    requires rate > 0.0 && d >= POLL
    ensures Earned(rate, d) >= rate * POLL > 0.0
  {}

  lemma EarnedOnce(perPoll: real, k: nat)
    requires k > 0
    ensures Earned(perPoll, k as real) == Earned(perPoll, (k - 1) as real) + perPoll
  {}

  lemma Unscaled(x: real, y: real, c: real)
    requires c > 0.0 && x * c <= y * c
    ensures x <= y
  {}

  lemma OneLess(a: real, b: real, c: real)
    requires c > 0.0 && a <= b - c
    ensures a / c <= b / c - 1.0
  {
    var p, q := b / c, a / c;
    assert q * c == a && (p - 1.0) * c == p * c - c == b - c;
    Unscaled(q, p - 1.0, c);
  }
}
