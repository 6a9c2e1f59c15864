/** The shared limiters of src/internal/throttle/proxy.go: one pair of buckets
    for each source address, counted by open connections. */
module LimiterMap {
  import opened TokenBucket
  import opened LimitedCopy

  /** The counts after one more connection from `ip`. */
  function Acquired(refs: map<string, int>, ip: string): map<string, int> {
    refs[ip := (if ip in refs then refs[ip] else 0) + 1]
  }

  /** The counts after a connection from `ip` lets go; an unknown `ip` is
      ignored, and the last one out takes the entry with it. */
  function Released(refs: map<string, int>, ip: string): map<string, int> {
    if ip !in refs then refs
    else if refs[ip] - 1 <= 0 then refs - {ip}
    else refs[ip := refs[ip] - 1]
  }

  /** The open connections (by number) that came from `ip`. */
  ghost function From(open: map<nat, string>, ip: string): set<nat> {
    set c | c in open && open[c] == ip
  }

  /** The counts say how many connections each address has open, and an entry
      exists exactly for the addresses with one. */
  ghost predicate Counts(refs: map<string, int>, open: map<nat, string>) {
    && (forall ip :: ip in refs <==> From(open, ip) != {})
    && (forall ip | ip in refs :: refs[ip] == |From(open, ip)|)
  }

  lemma FromOpened(open: map<nat, string>, c: nat, ip: string, jp: string)
    requires c !in open
    ensures |From(open[c := ip], jp)| == |From(open, jp)| + if jp == ip then 1 else 0
    ensures From(open[c := ip], jp) == {} <==> jp != ip && From(open, jp) == {}
  {
    assert From(open[c := ip], jp) == if jp == ip then From(open, jp) + {c} else From(open, jp);
    assert c !in From(open, jp);
  }

  lemma OpenCounts(refs: map<string, int>, open: map<nat, string>, c: nat, ip: string)
    requires Counts(refs, open) && c !in open
    ensures Counts(Acquired(refs, ip), open[c := ip])
  {
    hide From;
    forall jp
      ensures |From(open[c := ip], jp)| == |From(open, jp)| + if jp == ip then 1 else 0
      ensures From(open[c := ip], jp) == {} <==> jp != ip && From(open, jp) == {}
    {
      FromOpened(open, c, ip, jp);
    }
  }

  lemma CloseCounts(refs: map<string, int>, open: map<nat, string>, c: nat)
    requires Counts(refs, open) && c in open
    ensures Counts(Released(refs, open[c]), open - {c})
    ensures open[c] in Released(refs, open[c]) <==> From(open, open[c]) != {c}
  {
    var ip, open' := open[c], open - {c};
    forall jp ensures From(open', jp) == if jp == ip then From(open, jp) - {c} else From(open, jp) {}
    assert c in From(open, ip);
    assert From(open, ip) == From(open', ip) + {c};
  }

  class Limiter {
    const up: Bucket
    const down: Bucket
    var refs: int

    /** Two full buckets with the same settings. */
    constructor (rate: real, clock: Clock)
      modifies clock
      ensures fresh(up) && fresh(down) && up != down && refs == 0
      ensures Full(up, rate) && Full(down, rate)
    {
      var u := new Bucket(rate, BurstFor(rate), clock);
      var d := new Bucket(rate, BurstFor(rate), clock);
      this.up, this.down, this.refs := u, d, 0;
    }
  }

  ghost predicate Full(b: Bucket, rate: real) reads b {
    b.rate == rate && b.burst == BurstFor(rate) == b.tokens
  }

  class Proxy {
    const rate: real
    const clock: Clock
    var perIP: map<string, Limiter>
    ghost var pool: set<Limiter>        // every limiter ever made here
    ghost var refs: map<string, int>    // the counts inside the entries
    ghost var open: map<nat, string>    // open connections and their addresses
    ghost var held: map<nat, Limiter>   // what acquire gave to each of them

    constructor (rate: real, clock: Clock)
      ensures this.rate == rate && this.clock == clock
      ensures Valid() && perIP == map[] && open == map[]
    {
      this.rate, this.clock, this.perIP, this.pool := rate, clock, map[], {};
      this.refs, this.open, this.held := map[], map[], map[];
    }

    /** No bucket serves two addresses or two directions. */
    ghost predicate Separate(m: map<string, Limiter>) {
      && (forall ip | ip in m :: m[ip].up != m[ip].down)
      && (forall ip, jp | ip in m && jp in m && ip != jp ::
            m[ip].up != m[jp].up && m[ip].up != m[jp].down && m[ip].down != m[jp].down)
    }

    /** The entries are separate, and `refs` is what they count. */
    ghost predicate Wired() reads this`perIP, this`pool, this`refs, pool`refs {
      && Separate(perIP)
      && refs.Keys == perIP.Keys
      && (forall ip | ip in perIP :: perIP[ip] in pool && perIP[ip].refs == refs[ip])
    }

    /** The sharing invariant. */
    ghost predicate Valid() reads this, pool`refs {
      && Wired()
      && Counts(refs, open)
      && held.Keys == open.Keys
      && (forall c | c in open :: open[c] in perIP && held[c] == perIP[open[c]])
    }

    /** What the invariant means for two open connections: they share a limiter
        exactly when they come from one address, and otherwise no bucket; the
        entry counts the connections of its address. */
    lemma Sharing(c: nat, d: nat)
      requires Valid() && c in open && d in open
      ensures held[c] == held[d] <==> open[c] == open[d]
      ensures open[c] != open[d] ==> held[c].up != held[d].up && held[c].down != held[d].down
      ensures held[c].up != held[d].down
      ensures held[c].refs == |From(open, open[c])|
    {}

    /** An address has an entry exactly while it has an open connection. */
    lemma EntryIff(ip: string)
      requires Valid()
      ensures ip in perIP <==> exists c :: c in open && open[c] == ip
    {}

    /** A new entry, counted by nobody yet. */
    method AddEntry(ip: string) returns (l: Limiter)
      requires Wired() && ip !in perIP
      modifies this`perIP, this`pool, this`refs, clock
      ensures Wired() && perIP == old(perIP)[ip := l] && pool == old(pool) + {l} && refs == old(refs)[ip := 0]
      ensures fresh(l) && fresh(l.up) && fresh(l.down)
      ensures Full(l.up, rate) && Full(l.down, rate)
    {
      l := new Limiter(rate, clock);
      perIP, pool, refs := perIP[ip := l], pool + {l}, refs[ip := 0];
    }

    /** One more connection on the entry of `ip`. */
    method Bump(ip: string, l: Limiter)
      requires Wired() && ip in perIP && perIP[ip] == l
      modifies this`refs, l`refs
      ensures Wired() && refs == old(refs)[ip := old(refs)[ip] + 1]
    {
      assert forall jp | jp in perIP && jp != ip :: perIP[jp] != l;
      hide Separate;
      l.refs := l.refs + 1;
      refs := refs[ip := refs[ip] + 1];
    }

    /** The map part of acquire. */
    method TakeOne(ip: string) returns (l: Limiter)
      requires Wired()
      modifies this`perIP, this`pool, this`refs, pool`refs, clock
      ensures Wired() && fresh(pool - old(pool))
      ensures refs == Acquired(old(refs), ip)
      ensures ip in old(perIP) ==> l == old(perIP[ip]) && perIP == old(perIP)
      ensures ip !in old(perIP) ==>
                && fresh(l) && fresh(l.up) && fresh(l.down)
                && Full(l.up, rate) && Full(l.down, rate)
                && perIP == old(perIP)[ip := l]
    {
      hide Separate;
      if ip in perIP {
        l := perIP[ip];
      } else {
        l := AddEntry(ip);
      }
      Bump(ip, l);
    }

    /** Connection `c` from `ip` gets the limiter of that address: the one its
        open neighbours hold, or a new one with two full buckets. */
    method Acquire(ip: string, ghost c: nat) returns (l: Limiter)
      requires Valid() && c !in open
      modifies this, pool`refs, clock
      ensures Valid() && fresh(pool - old(pool))
      ensures open == old(open)[c := ip] && held == old(held)[c := l]
      ensures refs == Acquired(old(refs), ip)
      ensures ip in old(perIP) ==> l == old(perIP[ip]) && perIP == old(perIP)
      ensures ip !in old(perIP) ==>
                && fresh(l) && fresh(l.up) && fresh(l.down)
                && l.up.rate == rate && l.up.tokens == l.up.burst == BurstFor(rate)
                && l.down.rate == rate && l.down.tokens == l.down.burst == BurstFor(rate)
                && perIP == old(perIP)[ip := l]
    {
      hide Counts, Separate, Acquired, Wired, BurstFor;
      OpenCounts(refs, open, c, ip);
      l := TakeOne(ip);
      assert ip in perIP && perIP[ip] == l;
      open, held := open[c := ip], held[c := l];
    }

    /** The map part of release. */
    method DropOne(ip: string)
      requires Wired()
      modifies this`perIP, this`refs, pool`refs
      ensures Wired() && refs == Released(old(refs), ip) && pool == old(pool)
      ensures perIP == if ip in old(refs) && old(refs)[ip] <= 1 then old(perIP) - {ip} else old(perIP)
    {
      if ip in perIP {
        var l := perIP[ip];
        l.refs := l.refs - 1;
        refs := Released(refs, ip);
        if l.refs <= 0 {
          perIP := perIP - {ip};
        }
      }
    }

    /** Connection `c` lets go of the limiter of `ip`.  Without a matching
        connection the counts still change as stated. */
    method Release(ip: string, ghost c: nat)
      requires Valid()
      modifies this, pool`refs
      ensures Wired() && refs == Released(old(refs), ip)
      ensures perIP == if ip in old(refs) && old(refs)[ip] <= 1 then old(perIP) - {ip} else old(perIP)
      ensures old(c in open && open[c] == ip) ==>
                && Valid()
                && open == old(open) - {c} && held == old(held) - {c}
                && (ip in perIP <==> old(From(open, ip)) != {c})
      ensures old(!(c in open && open[c] == ip)) ==> open == old(open) && held == old(held)
      ensures pool == old(pool)
    {
      hide Counts, Separate;
      ghost var matched := c in open && open[c] == ip;
      if matched {
        CloseCounts(refs, open, c);
        StillOpen(refs, open, c);
      }
      DropOne(ip);
      if matched {
        open, held := open - {c}, held - {c};
      }
    }
  }

  /** The addresses of the connections that stay keep their entries. */
  lemma StillOpen(refs: map<string, int>, open: map<nat, string>, c: nat)
    requires Counts(refs, open) && c in open
    ensures forall d | d in open && d != c :: open[d] in Released(refs, open[c])
  {
    CloseCounts(refs, open, c);
    forall d | d in open && d != c ensures open[d] in Released(refs, open[c]) {
      assert d in From(open - {c}, open[d]);
    }
  }
}
