/** The copy loop of src/internal/throttle/proxy.go: read a piece, pay for it,
    write it.  The network ends are scripts: what each Read will return and how
    each Write will end. */
module LimitedCopy {
  import opened Octets
  import opened TokenBucket

  const CHUNK: nat := 32 * 1024

  datatype Ending = Open | Eof | Broken

  /** One Read: some bytes, and possibly an end reported together with them. */
  datatype ReadEvent = ReadEvent(data: seq<byte>, ending: Ending)

  /** One Write: all bytes taken, or an error after at most `taken` of them. */
  datatype WriteEvent = Took | Failed(taken: nat)

  /** Everything the reader hands over up to its end. */
  function Content(script: seq<ReadEvent>): seq<byte> {
    if script == [] then []
    else if script[0].ending != Open then script[0].data
    else script[0].data + Content(script[1..])
  }

  /** How the reader ends; a script that runs out has reached the end of file. */
  function EndOf(script: seq<ReadEvent>): Ending {
    if script == [] then Eof
    else if script[0].ending != Open then script[0].ending
    else EndOf(script[1..])
  }

  class Reader {
    var script: seq<ReadEvent>

    /** The io.Reader contract: never more bytes than the buffer holds. */
    ghost predicate Valid() reads this {
      forall e | e in script :: |e.data| <= CHUNK
    }

    method Read() returns (data: seq<byte>, ending: Ending)
      requires Valid()
      modifies this
      ensures Valid() && |data| <= CHUNK
      ensures old(script) == [] ==> data == [] && ending == Eof && script == []
      ensures old(script) != [] ==> ReadEvent(data, ending) == old(script)[0] && script == old(script)[1..]
    {
      if script == [] {
        return [], Eof;
      }
      data, ending := script[0].data, script[0].ending;
      script := script[1..];
    }
  }

  class Writer {
    var delivered: seq<byte>
    var script: seq<WriteEvent>
    ghost var broke: bool  // some write has failed

    method Write(p: seq<byte>) returns (ok: bool)
      modifies this
      ensures ok <==> old(script) == [] || old(script)[0] == Took
      ensures broke == (old(broke) || !ok)
      ensures script == if old(script) == [] then [] else old(script)[1..]
      ensures ok ==> delivered == old(delivered) + p
      ensures !ok ==>
                var k := if old(script)[0].taken < |p| then old(script)[0].taken else |p|;
                delivered == old(delivered) + p[..k]
    {
      var e := Took;
      if script != [] {
        e, script := script[0], script[1..];
      }
      match e
      case Took =>
        delivered := delivered + p;
        ok := true;
      case Failed(taken) =>
        var k := if taken < |p| then taken else |p|;
        delivered := delivered + p[..k];
        ok := false;
        broke := true;
    }
  }

  datatype Outcome = Done | ReadFailed | WriteFailed

  /** A piece cut short is still a prefix of what was to come. */
  lemma CutShort(was: seq<byte>, data: seq<byte>, rest: seq<byte>, k: nat)
    requires k <= |data|
    ensures was <= was + data[..k] <= was + (data + rest)
  {
    assert data == data[..k] + data[k..];
    assert was + (data + rest) == was + data[..k] + (data[k..] + rest);
  }

  /** One Read takes the first event off the script. */
  lemma ScriptStep(script: seq<ReadEvent>)
    ensures script == [] ==> Content(script) == [] && EndOf(script) == Eof
    ensures script != [] ==>
              var e := script[0];
              && Content(script) == e.data + (if e.ending == Open then Content(script[1..]) else [])
              && EndOf(script) == if e.ending == Open then EndOf(script[1..]) else e.ending
  {}

  /** From one reading of a bucket to a later one, `n` bytes were paid for out of
      the tokens it had and earned. */
  ghost predicate PaidFor(rate: real, was: Level, now: Level, n: int) {
    rate > 0.0 ==>
      was.last <= now.last && n as real + now.tokens <= was.tokens + Earned(rate, now.last - was.last)
  }

  lemma PaidIs(rate: real)
    ensures rate > 0.0 ==>
              forall was, now, n :: PaidFor(rate, was, now, n) ==>
                was.last <= now.last && n as real + now.tokens <= was.tokens + Earned(rate, now.last - was.last)
  {}

  lemma PaidNothing(rate: real, was: Level)
    ensures PaidFor(rate, was, was, 0)
  {
    assert Earned(rate, was.last - was.last) == 0.0;
  }

  lemma PaidMore(rate: real, a: Level, b: Level, c: Level, m: int, n: int)
    requires PaidFor(rate, a, b, m) && PaidFor(rate, b, c, n)
    ensures PaidFor(rate, a, c, m + n) && forall k: int | k <= m + n :: PaidFor(rate, a, c, k)
  {
    EarnedAdds(rate, a.last, b.last, c.last);
    hide Earned;
  }

  /** Pay for a piece, then write it. */
  method Forward(dst: Writer, b: Bucket, data: seq<byte>) returns (ok: bool)
    requires b.Ready() && |data| <= CHUNK
    requires b.rate > 0.0 ==> CHUNK as real <= b.burst
    modifies dst, b, b.clock
    ensures b.Ready()
    ensures dst.broke == (old(dst.broke) || !ok)
    ensures ok ==> dst.delivered == old(dst.delivered) + data
    ensures !ok ==> exists k: nat | k <= |data| :: dst.delivered == old(dst.delivered) + data[..k]
    ensures PaidFor(b.rate, old(b.View()), b.View(), |data|)
  {
    var polls := b.WaitN(|data| as real);
    hide Earned;
    ok := dst.Write(data);
  }

  /** Copies until the reader ends or a write fails.  What arrives is an
      in-order prefix of the source; it is the whole source, counted byte for
      byte, unless a write failed; and the bucket was paid for all of it. */
  method LimitedCopy(dst: Writer, src: Reader, b: Bucket) returns (total: nat, outcome: Outcome)
    requires src.Valid() && b.Ready()
    requires b.rate > 0.0 ==> CHUNK as real <= b.burst
    modifies dst, src, b, b.clock
    ensures b.Ready() && src.Valid()
    ensures old(dst.delivered) <= dst.delivered <= old(dst.delivered) + Content(old(src.script))
    ensures outcome != WriteFailed ==>
              && dst.delivered == old(dst.delivered) + Content(old(src.script))
              && total == |Content(old(src.script))|
              && outcome == (if EndOf(old(src.script)) == Broken then ReadFailed else Done)
    ensures outcome == WriteFailed ==> total <= |dst.delivered| - |old(dst.delivered)| <= total + CHUNK
    ensures dst.broke == (old(dst.broke) || outcome == WriteFailed)
    ensures b.rate > 0.0 ==>
              && old(b.last) <= b.last
              && (|dst.delivered| - |old(dst.delivered)|) as real + b.tokens
                 <= old(b.tokens) + Earned(b.rate, b.last - old(b.last))
  {
    total := 0;
    ghost var base := dst.delivered;
    ghost var all := Content(src.script);
    hide PaidFor;
    PaidNothing(b.rate, b.View());
    PaidIs(b.rate);
    while true
      invariant src.Valid() && b.Ready()
      invariant total == |dst.delivered| - |base|
      invariant dst.delivered + Content(src.script) == base + all
      invariant base <= dst.delivered
      invariant EndOf(src.script) == EndOf(old(src.script))
      invariant dst.broke == old(dst.broke)
      invariant PaidFor(b.rate, old(b.View()), b.View(), total)
      decreases |src.script|
    {
      ghost var was, level, script := dst.delivered, b.View(), src.script;
      var data, ending := src.Read();
      ghost var rest := if ending == Open then Content(src.script) else [];
      ScriptStep(script);
      if |data| > 0 {
        var ok := Forward(dst, b, data);
        PaidMore(b.rate, old(b.View()), level, b.View(), total, |data|);
        if !ok {
          ghost var k: nat :| k <= |data| && dst.delivered == was + data[..k];
          CutShort(was, data, rest, k);
          return total, WriteFailed;
        }
        total := total + |data|;
        assert dst.delivered + rest == was + (data + rest);
      }
      if ending != Open {
        assert dst.delivered == base + all && EndOf(script) == ending;
        return total, if ending == Eof then Done else ReadFailed;
      }
    }
  }

  /** Proxy.burst: a quarter of a second's worth, at least four chunks. */
  function BurstFor(rate: real): (burst: real)
    ensures burst >= 131_072.0 && burst >= rate * 0.25
    ensures burst == 131_072.0 || burst == rate * 0.25
    ensures burst >= (4 * CHUNK) as real
  {
    var b := rate * 0.25;
    if b < (4 * CHUNK) as real then (4 * CHUNK) as real else b
  }
}
