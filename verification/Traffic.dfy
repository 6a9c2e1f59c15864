/** Traffic deltas from resettable counters: src/internal/traffic/traffic.go and
    the snapshot side of src/internal/xrayrt/xray.go. */
module Traffic {

  /** Cumulative bytes in each direction. */
  datatype Counter = Counter(up: nat, down: nat) {
    function Total(): nat { up + down }
    function Plus(c: Counter): Counter { Counter(up + c.up, down + c.down) }
  }

  type Snapshot = map<string, Counter>

  const ZERO := Counter(0, 0)

  /** A map read the Go way: absent means zero. */
  function Of(s: Snapshot, id: string): Counter {
    if id in s then s[id] else ZERO
  }

  /** A value below the previous one means that the counter was reset. */
  function DeltaOne(prev: nat, cur: nat): nat {
    if cur < prev then cur else cur - prev
  }

  function Delta(prev: Counter, cur: Counter): Counter {
    Counter(DeltaOne(prev.up, cur.up), DeltaOne(prev.down, cur.down))
  }

  function Deltas(prev: Snapshot, cur: Snapshot): Snapshot {
    map id | id in cur :: Delta(Of(prev, id), cur[id])
  }

  method ComputeDeltas(prev: Snapshot, cur: Snapshot) returns (out: Snapshot)
    ensures out == Deltas(prev, cur)
  {
    out := map[];
    var todo := cur.Keys;
    while todo != {}
      invariant todo <= cur.Keys
      invariant out == map id | id in cur && id !in todo :: Delta(Of(prev, id), cur[id])
      decreases |todo|
    {
      var id :| id in todo;
      var p, c := Of(prev, id), cur[id];
      out := out[id := Counter(DeltaOne(p.up, c.up), DeltaOne(p.down, c.down))];
      todo := todo - {id};
    }
  }

  function IdSet(ids: seq<string>): set<string> {
    set id | id in ids
  }

  /** The counters of the tracked ids, as Stats and InboundStats report them:
      an id whose two counters are zero is left out.  A negative reading counts
      as zero. */
  function Reported(ids: set<string>, raw: map<string, (int, int)>): Snapshot {
    map id | id in ids && Reading(raw, id) != ZERO :: Reading(raw, id)
  }

  function Reading(raw: map<string, (int, int)>, id: string): Counter {
    if id in raw
    then Counter(if raw[id].0 > 0 then raw[id].0 else 0, if raw[id].1 > 0 then raw[id].1 else 0)
    else ZERO
  }

  /** What a report says of one id: its two readings, a negative one counted as
      zero; nothing if it is not tracked or both are zero. */
  lemma {:induction false} ReportedIs(ids: set<string>, raw: map<string, (int, int)>, id: string)
    ensures id in Reported(ids, raw) <==> id in ids && id in raw && (raw[id].0 > 0 || raw[id].1 > 0)
    ensures id in Reported(ids, raw) ==>
              && (raw[id].0 >= 0 ==> Reported(ids, raw)[id].up == raw[id].0)
              && (raw[id].1 >= 0 ==> Reported(ids, raw)[id].down == raw[id].1)
              && (raw[id].0 < 0 ==> Reported(ids, raw)[id].up == 0)
              && (raw[id].1 < 0 ==> Reported(ids, raw)[id].down == 0)
  {}

  /** XrayRuntime.Stats over the list of tracked ids. */
  method Stats(ids: seq<string>, raw: map<string, (int, int)>) returns (out: Snapshot)
    ensures out == Reported(IdSet(ids), raw)
  {
    out := map[];
    for i := 0 to |ids|
      invariant out == Reported(IdSet(ids[..i]), raw)
    {
      var r := Reading(raw, ids[i]);
      assert IdSet(ids[..i + 1]) == IdSet(ids[..i]) + {ids[i]};
      if r.up == 0 && r.down == 0 {
        continue;
      }
      out := out[ids[i] := r];
    }
    assert ids[..|ids|] == ids;
  }

  /** Leaving zero ids out of the snapshots changes no delta: that of a tracked
      id, absent or not, is the delta of its two readings. */
  lemma OmissionHarmless(ids: set<string>, was: map<string, (int, int)>, raw: map<string, (int, int)>, id: string)
    requires id in ids
    ensures Of(Deltas(Reported(ids, was), Reported(ids, raw)), id) == Delta(Reading(was, id), Reading(raw, id))
  {
    assert Of(Reported(ids, was), id) == Reading(was, id);
    hide Reading;
  }
}
