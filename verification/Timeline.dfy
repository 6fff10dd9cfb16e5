/** The timeline part of the shared header: a generation that attach and reset bump, and a snapshot
    the writer publishes once per generation and then at the beacon period. */
module Timelines {
  import opened Basics

  const I64_LIMIT: int := 0x8000_0000_0000_0000

  /** i64 nanoseconds. */
  type Nanos = x: int | -I64_LIMIT <= x < I64_LIMIT

  /** `as i64` on a u64. */
  function AsI64(x: nat): Nanos {
    if x % U64_LIMIT < I64_LIMIT then x % U64_LIMIT else x % U64_LIMIT - U64_LIMIT
  }

  datatype Timeline = Timeline(
    gen: nat, snapshotGen: nat, valid: bool, seqNo: nat,
    sinkMonoNs: nat, producerPtsNs: nat, readyHead: nat)

  /** What the writer remembers about its last snapshot. */
  datatype Beacon = Beacon(periodNs: nat, lastEmitNs: nat, lastGen: nat)

  datatype Snapshot = Snapshot(
    gen: nat, snapshotGen: nat, valid: bool, seqNo: nat,
    sinkMonoNs: nat, producerPtsNs: Nanos, readyHead: nat)

  const INITIAL := Timeline(0, 0, false, 0, 0, 0, 0)

  function NextGeneration(t: Timeline): Timeline {
    t.(gen := t.gen + 1, valid := false)
  }

  predicate EmissionDue(t: Timeline, b: Beacon, now: nat) {
    t.gen != b.lastGen || Max(now - b.lastEmitNs, 0) >= b.periodNs
  }

  function Emit(t: Timeline, ptsNs: Nanos, readyHead: nat, now: nat): Timeline {
    Timeline(t.gen, t.gen, true, t.seqNo + 1, now, Max(ptsNs, 0), readyHead)
  }

  function Emitted(t: Timeline, b: Beacon, now: nat): Beacon {
    Beacon(b.periodNs, now, t.gen)
  }

  function Read(t: Timeline): Snapshot {
    Snapshot(t.gen, t.snapshotGen, t.valid, t.seqNo, t.sinkMonoNs, AsI64(t.producerPtsNs), t.readyHead)
  }

  /** A valid snapshot belongs to the current generation and carries a non-zero sequence number. */
  predicate SnapshotOk(t: Timeline) {
    t.snapshotGen <= t.gen && (t.valid ==> t.snapshotGen == t.gen && t.seqNo > 0)
  }

  /** Besides, a snapshot's timestamp reads back as a non-negative i64, and the writer is never ahead of
      the header. */
  predicate TimelineOk(t: Timeline, b: Beacon) {
    && SnapshotOk(t)
    && t.producerPtsNs < I64_LIMIT
    && b.lastGen <= t.gen
    && (!t.valid ==> b.lastGen < t.gen || b.lastEmitNs == 0)
  }
}
