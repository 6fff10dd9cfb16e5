/** The consumer's clock synchroniser: it follows the snapshots in the shared header, at most two
    milliseconds a snapshot, and maps producer timestamps to output timestamps. */
module ClockSync {
  import opened Basics
  import opened Timelines

  const STEP_NS: int := 2_000_000

  function Clamp(x: int, lo: int, hi: int): int
    requires lo <= hi
  {
    if x < lo then lo else if x > hi then hi else x
  }

  /** An i128 or wrapped i64 value cut to i64. */
  function ToI64(x: int): Nanos {
    AsI64(x % U64_LIMIT)
  }

  function Saturate(x: int): Nanos {
    Clamp(x, -I64_LIMIT, I64_LIMIT - 1)
  }

  datatype Sync = Sync(
    expectedGen: nat, offsetValid: bool, offsetNs: Nanos, lastSnapshotSeq: nat,
    sinkMonoAtSnap: nat, producerPtsAtSnap: Nanos, needDiscont: bool)

  /** What `start` leaves behind, given the snapshot it reads. */
  function Started(snap: Snapshot): Sync {
    Sync(snap.gen, false, 0, 0, 0, 0, true)
  }

  predicate Usable(snap: Snapshot) {
    snap.valid && snap.producerPtsNs >= 0
  }

  function Desired(snap: Snapshot, now: nat): Nanos {
    Saturate(now - snap.sinkMonoNs)
  }

  function Slew(offset: Nanos, desired: Nanos): Nanos {
    ToI64(offset + Clamp(desired - offset, -STEP_NS, STEP_NS))
  }

  function Synced(s: Sync, snap: Snapshot, now: nat): Sync {
    if !Usable(snap) || snap.seqNo == s.lastSnapshotSeq then s
    else s.(offsetNs := if s.offsetValid then Slew(s.offsetNs, Desired(snap, now)) else Desired(snap, now),
            offsetValid := true, lastSnapshotSeq := snap.seqNo,
            sinkMonoAtSnap := snap.sinkMonoNs, producerPtsAtSnap := snap.producerPtsNs)
  }

  /** A new generation invalidates the offset. */
  function Checked(s: Sync, snap: Snapshot): Sync {
    if snap.gen == s.expectedGen then s
    else s.(expectedGen := snap.gen, offsetValid := false, lastSnapshotSeq := 0, needDiscont := true)
  }

  function Followed(s: Sync, snap: Snapshot, now: Option<nat>): Sync {
    var c := Checked(s, snap);
    if now.Some? then Synced(c, snap, now.value) else c
  }

  function OutPts(s: Sync, ptsNs: Nanos): Option<nat> {
    if s.offsetValid && ptsNs >= 0 then
      var sinkTime := ToI64(ptsNs + ToI64(ToI64(s.sinkMonoAtSnap) - s.producerPtsAtSnap));
      var out := Saturate(sinkTime + s.offsetNs);
      if out >= 0 then Some(out) else None
    else None
  }

  datatype Mapped = Mapped(pts: Option<nat>, discont: bool)

  function MappedFrame(s: Sync, liveOnly: bool, snap: Snapshot, now: Option<nat>, ptsNs: Nanos, dropped: nat): Mapped {
    var f := Followed(s, snap, now);
    if liveOnly then Mapped(OutPts(f, ptsNs), f.needDiscont || dropped > 0)
    else Mapped(if ptsNs >= 0 then Some(ptsNs) else None, false)
  }

  function AfterFrame(s: Sync, liveOnly: bool, snap: Snapshot, now: Option<nat>, dropped: nat): Sync {
    var f := Followed(s, snap, now);
    if !liveOnly then s
    else if f.needDiscont || dropped > 0 then f.(needDiscont := false)
    else f
  }

  // ---------------------------------------------------------------- the objects

  class TimelineState {
    var expectedGen: nat
    var offsetValid: bool
    var offsetNs: Nanos
    var lastSnapshotSeq: nat
    var sinkMonoAtSnap: nat
    var producerPtsAtSnap: Nanos
    var needDiscont: bool

    ghost function View(): Sync
      reads this
    {
      Sync(expectedGen, offsetValid, offsetNs, lastSnapshotSeq, sinkMonoAtSnap, producerPtsAtSnap, needDiscont)
    }

    constructor ()
      ensures View() == Sync(0, false, 0, 0, 0, 0, false)
    {
      expectedGen, offsetValid, offsetNs, lastSnapshotSeq := 0, false, 0, 0;
      sinkMonoAtSnap, producerPtsAtSnap, needDiscont := 0, 0, false;
    }

    constructor Copy(other: TimelineState)
      ensures View() == other.View()
    {
      expectedGen, offsetValid, offsetNs, lastSnapshotSeq :=
        other.expectedGen, other.offsetValid, other.offsetNs, other.lastSnapshotSeq;
      sinkMonoAtSnap, producerPtsAtSnap, needDiscont :=
        other.sinkMonoAtSnap, other.producerPtsAtSnap, other.needDiscont;
    }

    method Start(snap: Snapshot)
      modifies this
      ensures View() == Started(snap)
    {
      expectedGen := snap.gen;
      offsetValid := false;
      offsetNs := 0;
      lastSnapshotSeq := 0;
      sinkMonoAtSnap := 0;
      producerPtsAtSnap := 0;
      needDiscont := true;
    }

    method CheckGeneration(snap: Snapshot)
      modifies this
      ensures View() == Checked(old(View()), snap)
    {
      if snap.gen != expectedGen {
        expectedGen := snap.gen;
        offsetValid := false;
        lastSnapshotSeq := 0;
        needDiscont := true;
      }
    }

    method OutputPts(ptsNs: Nanos) returns (outPts: Option<nat>)
      ensures outPts == OutPts(View(), ptsNs)
    {
      outPts := None;
      if offsetValid && ptsNs >= 0 {
        var sinkTime := ToI64(ptsNs + ToI64(ToI64(sinkMonoAtSnap) - producerPtsAtSnap));
        var out := Saturate(sinkTime + offsetNs);
        if out >= 0 {
          outPts := Some(out);
        }
      }
    }

    method UpdateClockSync(snap: Snapshot, localNowNs: nat)
      modifies this
      ensures View() == Synced(old(View()), snap, localNowNs)
    {
      if !snap.valid || snap.producerPtsNs < 0 {
        return;
      }
      if snap.seqNo == lastSnapshotSeq {
        return;
      }
      var desiredOffset := Clamp(localNowNs - snap.sinkMonoNs, -I64_LIMIT, I64_LIMIT - 1);
      if !offsetValid {
        offsetNs := desiredOffset;
        offsetValid := true;
      } else {
        var err := desiredOffset - offsetNs;
        var step := Clamp(err, -STEP_NS, STEP_NS);
        offsetNs := ToI64(offsetNs + step);
      }
      lastSnapshotSeq := snap.seqNo;
      sinkMonoAtSnap := snap.sinkMonoNs;
      producerPtsAtSnap := snap.producerPtsNs;
    }
  }

  class Shm2Src {
    var timeline: TimelineState
    const liveOnly: bool

    constructor (live: bool)
      ensures liveOnly == live && fresh(timeline)
    {
      timeline := new TimelineState();
      liveOnly := live;
    }

    /** The timestamp part of `create`, on a private copy of the timeline that is stored back. */
    method MapFrame(ptsNs: Nanos, dropped: nat, snap: Snapshot, nowRt: Option<nat>) returns (r: Mapped)
      modifies this`timeline
      ensures timeline == old(timeline) || fresh(timeline)
      ensures r == MappedFrame(old(timeline.View()), liveOnly, snap, nowRt, ptsNs, dropped)
      ensures timeline.View() == AfterFrame(old(timeline.View()), liveOnly, snap, nowRt, dropped)
    {
      var ts := new TimelineState.Copy(timeline);
      ts.CheckGeneration(snap);
      if liveOnly {
        if nowRt.Some? {
          ts.UpdateClockSync(snap, nowRt.value);
        }
        var outPts := ts.OutputPts(ptsNs);
        var discont := ts.needDiscont || dropped > 0;
        if discont {
          ts.needDiscont := false;
        }
        timeline := ts;
        return Mapped(outPts, discont);
      } else if ptsNs >= 0 {
        return Mapped(Some(ptsNs), false);
      } else {
        return Mapped(None, false);
      }
    }
  }

  // ---------------------------------------------------------------- one snapshot

  lemma ToI64IsIdentity(x: int)
    requires -I64_LIMIT <= x < I64_LIMIT
    ensures ToI64(x) == x
  {
    if x < 0 { assert x % U64_LIMIT == x + U64_LIMIT; } else { assert x % U64_LIMIT == x; }
  }

  /** The final cast never truncates, the offset never passes its target, and moves by at most 2 ms. */
  lemma SlewIsExact(offset: Nanos, desired: Nanos)
    ensures Slew(offset, desired) == offset + Clamp(desired - offset, -STEP_NS, STEP_NS)
    ensures Abs(Slew(offset, desired) - offset) <= STEP_NS
    ensures offset <= desired ==> offset <= Slew(offset, desired) <= desired
    ensures desired <= offset ==> desired <= Slew(offset, desired) <= offset
    ensures Abs(desired - Slew(offset, desired)) == Max(0, Abs(desired - offset) - STEP_NS)
  {
    ToI64IsIdentity(offset + Clamp(desired - offset, -STEP_NS, STEP_NS));
  }

  // ---------------------------------------------------------------- lock-in

  datatype Reading = Reading(snap: Snapshot, now: nat)

  function Target(r: Reading): Nanos {
    Desired(r.snap, r.now)
  }

  function SyncedAll(s: Sync, rs: seq<Reading>): Sync
    decreases |rs|
  {
    if rs == [] then s else SyncedAll(Synced(s, rs[0].snap, rs[0].now), rs[1..])
  }

  /** Every snapshot is usable and differs from the one before it. */
  predicate AllNew(lastSeq: nat, rs: seq<Reading>)
    decreases |rs|
  {
    rs != [] ==> Usable(rs[0].snap) && rs[0].snap.seqNo != lastSeq && AllNew(rs[0].snap.seqNo, rs[1..])
  }

  /** Successive targets, from `target` on, differ by at most `drift`. */
  predicate Drifts(target: int, rs: seq<Reading>, drift: nat)
    decreases |rs|
  {
    rs != [] ==> Abs(Target(rs[0]) - target) <= drift && Drifts(Target(rs[0]), rs[1..], drift)
  }

  function LastTarget(target: int, rs: seq<Reading>): int {
    if rs == [] then target else Target(rs[|rs| - 1])
  }

  lemma ErrorsAddUp(before: nat, next: nat, last: nat, gain: nat, n: nat)
    requires next <= Max(0, before - gain) && last <= Max(0, next - n * gain)
    ensures last <= Max(0, before - (n + 1) * gain)
  {
    assert (n + 1) * gain == n * gain + gain;
  }

  /** Each snapshot takes 2 ms less the drift off the error, which then stays zero: the error after n
      snapshots is at most the initial error less n times that, and never below zero. */
  lemma {:induction false} LockIn(s: Sync, target: int, rs: seq<Reading>, drift: nat)
    requires s.offsetValid && drift < STEP_NS
    requires AllNew(s.lastSnapshotSeq, rs) && Drifts(target, rs, drift)
    ensures var t := SyncedAll(s, rs);
            && t.offsetValid
            && Abs(LastTarget(target, rs) - t.offsetNs) <= Max(0, Abs(target - s.offsetNs) - |rs| * (STEP_NS - drift))
    decreases |rs|
  {
    if rs != [] {
      var t := Synced(s, rs[0].snap, rs[0].now);
      SlewIsExact(s.offsetNs, Target(rs[0]));
      LockIn(t, Target(rs[0]), rs[1..], drift);
      ErrorsAddUp(Abs(target - s.offsetNs), Abs(Target(rs[0]) - t.offsetNs),
                  Abs(LastTarget(target, rs) - SyncedAll(s, rs).offsetNs), STEP_NS - drift, |rs| - 1);
    }
  }

  /** Hence the error is zero once the snapshots have covered the initial error, and stays zero. */
  lemma LocksIn(s: Sync, target: int, rs: seq<Reading>, drift: nat)
    requires s.offsetValid && drift < STEP_NS
    requires AllNew(s.lastSnapshotSeq, rs) && Drifts(target, rs, drift)
    requires |rs| * (STEP_NS - drift) >= Abs(target - s.offsetNs)
    ensures SyncedAll(s, rs).offsetNs == LastTarget(target, rs)
  {
    LockIn(s, target, rs, drift);
  }

  // ---------------------------------------------------------------- output timestamps

  function Base(s: Sync): int {
    s.sinkMonoAtSnap - s.producerPtsAtSnap
  }

  /** No sum leaves i64, and the result is not negative. */
  predicate InRange(s: Sync, ptsNs: Nanos) {
    && ptsNs >= 0 && s.sinkMonoAtSnap < I64_LIMIT
    && -I64_LIMIT <= Base(s) < I64_LIMIT
    && -I64_LIMIT <= ptsNs + Base(s) < I64_LIMIT
    && 0 <= ptsNs + Base(s) + s.offsetNs < I64_LIMIT
  }

  lemma OutPtsIsSum(s: Sync, ptsNs: Nanos)
    requires s.offsetValid && InRange(s, ptsNs)
    ensures OutPts(s, ptsNs) == Some(ptsNs + Base(s) + s.offsetNs)
  {
    ToI64IsIdentity(s.sinkMonoAtSnap);
    ToI64IsIdentity(Base(s));
    ToI64IsIdentity(ptsNs + Base(s));
  }

  datatype Tick = Tick(snap: Snapshot, now: Option<nat>, ptsNs: Nanos, dropped: nat)

  /** The synchroniser after the first `k` frames of a live-only stream. */
  function After(s: Sync, ticks: seq<Tick>, k: nat): Sync
    requires k <= |ticks|
  {
    if k == 0 then s
    else AfterFrame(After(s, ticks, k - 1), true, ticks[k - 1].snap, ticks[k - 1].now, ticks[k - 1].dropped)
  }

  function OutputAt(s: Sync, ticks: seq<Tick>, k: nat): Option<nat>
    requires k < |ticks|
  {
    var t := ticks[k];
    MappedFrame(After(s, ticks, k), true, t.snap, t.now, t.ptsNs, t.dropped).pts
  }

  /** One generation, a valid offset, no overflow. */
  ghost predicate Steady(s: Sync, ticks: seq<Tick>) {
    && s.offsetValid
    && (forall k :: 0 <= k < |ticks| ==> ticks[k].snap.gen == s.expectedGen)
    && (forall k :: 0 <= k < |ticks| ==> InRange(After(s, ticks, k + 1), ticks[k].ptsNs))
  }

  lemma {:induction false} StaysSteady(s: Sync, ticks: seq<Tick>, k: nat)
    requires Steady(s, ticks) && k <= |ticks|
    ensures After(s, ticks, k).offsetValid && After(s, ticks, k).expectedGen == s.expectedGen
  {
    if k > 0 { StaysSteady(s, ticks, k - 1); }
  }

  lemma OutputIsSum(s: Sync, ticks: seq<Tick>, k: nat)
    requires Steady(s, ticks) && k < |ticks|
    ensures var t := After(s, ticks, k + 1);
            OutputAt(s, ticks, k) == Some(ticks[k].ptsNs + Base(t) + t.offsetNs)
  {
    StaysSteady(s, ticks, k);
    StaysSteady(s, ticks, k + 1);
    OutPtsIsSum(After(s, ticks, k + 1), ticks[k].ptsNs);
  }

  lemma OffsetMovesByAStep(s: Sync, ticks: seq<Tick>, k: nat)
    requires Steady(s, ticks) && k < |ticks|
    ensures Abs(After(s, ticks, k + 1).offsetNs - After(s, ticks, k).offsetNs) <= STEP_NS
  {
    var a, t := After(s, ticks, k), ticks[k];
    StaysSteady(s, ticks, k);
    SlewIsExact(a.offsetNs, Desired(t.snap, t.now.GetOr(0)));
  }

  /** Consecutive output timestamps differ from the producer's by at most 2 ms plus the change in
      (sink clock - producer timestamp) between the snapshots behind them. */
  lemma OutputFollowsProducer(s: Sync, ticks: seq<Tick>, k: nat)
    requires Steady(s, ticks) && 1 <= k < |ticks|
    ensures OutputAt(s, ticks, k - 1).Some? && OutputAt(s, ticks, k).Some?
    ensures var a, b := After(s, ticks, k), After(s, ticks, k + 1);
            Abs((OutputAt(s, ticks, k).value - OutputAt(s, ticks, k - 1).value) - (ticks[k].ptsNs - ticks[k - 1].ptsNs))
              <= STEP_NS + Abs(Base(b) - Base(a))
  {
    OutputIsSum(s, ticks, k - 1);
    OutputIsSum(s, ticks, k);
    OffsetMovesByAStep(s, ticks, k);
  }

  ghost predicate WellSpaced(s: Sync, ticks: seq<Tick>) {
    forall k :: 1 <= k < |ticks| ==>
      ticks[k].ptsNs - ticks[k - 1].ptsNs > STEP_NS + Abs(Base(After(s, ticks, k + 1)) - Base(After(s, ticks, k)))
  }

  function Outputs(s: Sync, ticks: seq<Tick>): (out: seq<Option<nat>>)
    ensures |out| == |ticks|
  {
    seq(|ticks|, k requires 0 <= k < |ticks| => OutputAt(s, ticks, k))
  }

  ghost predicate Rises(a: Option<nat>, b: Option<nat>) {
    a.Some? && b.Some? && a.value < b.value
  }

  lemma {:induction false} RisesThroughout(out: seq<Option<nat>>, i: nat, j: nat)
    requires forall k :: 1 <= k < |out| ==> Rises(out[k - 1], out[k])
    requires i < j < |out|
    ensures Rises(out[i], out[j])
  {
    assert Rises(out[j - 1], out[j]);
    if i < j - 1 { RisesThroughout(out, i, j - 1); }
  }

  lemma SpacingWins(out: int, spacing: int, slack: int)
    requires Abs(out - spacing) <= slack < spacing
    ensures out > 0
  {
  }

  lemma NextOutputIsLater(s: Sync, ticks: seq<Tick>, k: nat)
    requires Steady(s, ticks) && WellSpaced(s, ticks) && 1 <= k < |ticks|
    ensures Rises(OutputAt(s, ticks, k - 1), OutputAt(s, ticks, k))
  {
    OutputFollowsProducer(s, ticks, k);
    SpacingWins(OutputAt(s, ticks, k).value - OutputAt(s, ticks, k - 1).value,
                ticks[k].ptsNs - ticks[k - 1].ptsNs,
                STEP_NS + Abs(Base(After(s, ticks, k + 1)) - Base(After(s, ticks, k))));
  }

  lemma OutputsRise(s: Sync, ticks: seq<Tick>, k: nat)
    requires 1 <= k < |ticks| && Rises(OutputAt(s, ticks, k - 1), OutputAt(s, ticks, k))
    ensures Rises(Outputs(s, ticks)[k - 1], Outputs(s, ticks)[k])
  {
  }

  /** Output timestamps strictly increase over the whole run when frames are spaced wider than that. */
  lemma OutputIncreases(s: Sync, ticks: seq<Tick>, i: nat, j: nat)
    requires Steady(s, ticks) && WellSpaced(s, ticks) && i < j < |ticks|
    ensures Rises(Outputs(s, ticks)[i], Outputs(s, ticks)[j])
  {
    var out := Outputs(s, ticks);
    forall k | 1 <= k < |out|
      ensures Rises(out[k - 1], out[k])
    {
      NextOutputIsLater(s, ticks, k);
      OutputsRise(s, ticks, k);
    }
    RisesThroughout(out, i, j);
  }

  // ---------------------------------------------------------------- what the mapping means

  /** The offset aimed at is the local clock less the sink clock, cut to i64. */
  lemma DesiredIsClockDifference(snap: Snapshot, now: nat)
    ensures var d := now - snap.sinkMonoNs;
            && (-I64_LIMIT <= d < I64_LIMIT ==> Desired(snap, now) == d)
            && (d >= I64_LIMIT ==> Desired(snap, now) == I64_LIMIT - 1)
            && (d < -I64_LIMIT ==> Desired(snap, now) == -I64_LIMIT)
  {
  }

  /** A valid snapshot with a new number is adopted, field by field; any other changes nothing. */
  lemma SnapshotIsAdoptedIff(s: Sync, snap: Snapshot, now: nat)
    ensures var t := Synced(s, snap, now);
            if snap.valid && snap.producerPtsNs >= 0 && snap.seqNo != s.lastSnapshotSeq then
              && t.offsetValid && t.lastSnapshotSeq == snap.seqNo
              && t.sinkMonoAtSnap == snap.sinkMonoNs && t.producerPtsAtSnap == snap.producerPtsNs
              && t.expectedGen == s.expectedGen && t.needDiscont == s.needDiscont
              && (!s.offsetValid ==> t.offsetNs == Desired(snap, now))
            else t == s
  {
  }

  /** A start takes the generation it finds, forgets any offset, and marks the next frame. */
  lemma StartForgetsOffset(snap: Snapshot, ptsNs: Nanos)
    ensures var s := Started(snap);
            s.expectedGen == snap.gen && !s.offsetValid && s.lastSnapshotSeq == 0 && s.needDiscont
            && OutPts(s, ptsNs) == None
  {
  }

  /** For a frame with this timestamp and this reading no sum leaves i64, and the result is not negative. */
  predicate Representable(snap: Snapshot, now: nat, ptsNs: Nanos) {
    && ptsNs >= 0 && snap.producerPtsNs >= 0 && snap.sinkMonoNs < I64_LIMIT
    && -I64_LIMIT <= now - snap.sinkMonoNs < I64_LIMIT
    && ptsNs + (snap.sinkMonoNs - snap.producerPtsNs) < I64_LIMIT
    && 0 <= now + (ptsNs - snap.producerPtsNs) < I64_LIMIT
  }

  /** A synchroniser that holds this reading, at its target. */
  predicate Holds(s: Sync, snap: Snapshot, now: nat) {
    && s.offsetValid && s.offsetNs == Desired(snap, now)
    && s.sinkMonoAtSnap == snap.sinkMonoNs && s.producerPtsAtSnap == snap.producerPtsNs
  }

  lemma HeldReadingMaps(s: Sync, snap: Snapshot, now: nat, ptsNs: Nanos)
    requires Holds(s, snap, now) && Representable(snap, now, ptsNs)
    ensures OutPts(s, ptsNs) == Some(now + (ptsNs - snap.producerPtsNs))
  {
    DesiredIsClockDifference(snap, now);
    OutPtsIsSum(s, ptsNs);
  }

  /** The consumer has no offset it could keep: it has just started, or the generation is new. */
  predicate Unsynced(s: Sync, snap: Snapshot) {
    if snap.gen == s.expectedGen then !s.offsetValid && snap.seqNo != s.lastSnapshotSeq else snap.seqNo != 0
  }

  /** On first adoption a frame is mapped to the local time of the reading plus its distance from the
      snapshot's timestamp on the producer's clock. */
  lemma FirstFrameIsMappedFromNow(s: Sync, snap: Snapshot, now: nat, ptsNs: Nanos, dropped: nat)
    requires snap.valid && Unsynced(s, snap) && Representable(snap, now, ptsNs)
    ensures MappedFrame(s, true, snap, Some(now), ptsNs, dropped).pts == Some(now + (ptsNs - snap.producerPtsNs))
  {
    SnapshotIsAdoptedIff(Checked(s, snap), snap, now);
    HeldReadingMaps(Followed(s, snap, Some(now)), snap, now, ptsNs);
  }

  lemma {:induction false} LastReadingIsHeld(s: Sync, rs: seq<Reading>)
    requires rs != [] && AllNew(s.lastSnapshotSeq, rs)
    ensures var t, last := SyncedAll(s, rs), rs[|rs| - 1].snap;
            t.offsetValid && t.sinkMonoAtSnap == last.sinkMonoNs && t.producerPtsAtSnap == last.producerPtsNs
    decreases |rs|
  {
    var t := Synced(s, rs[0].snap, rs[0].now);
    SnapshotIsAdoptedIff(s, rs[0].snap, rs[0].now);
    if |rs| == 1 {
      assert SyncedAll(t, rs[1..]) == t;
    } else {
      LastReadingIsHeld(t, rs[1..]);
    }
  }

  /** Once locked in, so is every frame, from the last reading adopted. */
  lemma LockedInFramesAreMappedFromNow(s: Sync, target: int, rs: seq<Reading>, drift: nat, ptsNs: Nanos)
    requires s.offsetValid && drift < STEP_NS && rs != []
    requires AllNew(s.lastSnapshotSeq, rs) && Drifts(target, rs, drift)
    requires |rs| * (STEP_NS - drift) >= Abs(target - s.offsetNs)
    requires Representable(rs[|rs| - 1].snap, rs[|rs| - 1].now, ptsNs)
    ensures var last := rs[|rs| - 1];
            OutPts(SyncedAll(s, rs), ptsNs) == Some(last.now + (ptsNs - last.snap.producerPtsNs))
  {
    LocksIn(s, target, rs, drift);
    LastReadingIsHeld(s, rs);
    HeldReadingMaps(SyncedAll(s, rs), rs[|rs| - 1].snap, rs[|rs| - 1].now, ptsNs);
  }

  /** While no sum leaves i64, a frame is left without a timestamp exactly when there is no offset yet, it
      has none itself, or the result would be negative. */
  lemma UnstampedIff(s: Sync, ptsNs: Nanos)
    requires s.sinkMonoAtSnap < I64_LIMIT && -I64_LIMIT <= Base(s) < I64_LIMIT
    requires -I64_LIMIT <= ptsNs + Base(s) < I64_LIMIT && -I64_LIMIT <= ptsNs + Base(s) + s.offsetNs < I64_LIMIT
    ensures OutPts(s, ptsNs) == None <==> !s.offsetValid || ptsNs < 0 || ptsNs + Base(s) + s.offsetNs < 0
  {
    ToI64IsIdentity(s.sinkMonoAtSnap);
    ToI64IsIdentity(Base(s));
    ToI64IsIdentity(ptsNs + Base(s));
  }

  // ---------------------------------------------------------------- discontinuities

  predicate MarkedAt(s: Sync, ticks: seq<Tick>, k: nat)
    requires k < |ticks|
  {
    var t := ticks[k];
    MappedFrame(After(s, ticks, k), true, t.snap, t.now, t.ptsNs, t.dropped).discont
  }

  lemma NothingLeftToMark(s: Sync, ticks: seq<Tick>, k: nat)
    requires 0 < k <= |ticks|
    ensures !After(s, ticks, k).needDiscont && After(s, ticks, k).expectedGen == ticks[k - 1].snap.gen
  {
  }

  /** In a live-only stream a frame is marked as discontinuous exactly when frames were dropped before it,
      its snapshot is of another generation than the last frame's, or it is the first after a start. */
  lemma MarkedIff(started: Snapshot, ticks: seq<Tick>, k: nat)
    requires k < |ticks|
    ensures MarkedAt(Started(started), ticks, k)
       <==> ticks[k].dropped > 0 || k == 0 || ticks[k].snap.gen != ticks[k - 1].snap.gen
  {
    if k > 0 { NothingLeftToMark(Started(started), ticks, k); }
  }

  /** Otherwise timestamps pass through, nothing is marked and the synchroniser stays as it is. */
  lemma NotLiveOnlyPassesThrough(s: Sync, snap: Snapshot, now: Option<nat>, ptsNs: Nanos, dropped: nat)
    ensures var m := MappedFrame(s, false, snap, now, ptsNs, dropped);
            && (ptsNs >= 0 ==> m.pts == Some(ptsNs)) && (ptsNs < 0 ==> m.pts == None) && !m.discont
    ensures AfterFrame(s, false, snap, now, dropped) == s
  {
  }
}
