/** When the consumer's offset and timestamps come from the right generation, in terms of where attaches
    and resets fall among the loads and stores. */
module Consumer {
  import opened Basics
  import opened Timelines
  import opened System
  import opened ClockSync
  import opened Sessions

  // ---------------------------------------------------------------- one reading

  /** The writer's timestamp survives its trip through u64: between operations a snapshot is usable as
      soon as it is valid. */
  lemma ValidSnapshotsAreUsable(t: Timeline, b: Beacon)
    requires TimelineOk(t, b)
    ensures Usable(Read(t)) <==> t.valid
    ensures Read(t).producerPtsNs == t.producerPtsNs
    ensures Usable(Read(t)) ==> Read(t).snapshotGen == Read(t).gen && Read(t).seqNo > 0
  {
  }

  /** After a generation change, or a start, the first valid snapshot is adopted in full, however its
      loads were interleaved; later ones move the offset by at most 2 ms. */
  lemma FirstSnapshotInFullThenSlewed(x: Session, now: nat)
    requires Following(x) && CanMap(x) && x.loading.snap.valid
    ensures var snap := x.loading.snap;
            var f := Followed(x.sync, snap, Some(now));
            && f.offsetValid && f.expectedGen == snap.gen
            && (if !x.sync.offsetValid || x.sync.expectedGen != snap.gen then f.offsetNs == Desired(snap, now)
                else Abs(f.offsetNs - x.sync.offsetNs) <= STEP_NS)
  {
    SlewIsExact(x.sync.offsetNs, Desired(x.loading.snap, now));
  }

  // ---------------------------------------------------------------- the offset

  /** Both values behind a valid offset were announced in the expected generation. */
  predicate InStep(x: Session) {
    x.sync.offsetValid ==> x.clock.gen == x.sync.expectedGen == x.stamp.gen
  }

  lemma StepStaysInStepIff(x: Session, a: Act)
    requires Following(x) && InStep(x)
    ensures var l := x.loading;
            InStep(NextSession(x, a)) <==> (AdoptsNow(x, a) ==> l.clock.gen == l.gen.gen == l.stamp.gen)
  {
  }

  ghost predicate InStepThroughout(x: Session, acts: seq<Act>) {
    forall i :: 0 <= i <= |acts| ==> InStep(At(x, acts, i))
  }

  /** If act `i` adopts a snapshot, then no attach or reset lies between the consumer's load of the
      generation and the announcement's, for the announcement that stored the sink clock it loaded and
      for the one that stored the timestamp. */
  ghost predicate AdoptsStill(x: Session, acts: seq<Act>, i: nat)
    requires i < |acts|
  {
    var y := At(x, acts, i);
    AdoptsNow(y, acts[i]) ==>
      && y.loading.gen.at <= |acts| && y.loading.clock.at <= |acts| && y.loading.stamp.at <= |acts|
      && Still(x, acts, y.loading.gen.at, y.loading.clock.at)
      && Still(x, acts, y.loading.gen.at, y.loading.stamp.at)
  }

  lemma AdoptionStaysInStepIff(x: Session, acts: seq<Act>, i: nat)
    requires IsFresh(x) && ActsIssued(x, acts) && i < |acts| && InStep(At(x, acts, i))
    ensures InStep(At(x, acts, i + 1)) <==> AdoptsStill(x, acts, i)
  {
    var y := At(x, acts, i);
    FreshIsFollowing(x);
    SessionsFollow(x, acts, i);
    AtNext(x, acts, i);
    StepStaysInStepIff(y, acts[i]);
    SameMarkIff(x, acts, i, y.loading.gen, y.loading.clock);
    SameMarkIff(x, acts, i, y.loading.gen, y.loading.stamp);
  }

  lemma {:induction false} InStepUpTo(x: Session, acts: seq<Act>, i: nat)
    requires IsFresh(x) && ActsIssued(x, acts) && i <= |acts|
    requires forall k :: 0 <= k < |acts| ==> AdoptsStill(x, acts, k)
    ensures InStep(At(x, acts, i))
  {
    if i == 0 {
      assert acts[..0] == [];
    } else {
      InStepUpTo(x, acts, i - 1);
      AdoptionStaysInStepIff(x, acts, i - 1);
    }
  }

  /** Over every session, whoever acts between any two loads and stores: the consumer is in step all the
      way exactly when no attach or reset comes between the two loads of the generation, its own and
      the announcement's, behind any value it adopts. */
  lemma InStepThroughoutIff(x: Session, acts: seq<Act>)
    requires IsFresh(x) && ActsIssued(x, acts)
    ensures InStepThroughout(x, acts) <==> forall i :: 0 <= i < |acts| ==> AdoptsStill(x, acts, i)
  {
    if InStepThroughout(x, acts) {
      forall i | 0 <= i < |acts|
        ensures AdoptsStill(x, acts, i)
      {
        AdoptionStaysInStepIff(x, acts, i);
      }
    }
    if forall i :: 0 <= i < |acts| ==> AdoptsStill(x, acts, i) {
      forall i | 0 <= i <= |acts|
        ensures InStep(At(x, acts, i))
      {
        InStepUpTo(x, acts, i);
      }
    }
  }

  /** A test the code does not make: the loaded snapshot generation is the loaded generation, and the
      header still has it when it is loaded again after the data. Then adopting keeps the consumer in
      step, whatever went on meanwhile. */
  lemma CheckedReadingKeepsStep(x: Session, now: Option<nat>)
    requires Following(x) && InStep(x) && CanMap(x)
    requires x.loading.snap.snapshotGen == x.loading.snap.gen == Header(x).gen
    ensures InStep(NextSession(x, Map(now)))
  {
    StepStaysInStepIff(x, Map(now));
  }

  /** No store of a snapshot and no other step of the consumer than a load. */
  predicate Unwritten(acts: seq<Act>) {
    forall a :: a in acts ==> !a.StoreWord? && !a.Take? && !a.Map? && !a.Begin?
  }

  lemma UnwrittenStep(x: Session, a: Act)
    requires !a.StoreWord? && !a.Take? && !a.Map? && !a.Begin?
    ensures var y := NextSession(x, a);
            && y.tags == x.tags && y.frame == x.frame && y.sync == x.sync && y.clock == x.clock && y.stamp == x.stamp
            && Header(y).snapshotGen == Header(x).snapshotGen
            && y.loading == if a.Load? && x.frame.Some? then LoadField(x.loading, Header(x), x.tags, Here(x))
                            else x.loading
  {
    if a.Transport? { TransportChangesHeader(x, a.e); }
  }

  lemma {:induction false} UnwrittenReading(x: Session, acts: seq<Act>)
    requires x.frame.Some? && x.loading.count == 0 && Unwritten(acts) && Header(x).snapshotGen == x.tags.snap.gen
    ensures var y := RunSession(x, acts);
            && y.tags == x.tags && y.frame == x.frame && y.sync == x.sync && y.clock == x.clock && y.stamp == x.stamp
            && Header(y).snapshotGen == Header(x).snapshotGen
            && (y.loading.count >= 3 ==> y.loading.snap.snapshotGen == x.tags.snap.gen)
            && (y.loading.count >= 5 ==> y.loading.clock == x.tags.clock)
            && (y.loading.count >= 6 ==> y.loading.stamp == x.tags.stamp)
  {
    if acts != [] {
      var k := |acts| - 1;
      assert forall a :: a in acts[..k] ==> a in acts;
      assert acts[k] in acts;
      UnwrittenReading(x, acts[..k]);
      UnwrittenStep(RunSession(x, acts[..k]), acts[k]);
    }
  }

  /** If no announcement is under way when a reading begins and nothing is stored until it ends, adopting
      keeps the consumer in step exactly when the two loaded generations are equal, wherever attaches
      and resets fall. The code does not compare them. */
  lemma UnwrittenReadingKeepsStepIff(x: Session, acts: seq<Act>, now: Option<nat>)
    requires Following(x) && InStep(x) && x.frame.Some? && x.loading.count == 0 && !x.writing.Storing?
    requires ActsIssued(x, acts) && Unwritten(acts) && AdoptsNow(RunSession(x, acts), Map(now))
    ensures var z := RunSession(x, acts);
            InStep(NextSession(z, Map(now))) <==> z.loading.snap.snapshotGen == z.loading.snap.gen
  {
    assert acts[..|acts|] == acts;
    SessionsFollow(x, acts, |acts|);
    UnwrittenReading(x, acts);
    StepStaysInStepIff(RunSession(x, acts), Map(now));
  }

  // ---------------------------------------------------------------- undisturbed sessions

  /** A reading whose data are not yet loaded. */
  predicate ReadingNow(x: Session) {
    x.frame.Some? && 1 <= x.loading.count < 6
  }

  /** The three ways to go wrong: an attach or reset within an announcement, within a reading, or one
      that has not yet invalidated the snapshot when a reading begins. */
  ghost predicate Disturbs(x: Session, a: Act) {
    || (Changes(x, a) && (x.writing.Storing? || ReadingNow(x)))
    || (a.Load? && x.frame.Some? && x.loading.count == 0 && InvalidationDue(x))
  }

  ghost predicate NothingDisturbs(x: Session, acts: seq<Act>) {
    forall i :: 0 <= i < |acts| ==> !Disturbs(At(x, acts, i), acts[i])
  }

  predicate TagsAre(g: Tags, gen: nat) {
    g.clock.gen == gen == g.stamp.gen
  }

  /** What undisturbed sessions keep: a valid snapshot whose generation is not about to change, an
      announcement under way and a reading under way are of the current generation. */
  predicate Current(x: Session) {
    var l := x.loading;
    && (Header(x).valid && !InvalidationDue(x) ==> TagsAre(x.tags, Header(x).gen))
    && (x.writing.Storing? ==> x.writing.mark.gen == Header(x).gen)
    && (ReadingNow(x) && l.snap.valid ==>
          && TagsAre(x.tags, Header(x).gen)
          && (l.count >= 2 ==> l.gen.gen == Header(x).gen) && (l.count >= 5 ==> l.clock.gen == Header(x).gen))
    && (x.frame.Some? && l.count >= 6 && l.snap.valid ==> l.clock.gen == l.gen.gen == l.stamp.gen)
  }

  lemma TransportStaysCurrent(x: Session, e: Event)
    requires Current(x) && !Disturbs(x, Transport(e))
    ensures Current(AfterTransport(x, e))
  {
    TransportChangesHeader(x, e);
  }

  lemma StoreStaysCurrent(x: Session)
    requires Following(x) && Current(x)
    ensures Current(AfterStore(x))
  {
  }

  lemma TakeStaysCurrent(x: Session, latest: bool)
    requires Current(x)
    ensures Current(AfterTake(x, latest))
  {
    TimelineAfter(x.s, TakeEvent(latest));
  }

  lemma LoadStaysCurrent(x: Session)
    requires Following(x) && Current(x) && !Disturbs(x, Load)
    ensures Current(Effect(x, Load))
  {
  }

  lemma OthersStayCurrent(x: Session, a: Act)
    requires Following(x) && Current(x) && !a.Transport? && !a.StoreWord? && !a.Take? && !a.Load?
    ensures Current(Effect(x, a))
  {
  }

  lemma StepStaysCurrent(x: Session, a: Act)
    requires Following(x) && Current(x) && !Disturbs(x, a)
    ensures Current(NextSession(x, a))
  {
    match a {
      case Transport(e) => TransportStaysCurrent(x, e);
      case StoreWord => StoreStaysCurrent(x);
      case Take(latest) => TakeStaysCurrent(x, latest);
      case Load => LoadStaysCurrent(x);
      case _ => OthersStayCurrent(x, a);
    }
  }

  lemma CurrentStaysInStep(x: Session, a: Act)
    requires Following(x) && Current(x) && InStep(x)
    ensures InStep(NextSession(x, a))
  {
    StepStaysInStepIff(x, a);
  }

  lemma {:induction false} StaysCurrentUpTo(x: Session, acts: seq<Act>, i: nat)
    requires IsFresh(x) && ActsIssued(x, acts) && NothingDisturbs(x, acts) && i <= |acts|
    ensures var y := At(x, acts, i);
            Following(y) && Current(y) && InStep(y)
  {
    FreshIsFollowing(x);
    if i == 0 {
      assert acts[..0] == [];
    } else {
      StaysCurrentUpTo(x, acts, i - 1);
      SessionsFollow(x, acts, i);
      AtNext(x, acts, i - 1);
      StepStaysCurrent(At(x, acts, i - 1), acts[i - 1]);
      CurrentStaysInStep(At(x, acts, i - 1), acts[i - 1]);
    }
  }

  /** Over every undisturbed session, wherever else attaches and resets fall, the consumer is in step
      all the way, and every valid snapshot is current once its invalidations are through. */
  lemma SessionsStayInStep(x: Session, acts: seq<Act>)
    requires IsFresh(x) && ActsIssued(x, acts) && NothingDisturbs(x, acts)
    ensures InStepThroughout(x, acts)
    ensures var y := RunSession(x, acts);
            Header(y).valid && !InvalidationDue(y) ==> TagsAre(y.tags, Header(y).gen)
  {
    forall i | 0 <= i <= |acts|
      ensures InStep(At(x, acts, i)) && Current(At(x, acts, i))
    {
      StaysCurrentUpTo(x, acts, i);
    }
    assert At(x, acts, |acts|) == RunSession(x, acts) by { assert acts[..|acts|] == acts; }
  }

  // ---------------------------------------------------------------- frames

  /** The output timestamp `Map` gives the frame. */
  function Stamped(x: Session, now: Option<nat>): Option<nat>
    requires x.frame.Some?
  {
    MappedFrame(x.sync, true, x.loading.snap, now, x.frame.value.desc.ptsNs, x.frame.value.dropped).pts
  }

  /** The frame is mapped by values announced in the generation it was published in. */
  predicate MappedInItsGeneration(x: Session, now: Option<nat>)
    requires x.frame.Some?
  {
    var y := AfterMap(x, now);
    y.clock.gen == x.frame.value.gen == y.stamp.gen
  }

  lemma MapKeepsMarks(x: Session, now: Option<nat>)
    requires CanMap(x)
    ensures IsMark(x, AfterMap(x, now).clock) && IsMark(x, AfterMap(x, now).stamp) && IsMark(x, x.frame.value.taken)
  {
  }

  /** In every session a frame is mapped by values of its own generation exactly when no attach or reset
      lies between the act that takes it and the announcements of the clock and of the timestamp its
      mapping uses, be they adopted now or earlier. */
  lemma FramesAreMappedInTheirGenerationIff(x: Session, acts: seq<Act>, now: Option<nat>)
    requires IsFresh(x) && ActsIssued(x, acts) && CanMap(RunSession(x, acts))
    ensures var z := RunSession(x, acts);
            var y := AfterMap(z, now);
            var taken := z.frame.value.taken.at;
            && taken <= |acts| && y.clock.at <= |acts| && y.stamp.at <= |acts|
            && (MappedInItsGeneration(z, now)
                <==> (Still(x, acts, taken, y.clock.at) && Still(x, acts, taken, y.stamp.at)))
  {
    assert acts[..|acts|] == acts;
    var z := RunSession(x, acts);
    FreshIsFollowing(x);
    SessionsFollow(x, acts, |acts|);
    MapKeepsMarks(z, now);
    SameMarkIff(x, acts, |acts|, z.frame.value.taken, AfterMap(z, now).clock);
    SameMarkIff(x, acts, |acts|, z.frame.value.taken, AfterMap(z, now).stamp);
  }

  lemma StampedIsInStep(z: Session, now: Option<nat>)
    requires Following(z) && InStep(NextSession(z, Map(now))) && CanMap(z) && Stamped(z, now).Some?
    ensures MappedInItsGeneration(z, now) <==> z.loading.gen.gen == z.frame.value.taken.gen
  {
  }

  /** In an undisturbed session a frame that gets an output timestamp is mapped by its own generation
      exactly when no attach or reset lies between the take and the load of the generation. */
  lemma StampedInItsGenerationIff(x: Session, acts: seq<Act>, now: Option<nat>)
    requires IsFresh(x) && ActsIssued(x, acts) && NothingDisturbs(x, acts)
    requires CanMap(RunSession(x, acts)) && Stamped(RunSession(x, acts), now).Some?
    ensures var z := RunSession(x, acts);
            var taken, loaded := z.frame.value.taken.at, z.loading.gen.at;
            && taken <= |acts| && loaded <= |acts|
            && (MappedInItsGeneration(z, now) <==> Still(x, acts, taken, loaded))
  {
    assert acts[..|acts|] == acts;
    var z := RunSession(x, acts);
    StaysCurrentUpTo(x, acts, |acts|);
    CurrentStaysInStep(z, Map(now));
    StampedIsInStep(z, now);
    SameMarkIff(x, acts, |acts|, z.frame.value.taken, z.loading.gen);
  }
}
