/** The consumer and the transport together, the header of the region load by load and store by store.
    `create` takes a frame, loads the seven fields of the snapshot and maps the frame's timestamp; the
    writer announces a snapshot by loading the generation and storing six fields; attach and reset
    change the generation and invalidate the snapshot later. Anyone may act between any two of these. */
module Sessions {
  import opened Basics
  import opened Timelines
  import opened Channels
  import opened System
  import opened SoundRuns
  import opened Guarantees
  import opened ClockSync

  /** A generation, and the act at which it was loaded from the header. */
  datatype Mark = Mark(gen: nat, at: nat)

  const ORIGIN := Mark(0, 0)

  /** Where the words of the snapshot come from: the load of the generation by the announcement that
      stored the sink clock, the producer timestamp and the snapshot generation. `valid` is the act at
      which the snapshot was last made valid. */
  datatype Tags = Tags(clock: Mark, stamp: Mark, snap: Mark, valid: Mark)

  /** What the writer is in the middle of; `Storing(k, ..)` has made `k` of its stores. */
  datatype Writing =
    | Idle
    | Resetting
    | Deciding(ptsNs: Nanos, head: nat)
    | Starting(ptsNs: Nanos, head: nat)
    | Storing(k: nat, mark: Mark, now: nat, ptsNs: Nanos, head: nat)

  /** A snapshot being loaded; the marks say where the loaded generation, sink clock and timestamp
      come from. */
  datatype Loading = Loading(count: nat, snap: Snapshot, gen: Mark, clock: Mark, stamp: Mark)

  const NOTHING_LOADED := Loading(0, Snapshot(0, 0, false, 0, 0, 0, 0), ORIGIN, ORIGIN, ORIGIN)

  /** A frame in `create`'s hands, with the generation it was published in. */
  datatype Frame = Frame(desc: ReadyDesc, dropped: nat, gen: nat, taken: Mark)

  /** `clock` and `stamp` say where the values behind the consumer's offset come from, and `time`
      counts the acts. */
  datatype Session = Session(
    s: State, tags: Tags, writing: Writing, attaching: nat,
    sync: Sync, frame: Option<Frame>, loading: Loading, clock: Mark, stamp: Mark, time: nat)

  datatype Act =
    | Transport(e: Event)
    | Invalidate(byWriter: bool)
    | Queue(lease: Lease, ptsNs: Nanos)
    | Decide(due: nat)
    | Announce(ptsNs: Nanos)
    | LoadGeneration(clock: nat)
    | StoreWord
    | Begin
    | Take(latest: bool)
    | Load
    | Map(now: Option<nat>)

  const FIELDS := 7
  const STORES := 6

  function Header(x: Session): Timeline {
    x.s.c.shm.timeline
  }

  function WithTimeline(s: State, t: Timeline): State {
    s.(c := s.c.(shm := s.c.shm.(timeline := t)))
  }

  function Here(x: Session): Mark {
    Mark(Header(x).gen, x.time)
  }

  /** An attach or reset has changed the generation and not yet invalidated the snapshot. */
  predicate InvalidationDue(x: Session) {
    x.attaching > 0 || x.writing.Resetting?
  }

  // ---------------------------------------------------------------- transport and writer

  /** The writer does one thing at a time; publishing and announcing have acts of their own. */
  predicate InTurn(x: Session, e: Event) {
    && !e.PublishLease? && !e.EmitSnapshot?
    && (e.AllocLease? || e.FreeLease? || e.DrainRecycles? || e.Reset? ==> x.writing.Idle?)
  }

  ghost predicate Changes(x: Session, a: Act) {
    a.Transport? && InTurn(x, a.e) && (a.e.Attach? || Resets(x.s, a.e))
  }

  ghost function AfterTransport(x: Session, e: Event): Session {
    if !InTurn(x, e) then x
    else
      var t := Next(x.s, e);
      x.(s := WithTimeline(t, t.c.shm.timeline.(valid := Header(x).valid)),
         writing := if Resets(x.s, e) then Resetting else x.writing,
         attaching := x.attaching + if e.Attach? then 1 else 0)
  }

  function AfterInvalidate(x: Session, byWriter: bool): Session {
    var invalid := x.(s := WithTimeline(x.s, Header(x).(valid := false)));
    if byWriter && x.writing.Resetting? then invalid.(writing := Idle)
    else if !byWriter && x.attaching > 0 then invalid.(attaching := x.attaching - 1)
    else x
  }

  ghost function AfterQueue(x: Session, lease: Lease, ptsNs: Nanos): Session {
    if x.writing.Idle? && CanEnqueue(x.s, lease)
    then x.(s := NextEnqueue(x.s, lease, ptsNs), writing := Deciding(ptsNs, x.s.c.shm.ReadyHead() + 1))
    else x
  }

  function AfterDecide(x: Session, due: nat): Session {
    if x.writing.Deciding? then
      x.(writing := if EmissionDue(Header(x), x.s.c.beacon, due) then Starting(x.writing.ptsNs, x.writing.head)
                    else Idle)
    else x
  }

  function AfterLoadGeneration(x: Session, clock: nat): Session {
    if x.writing.Starting? then x.(writing := Storing(0, Here(x), clock, x.writing.ptsNs, x.writing.head)) else x
  }

  /** The next store of `force_timeline_snapshot`. */
  function Stored(t: Timeline, w: Writing): Timeline
    requires w.Storing?
  {
    match w.k
    case 0 => t.(sinkMonoNs := w.now)
    case 1 => t.(producerPtsNs := Max(w.ptsNs, 0))
    case 2 => t.(readyHead := w.head)
    case 3 => t.(snapshotGen := w.mark.gen)
    case 4 => t.(seqNo := t.seqNo + 1)
    case _ => t.(valid := true)
  }

  function Tagged(g: Tags, w: Writing, here: Mark): Tags
    requires w.Storing?
  {
    match w.k
    case 0 => g.(clock := w.mark)
    case 1 => g.(stamp := w.mark)
    case 3 => g.(snap := w.mark)
    case 5 => g.(valid := here)
    case _ => g
  }

  function AfterStore(x: Session): Session {
    if !x.writing.Storing? then x
    else
      var w := x.writing;
      var s := WithTimeline(x.s, Stored(Header(x), w));
      var y := x.(s := s, tags := Tagged(x.tags, w, Here(x)));
      if w.k < STORES - 1 then y.(writing := w.(k := w.k + 1))
      else y.(writing := Idle, s := s.(c := s.c.(beacon := Beacon(x.s.c.beacon.periodNs, w.now, w.mark.gen))))
  }

  // ---------------------------------------------------------------- consumer

  function TakeEvent(latest: bool): Event {
    if latest then RecvLatest else Recv
  }

  function TakeOutcome(s: State, latest: bool): Outcome {
    if latest then LatestOutcome(s.c.shm) else RecvOutcome(s.c.shm)
  }

  function PublishedGen(s: State, desc: ReadyDesc): nat {
    if 1 <= desc.seqNo <= |s.history| then s.history[desc.seqNo - 1].gen else 0
  }

  ghost function AfterTake(x: Session, latest: bool): Session {
    var out := TakeOutcome(x.s, latest);
    if x.frame.Some? then x
    else x.(s := Next(x.s, TakeEvent(latest)), loading := NOTHING_LOADED,
            frame := if out.Received? then Some(Frame(out.desc, out.dropped, PublishedGen(x.s, out.desc), Here(x)))
                     else None)
  }

  /** The next load of `timeline_snapshot`. */
  function LoadField(l: Loading, t: Timeline, g: Tags, here: Mark): Loading {
    match l.count
    case 0 => l.(count := 1, snap := l.snap.(valid := t.valid))
    case 1 => l.(count := 2, snap := l.snap.(gen := t.gen), gen := here)
    case 2 => l.(count := 3, snap := l.snap.(snapshotGen := t.snapshotGen))
    case 3 => l.(count := 4, snap := l.snap.(seqNo := t.seqNo))
    case 4 => l.(count := 5, snap := l.snap.(sinkMonoNs := t.sinkMonoNs), clock := g.clock)
    case 5 => l.(count := 6, snap := l.snap.(producerPtsNs := AsI64(t.producerPtsNs)), stamp := g.stamp)
    case 6 => l.(count := 7, snap := l.snap.(readyHead := t.readyHead))
    case _ => l
  }

  predicate Adopts(sync: Sync, snap: Snapshot, now: Option<nat>) {
    now.Some? && Usable(snap) && snap.seqNo != Checked(sync, snap).lastSnapshotSeq
  }

  predicate CanMap(x: Session) {
    x.frame.Some? && x.loading.count == FIELDS
  }

  predicate AdoptsNow(x: Session, a: Act) {
    a.Map? && CanMap(x) && Adopts(x.sync, x.loading.snap, a.now)
  }

  function AfterMap(x: Session, now: Option<nat>): Session {
    if !CanMap(x) then x
    else
      var adopts := AdoptsNow(x, Map(now));
      x.(sync := AfterFrame(x.sync, true, x.loading.snap, now, x.frame.value.dropped), frame := None,
         clock := if adopts then x.loading.clock else x.clock,
         stamp := if adopts then x.loading.stamp else x.stamp)
  }

  /** One act; out of turn it does nothing. `Begin` is `start` reading the generation after its attach. */
  ghost function Effect(x: Session, a: Act): Session {
    match a
    case Transport(e) => AfterTransport(x, e)
    case Invalidate(byWriter) => AfterInvalidate(x, byWriter)
    case Queue(lease, ptsNs) => AfterQueue(x, lease, ptsNs)
    case Decide(due) => AfterDecide(x, due)
    case Announce(ptsNs) => if x.writing.Idle? then x.(writing := Starting(ptsNs, x.s.c.shm.ReadyHead())) else x
    case LoadGeneration(clock) => AfterLoadGeneration(x, clock)
    case StoreWord => AfterStore(x)
    case Begin => x.(sync := Started(Read(Header(x))), frame := None)
    case Take(latest) => AfterTake(x, latest)
    case Load => if x.frame.Some? then x.(loading := LoadField(x.loading, Header(x), x.tags, Here(x))) else x
    case Map(now) => AfterMap(x, now)
  }

  ghost function NextSession(x: Session, a: Act): Session {
    Effect(x, a).(time := x.time + 1)
  }

  ghost function RunSession(x: Session, acts: seq<Act>): Session {
    if acts == [] then x else NextSession(RunSession(x, acts[..|acts| - 1]), acts[|acts| - 1])
  }

  /** The session before act `i`. */
  ghost function At(x: Session, acts: seq<Act>, i: nat): Session
    requires i <= |acts|
  {
    RunSession(x, acts[..i])
  }

  ghost predicate ActIssued(x: Session, a: Act) {
    && (a.Transport? ==> Issued(x.s, a.e))
    && (a.Queue? ==> a.lease in x.s.issued)
  }

  ghost predicate ActsIssued(x: Session, acts: seq<Act>) {
    forall i :: 0 <= i < |acts| ==> ActIssued(At(x, acts, i), acts[i])
  }

  /** A consumer beside a fresh region. */
  function FreshSession(arenaSize: nat, readyCap: nat, recCap: nat, periodNs: nat): Session {
    Session(Start(arenaSize, readyCap, recCap, periodNs), Tags(ORIGIN, ORIGIN, ORIGIN, ORIGIN), Idle, 0,
            Started(Read(INITIAL)), None, NOTHING_LOADED, ORIGIN, ORIGIN, 0)
  }

  ghost predicate IsFresh(x: Session) {
    exists arenaSize, readyCap, recCap, periodNs ::
      && arenaSize > 0 && readyCap > 0 && recCap > 0
      && x == FreshSession(arenaSize, readyCap, recCap, periodNs)
  }

  // ---------------------------------------------------------------- what every session keeps

  /** Announcements store in order, so the words of the header come from ever earlier announcements. */
  predicate HeaderOk(t: Timeline, g: Tags, w: Writing, b: Beacon) {
    && g.snap.gen <= g.stamp.gen <= g.clock.gen <= t.gen
    && t.snapshotGen == g.snap.gen && t.producerPtsNs < I64_LIMIT && b.lastGen <= t.gen
    && (t.valid ==> t.seqNo > 0)
    && (!w.Storing? ==> g.clock == g.stamp == g.snap)
    && (w.Storing? ==>
          && w.k < STORES && g.clock.gen <= w.mark.gen <= t.gen
          && (w.k >= 1 ==> g.clock == w.mark) && (w.k >= 2 ==> g.stamp == w.mark)
          && (w.k >= 4 ==> g.snap == w.mark) && (w.k >= 5 ==> t.seqNo > 0))
  }

  predicate LoadingOk(l: Loading, t: Timeline, g: Tags) {
    && l.count <= FIELDS && l.snap.producerPtsNs >= 0
    && (l.count >= 1 && l.snap.valid ==> t.seqNo > 0)
    && (l.count >= 2 ==> l.snap.gen == l.gen.gen <= t.gen)
    && (l.count >= 3 ==> l.snap.snapshotGen <= g.snap.gen)
    && (l.count >= 4 && l.snap.valid ==> l.snap.seqNo > 0)
    && (l.count >= 5 ==> l.snap.snapshotGen <= l.clock.gen <= t.gen)
    && (l.count >= 6 ==> l.snap.snapshotGen <= l.stamp.gen <= t.gen)
  }

  ghost predicate Following(x: Session) {
    && RegionOk(x.s)
    && HeaderOk(Header(x), x.tags, x.writing, x.s.c.beacon)
    && (Header(x).valid && !InvalidationDue(x) ==> x.tags.valid.gen == Header(x).gen)
    && x.sync.expectedGen <= Header(x).gen
    && (x.sync.offsetValid <==> x.sync.lastSnapshotSeq != 0)
    && (x.frame.Some? ==>
          && LoadingOk(x.loading, Header(x), x.tags)
          && x.frame.value.gen == x.frame.value.taken.gen <= Header(x).gen)
  }

  lemma FreshSessionFollows(arenaSize: nat, readyCap: nat, recCap: nat, periodNs: nat)
    requires arenaSize > 0 && readyCap > 0 && recCap > 0
    ensures Following(FreshSession(arenaSize, readyCap, recCap, periodNs))
  {
    StartIsSound(arenaSize, readyCap, recCap, periodNs);
  }

  lemma TimelineAfter(s: State, e: Event)
    requires !e.PublishLease? && !e.EmitSnapshot?
    ensures var t := s.c.shm.timeline;
            Next(s, e).c.shm.timeline == if e.Attach? || Resets(s, e) then NextGeneration(t) else t
    ensures Next(s, e).c.beacon == s.c.beacon
  {
  }

  lemma TransportChangesHeader(x: Session, e: Event)
    ensures var y := AfterTransport(x, e);
            && Header(y) == Header(x).(gen := Header(x).gen + if Changes(x, Transport(e)) then 1 else 0)
            && y.s.c.beacon == x.s.c.beacon && y == x.(s := y.s, writing := y.writing, attaching := y.attaching)
            && (y.writing == x.writing || y.writing.Resetting?)
  {
    if InTurn(x, e) { TimelineAfter(x.s, e); }
  }

  lemma TransportKeepsRegion(x: Session, e: Event)
    requires RegionOk(x.s) && Issued(x.s, e)
    ensures RegionOk(AfterTransport(x, e).s)
  {
    if InTurn(x, e) {
      NextKeepsSound(x.s, e);
      RegionIgnoresSnapshot(Next(x.s, e), AfterTransport(x, e).s);
    }
  }

  /** The generation noted when a frame is taken is the one it was published in. */
  lemma TakenInItsGeneration(s: State, latest: bool)
    requires RegionOk(s) && TakeOutcome(s, latest).Received?
    ensures var desc := TakeOutcome(s, latest).desc;
            && 1 <= desc.seqNo <= |s.history| && s.history[desc.seqNo - 1].desc == desc
            && s.history[desc.seqNo - 1].gen == s.c.shm.timeline.gen
  {
    var shm, out := s.c.shm, TakeOutcome(s, latest);
    var i := if latest then Chosen(shm) else 0;
    assert out.desc == shm.queue[i];
    assert s.history[shm.readyTail + i].desc == shm.queue[i] && out.desc.seqNo == shm.readyTail + i + 1;
  }

  lemma StoreKeepsHeader(t: Timeline, g: Tags, w: Writing, b: Beacon, here: Mark)
    requires HeaderOk(t, g, w, b) && w.Storing?
    ensures w.k < STORES - 1 ==> HeaderOk(Stored(t, w), Tagged(g, w, here), w.(k := w.k + 1), b)
    ensures w.k == STORES - 1 ==>
              HeaderOk(Stored(t, w), Tagged(g, w, here), Idle, Beacon(b.periodNs, w.now, w.mark.gen))
  {
  }

  lemma StoreKeepsLoading(l: Loading, t: Timeline, g: Tags, w: Writing, b: Beacon, here: Mark)
    requires HeaderOk(t, g, w, b) && w.Storing? && LoadingOk(l, t, g)
    ensures LoadingOk(l, Stored(t, w), Tagged(g, w, here))
  {
  }

  lemma LoadKeepsLoading(l: Loading, t: Timeline, g: Tags, w: Writing, b: Beacon, here: Mark)
    requires HeaderOk(t, g, w, b) && LoadingOk(l, t, g) && here.gen == t.gen
    ensures LoadingOk(LoadField(l, t, g, here), t, g)
  {
  }

  lemma TransportKeepsFollowing(x: Session, e: Event)
    requires Following(x) && Issued(x.s, e)
    ensures Following(AfterTransport(x, e))
  {
    TransportKeepsRegion(x, e);
    TransportChangesHeader(x, e);
  }

  lemma InvalidateKeepsFollowing(x: Session, byWriter: bool)
    requires Following(x)
    ensures Following(AfterInvalidate(x, byWriter))
  {
    RegionIgnoresSnapshot(x.s, AfterInvalidate(x, byWriter).s);
  }

  lemma QueueKeepsFollowing(x: Session, lease: Lease, ptsNs: Nanos)
    requires Following(x) && lease in x.s.issued
    ensures Following(AfterQueue(x, lease, ptsNs))
  {
    if CanEnqueue(x.s, lease) { EnqueueKeepsRegion(x.s, lease, ptsNs); }
  }

  lemma StoreKeepsFollowing(x: Session)
    requires Following(x)
    ensures Following(AfterStore(x))
  {
    if x.writing.Storing? {
      StoreKeepsHeader(Header(x), x.tags, x.writing, x.s.c.beacon, Here(x));
      RegionIgnoresSnapshot(x.s, AfterStore(x).s);
      if x.frame.Some? {
        StoreKeepsLoading(x.loading, Header(x), x.tags, x.writing, x.s.c.beacon, Here(x));
      }
    }
  }

  lemma TakeKeepsRegion(x: Session, latest: bool)
    requires RegionOk(x.s)
    ensures var y := AfterTake(x, latest);
            RegionOk(y.s) && Header(y) == Header(x) && y.s.c.beacon == x.s.c.beacon
  {
    NextKeepsSound(x.s, TakeEvent(latest));
    TimelineAfter(x.s, TakeEvent(latest));
  }

  lemma TakenFrameIsCurrent(x: Session, latest: bool)
    requires RegionOk(x.s) && x.frame.None?
    ensures var y := AfterTake(x, latest);
            y.frame.Some? ==> y.frame.value.gen == Header(x).gen && y.frame.value.taken.gen == Header(x).gen
  {
    if TakeOutcome(x.s, latest).Received? { TakenInItsGeneration(x.s, latest); }
  }

  lemma TakeKeepsFollowing(x: Session, latest: bool)
    requires Following(x)
    ensures Following(AfterTake(x, latest))
  {
    if x.frame.None? {
      TakeKeepsRegion(x, latest);
      TakenFrameIsCurrent(x, latest);
    }
  }

  lemma LoadKeepsFollowing(x: Session)
    requires Following(x)
    ensures Following(Effect(x, Load))
  {
    if x.frame.Some? { LoadKeepsLoading(x.loading, Header(x), x.tags, x.writing, x.s.c.beacon, Here(x)); }
  }

  lemma MapKeepsFollowing(x: Session, now: Option<nat>)
    requires Following(x)
    ensures Following(AfterMap(x, now))
  {
  }

  lemma PhaseKeepsFollowing(x: Session, a: Act)
    requires Following(x) && (a.Decide? || a.Announce? || a.LoadGeneration? || a.Begin?)
    ensures Following(Effect(x, a))
  {
  }

  lemma TimeKeepsFollowing(x: Session, time: nat)
    requires Following(x)
    ensures Following(x.(time := time))
  {
  }

  lemma EffectKeepsFollowing(x: Session, a: Act)
    requires Following(x) && ActIssued(x, a)
    ensures Following(Effect(x, a))
  {
    match a
    case Transport(e) => TransportKeepsFollowing(x, e);
    case Invalidate(byWriter) => InvalidateKeepsFollowing(x, byWriter);
    case Queue(lease, ptsNs) => QueueKeepsFollowing(x, lease, ptsNs);
    case StoreWord => StoreKeepsFollowing(x);
    case Take(latest) => TakeKeepsFollowing(x, latest);
    case Load => LoadKeepsFollowing(x);
    case Map(now) => MapKeepsFollowing(x, now);
    case _ => PhaseKeepsFollowing(x, a);
  }

  lemma NextKeepsFollowing(x: Session, a: Act)
    requires Following(x) && ActIssued(x, a)
    ensures Following(NextSession(x, a))
  {
    EffectKeepsFollowing(x, a);
    TimeKeepsFollowing(Effect(x, a), x.time + 1);
  }

  lemma AtNext(x: Session, acts: seq<Act>, i: nat)
    requires i < |acts|
    ensures At(x, acts, i + 1) == NextSession(At(x, acts, i), acts[i])
  {
    assert acts[..i + 1][..i] == acts[..i];
  }

  /** Every act keeps this, wherever it falls. */
  lemma {:induction false} SessionsFollow(x: Session, acts: seq<Act>, i: nat)
    requires Following(x) && ActsIssued(x, acts) && i <= |acts|
    ensures Following(At(x, acts, i))
  {
    if i > 0 {
      SessionsFollow(x, acts, i - 1);
      AtNext(x, acts, i - 1);
      NextKeepsFollowing(At(x, acts, i - 1), acts[i - 1]);
    }
  }

  // ---------------------------------------------------------------- when things happened

  lemma GenerationAfter(x: Session, a: Act)
    ensures Header(NextSession(x, a)).gen == Header(x).gen + if Changes(x, a) then 1 else 0
    ensures NextSession(x, a).time == x.time + 1
  {
    match a
    case Transport(e) => TransportChangesHeader(x, e);
    case Take(latest) => TimelineAfter(x.s, TakeEvent(latest));
    case _ =>
  }

  /** No attach or reset from the earlier of acts `i` and `j` up to the later. */
  ghost predicate Still(x: Session, acts: seq<Act>, i: nat, j: nat)
    requires i <= |acts| && j <= |acts|
  {
    forall k :: Min(i, j) <= k < Max(i, j) ==> !Changes(At(x, acts, k), acts[k])
  }

  lemma {:induction false} TimeIsActs(x: Session, acts: seq<Act>, i: nat)
    requires i <= |acts|
    ensures At(x, acts, i).time == x.time + i
  {
    if i > 0 {
      TimeIsActs(x, acts, i - 1);
      AtNext(x, acts, i - 1);
      GenerationAfter(At(x, acts, i - 1), acts[i - 1]);
    }
  }

  lemma StillNext(x: Session, acts: seq<Act>, i: nat, j: nat)
    requires i < j <= |acts|
    ensures Still(x, acts, i, j) <==> Still(x, acts, i, j - 1) && !Changes(At(x, acts, j - 1), acts[j - 1])
  {
  }

  lemma {:induction false} StillOrNewer(x: Session, acts: seq<Act>, i: nat, j: nat)
    requires i <= j <= |acts|
    ensures Header(At(x, acts, i)).gen <= Header(At(x, acts, j)).gen
    ensures Header(At(x, acts, i)).gen == Header(At(x, acts, j)).gen <==> Still(x, acts, i, j)
    decreases j
  {
    if i < j {
      StillOrNewer(x, acts, i, j - 1);
      StillNext(x, acts, i, j);
      AtNext(x, acts, j - 1);
      GenerationAfter(At(x, acts, j - 1), acts[j - 1]);
    }
  }

  /** The header has the same generation at two moments exactly when no attach or reset lies between. */
  lemma SameGenerationIff(x: Session, acts: seq<Act>, i: nat, j: nat)
    requires i <= |acts| && j <= |acts|
    ensures Header(At(x, acts, i)).gen == Header(At(x, acts, j)).gen <==> Still(x, acts, i, j)
  {
    if i <= j { StillOrNewer(x, acts, i, j); } else { StillOrNewer(x, acts, j, i); }
  }

  ghost predicate IsMark(x: Session, m: Mark) {
    || m == x.tags.clock || m == x.tags.stamp || m == x.tags.snap || m == x.tags.valid
    || m == x.clock || m == x.stamp
    || (x.writing.Storing? && m == x.writing.mark)
    || m == x.loading.gen || m == x.loading.clock || m == x.loading.stamp
    || (x.frame.Some? && m == x.frame.value.taken)
    || m == ORIGIN
  }

  lemma MarksAreMadeHere(x: Session, a: Act, m: Mark)
    requires IsMark(NextSession(x, a), m)
    ensures IsMark(x, m) || m == Here(x)
  {
    match a
    case Transport(e) => TransportChangesHeader(x, e);
    case _ =>
  }

  /** Every mark tells the truth: it holds the generation the header had at that act. */
  lemma {:induction false} MarksAreTrue(x: Session, acts: seq<Act>, i: nat, m: Mark)
    requires IsFresh(x) && i <= |acts| && IsMark(At(x, acts, i), m)
    ensures m.at <= i && m.gen == Header(At(x, acts, m.at)).gen
  {
    if i == 0 {
      assert acts[..0] == [];
    } else {
      AtNext(x, acts, i - 1);
      TimeIsActs(x, acts, i - 1);
      var y := At(x, acts, i - 1);
      MarksAreMadeHere(y, acts[i - 1], m);
      if IsMark(y, m) { MarksAreTrue(x, acts, i - 1, m); }
    }
  }

  /** The mark names an announcement. */
  predicate NamesAnnouncement(x: Session, m: Mark) {
    || m == x.tags.clock || m == x.tags.stamp || m == x.tags.snap
    || (x.writing.Storing? && m == x.writing.mark)
    || m == x.loading.clock || m == x.loading.stamp || m == x.clock || m == x.stamp
  }

  lemma NamesAreMadeHere(x: Session, a: Act, m: Mark)
    ensures var y := NextSession(x, a);
            && (NamesAnnouncement(y, m) && m != ORIGIN ==>
                  NamesAnnouncement(x, m) || (a.LoadGeneration? && m.at == x.time))
            && (y.loading.gen != ORIGIN ==> y.loading.gen == x.loading.gen || (a.Load? && y.loading.gen.at == x.time))
            && (y.frame.Some? ==> y.frame == x.frame || (a.Take? && y.frame.value.taken.at == x.time))
  {
    match a
    case Transport(e) => TransportChangesHeader(x, e);
    case _ =>
  }

  lemma FreshIsFollowing(x: Session)
    requires IsFresh(x)
    ensures Following(x) && x.time == 0
  {
    var arenaSize, readyCap, recCap, periodNs :|
      && arenaSize > 0 && readyCap > 0 && recCap > 0
      && x == FreshSession(arenaSize, readyCap, recCap, periodNs);
    FreshSessionFollows(arenaSize, readyCap, recCap, periodNs);
  }

  /** And it names the right kind of act: the writer's load of the generation behind a stored, loaded or
      adopted value, the consumer's own load of the generation, or the take of its frame. */
  lemma {:induction false} MarksNameTheirActs(x: Session, acts: seq<Act>, i: nat, m: Mark)
    requires IsFresh(x) && i <= |acts|
    ensures var y := At(x, acts, i);
            && (NamesAnnouncement(y, m) && m != ORIGIN ==> m.at < i && acts[m.at].LoadGeneration?)
            && (y.loading.gen != ORIGIN ==> y.loading.gen.at < i && acts[y.loading.gen.at].Load?)
            && (y.frame.Some? ==> y.frame.value.taken.at < i && acts[y.frame.value.taken.at].Take?)
  {
    if i == 0 {
      assert acts[..0] == [];
    } else {
      FreshIsFollowing(x);
      MarksNameTheirActs(x, acts, i - 1, m);
      AtNext(x, acts, i - 1);
      TimeIsActs(x, acts, i - 1);
      NamesAreMadeHere(At(x, acts, i - 1), acts[i - 1], m);
    }
  }

  /** Two marks of one session name the same generation exactly when no attach or reset lies between
      the acts they name. */
  lemma SameMarkIff(x: Session, acts: seq<Act>, i: nat, m: Mark, n: Mark)
    requires IsFresh(x) && i <= |acts| && IsMark(At(x, acts, i), m) && IsMark(At(x, acts, i), n)
    ensures m.at <= |acts| && n.at <= |acts|
    ensures m.gen == n.gen <==> Still(x, acts, m.at, n.at)
  {
    MarksAreTrue(x, acts, i, m);
    MarksAreTrue(x, acts, i, n);
    SameGenerationIff(x, acts, m.at, n.at);
  }

  /** Once every attach and reset has invalidated the snapshot, a valid snapshot is of the current
      generation exactly when none of them fell between the announcement's load of the generation and
      its last store. */
  lemma AnnouncedIsCurrentIff(x: Session, acts: seq<Act>)
    requires IsFresh(x) && ActsIssued(x, acts)
    ensures var y := RunSession(x, acts);
            Header(y).valid && !InvalidationDue(y) ==>
              && y.tags.snap.at <= |acts| && y.tags.valid.at <= |acts|
              && (Header(y).snapshotGen == Header(y).gen <==> Still(x, acts, y.tags.snap.at, y.tags.valid.at))
  {
    assert acts[..|acts|] == acts;
    var y := RunSession(x, acts);
    FreshIsFollowing(x);
    SessionsFollow(x, acts, |acts|);
    SameMarkIff(x, acts, |acts|, y.tags.snap, y.tags.valid);
  }
}
