/** Particular stretches of a session: uninterrupted steps add up to the operations, and four ways in
    which an attach or reset in the wrong place leaves the consumer with the wrong generation. */
module SessionRuns {
  import opened Basics
  import opened Heaps
  import opened Timelines
  import opened Channels
  import opened System
  import opened SoundRuns
  import opened ClockSync
  import opened Sessions
  import opened Consumer

  // ---------------------------------------------------------------- putting acts together

  lemma OneAct(x: Session, a: Act)
    ensures RunSession(x, [a]) == NextSession(x, a)
    ensures ActIssued(x, a) ==> ActsIssued(x, [a])
  {
    assert [a][..0] == [];
    assert RunSession(x, []) == x;
    assert At(x, [a], 0) == x;
  }

  lemma {:induction false} SessionAppend(x: Session, a: seq<Act>, b: seq<Act>)
    ensures RunSession(x, a + b) == RunSession(RunSession(x, a), b)
    decreases |b|
  {
    if b == [] {
      assert a + b == a;
    } else {
      var k := |b| - 1;
      assert (a + b)[..|a| + k] == a + b[..k];
      SessionAppend(x, a, b[..k]);
    }
  }

  lemma IssuedAppend(x: Session, a: seq<Act>, b: seq<Act>)
    requires ActsIssued(x, a) && ActsIssued(RunSession(x, a), b)
    ensures ActsIssued(x, a + b)
  {
    forall i | 0 <= i < |a + b|
      ensures ActIssued(At(x, a + b, i), (a + b)[i])
    {
      if i < |a| {
        assert (a + b)[..i] == a[..i];
        assert ActIssued(At(x, a, i), a[i]);
      } else {
        assert (a + b)[..i] == a + b[..i - |a|];
        SessionAppend(x, a, b[..i - |a|]);
        assert ActIssued(At(RunSession(x, a), b, i - |a|), b[i - |a|]);
      }
    }
  }

  /** `acts` lead from `x` to `y`. */
  ghost predicate Leads(x: Session, acts: seq<Act>, y: Session) {
    ActsIssued(x, acts) && RunSession(x, acts) == y
  }

  lemma LeadsOne(x: Session, a: Act)
    requires ActIssued(x, a)
    ensures Leads(x, [a], NextSession(x, a))
  {
    OneAct(x, a);
  }

  lemma LeadsOn(x: Session, a: seq<Act>, y: Session, b: seq<Act>, z: Session)
    requires Leads(x, a, y) && Leads(y, b, z)
    ensures Leads(x, a + b, z)
  {
    SessionAppend(x, a, b);
    IssuedAppend(x, a, b);
  }

  // ---------------------------------------------------------------- steps that add up

  function Times(a: Act, n: nat): (acts: seq<Act>)
    ensures |acts| == n && forall i :: 0 <= i < n ==> acts[i] == a
  {
    seq(n, _ => a)
  }

  lemma TimesNext(x: Session, a: Act, n: nat)
    requires !a.Transport? && !a.Queue?
    ensures RunSession(x, Times(a, 0)) == x
    ensures RunSession(x, Times(a, n + 1)) == NextSession(RunSession(x, Times(a, n)), a)
    ensures ActsIssued(x, Times(a, n))
  {
    assert Times(a, n + 1)[..n] == Times(a, n);
  }

  function StoredTo(t: Timeline, w: Writing, k: nat): Timeline
    requires w.Storing?
  {
    if k == 0 then t else Stored(StoredTo(t, w, k - 1), w.(k := k - 1))
  }

  function TaggedTo(g: Tags, w: Writing, k: nat): Tags
    requires w.Storing?
  {
    if k == 0 then g else Tagged(TaggedTo(g, w, k - 1), w.(k := k - 1), ORIGIN)
  }

  lemma {:induction false} RunOfStores(x: Session, k: nat)
    requires x.writing.Storing? && x.writing.k == 0 && k < STORES
    ensures RunSession(x, Times(StoreWord, k))
         == x.(s := WithTimeline(x.s, StoredTo(Header(x), x.writing, k)), tags := TaggedTo(x.tags, x.writing, k),
               writing := x.writing.(k := k), time := x.time + k)
  {
    TimesNext(x, StoreWord, if k == 0 then 0 else k - 1);
    if k > 0 { RunOfStores(x, k - 1); }
  }

  /** What an announcement leaves in the header. */
  function Announced(t: Timeline, w: Writing): Timeline
    requires w.Storing?
  {
    Timeline(t.gen, w.mark.gen, true, t.seqNo + 1, w.now, Max(w.ptsNs, 0), w.head)
  }

  lemma FiveWords(t: Timeline, w: Writing)
    requires w.Storing?
    ensures StoredTo(t, w, 5) == Announced(t, w).(valid := t.valid)
  {
    assert StoredTo(t, w, 1) == t.(sinkMonoNs := w.now);
    assert StoredTo(t, w, 2) == t.(sinkMonoNs := w.now, producerPtsNs := Max(w.ptsNs, 0));
    assert StoredTo(t, w, 3) == t.(sinkMonoNs := w.now, producerPtsNs := Max(w.ptsNs, 0), readyHead := w.head);
    assert StoredTo(t, w, 4)
        == t.(sinkMonoNs := w.now, producerPtsNs := Max(w.ptsNs, 0), readyHead := w.head, snapshotGen := w.mark.gen);
  }

  lemma FiveTags(g: Tags, w: Writing)
    requires w.Storing?
    ensures TaggedTo(g, w, 5) == Tags(w.mark, w.mark, w.mark, g.valid)
  {
    assert TaggedTo(g, w, 1) == g.(clock := w.mark);
    assert TaggedTo(g, w, 2) == g.(clock := w.mark, stamp := w.mark) == TaggedTo(g, w, 3);
    assert TaggedTo(g, w, 4) == g.(clock := w.mark, stamp := w.mark, snap := w.mark);
  }

  lemma FiveStores(x: Session)
    requires x.writing.Storing? && x.writing.k == 0
    ensures RunSession(x, Times(StoreWord, 5))
         == x.(s := WithTimeline(x.s, Announced(Header(x), x.writing).(valid := Header(x).valid)),
               tags := Tags(x.writing.mark, x.writing.mark, x.writing.mark, x.tags.valid),
               writing := x.writing.(k := 5), time := x.time + 5)
  {
    RunOfStores(x, 5);
    FiveWords(Header(x), x.writing);
    FiveTags(x.tags, x.writing);
  }

  /** The session once the announcement's last store is through. */
  function AfterAnnouncement(x: Session): Session
    requires x.writing.Storing?
  {
    var w := x.writing;
    x.(s := x.s.(c := x.s.c.(shm := x.s.c.shm.(timeline := Announced(Header(x), w)),
                             beacon := Beacon(x.s.c.beacon.periodNs, w.now, w.mark.gen))),
       tags := Tags(w.mark, w.mark, w.mark, Mark(Header(x).gen, x.time + 5)), writing := Idle, time := x.time + STORES)
  }

  lemma LastStore(x: Session, y: Session)
    requires x.writing.Storing?
    requires y == x.(s := WithTimeline(x.s, Announced(Header(x), x.writing).(valid := Header(x).valid)),
                     tags := Tags(x.writing.mark, x.writing.mark, x.writing.mark, x.tags.valid),
                     writing := x.writing.(k := 5), time := x.time + 5)
    ensures NextSession(y, StoreWord) == AfterAnnouncement(x)
  {
  }

  lemma AllStores(x: Session)
    requires x.writing.Storing? && x.writing.k == 0
    ensures Leads(x, Times(StoreWord, STORES), AfterAnnouncement(x))
  {
    FiveStores(x);
    LastStore(x, RunSession(x, Times(StoreWord, 5)));
    TimesNext(x, StoreWord, 5);
    TimesNext(x, StoreWord, STORES);
  }

  lemma {:induction false} IdleStores(x: Session, k: nat)
    requires x.writing.Idle?
    ensures RunSession(x, Times(StoreWord, k)) == x.(time := x.time + k)
  {
    TimesNext(x, StoreWord, if k == 0 then 0 else k - 1);
    if k > 0 { IdleStores(x, k - 1); }
  }

  function AnnounceActs(now: nat): seq<Act> {
    [LoadGeneration(now)] + Times(StoreWord, STORES)
  }

  /** The writer's own state, and nothing of the consumer's. */
  predicate WriterOnly(x: Session, y: Session) {
    y == x.(s := y.s, tags := y.tags, writing := y.writing, attaching := y.attaching, time := y.time)
  }

  lemma AnnounceInSteps(x: Session, now: nat) returns (y: Session)
    requires x.writing.Starting?
    ensures Leads(x, AnnounceActs(now), y) && WriterOnly(x, y) && y.writing.Idle? && y.attaching == x.attaching
    ensures y.tags == Tags(Here(x), Here(x), Here(x), y.tags.valid)
    ensures y.s == x.s.(c := y.s.c)
    ensures y.s.c == x.s.c.(shm := x.s.c.shm.(timeline := Emit(Header(x), x.writing.ptsNs, x.writing.head, now)),
                            beacon := Emitted(Header(x), x.s.c.beacon, now))
  {
    var w := NextSession(x, LoadGeneration(now));
    AllStores(w);
    y := AfterAnnouncement(w);
    LeadsOne(x, LoadGeneration(now));
    LeadsOn(x, [LoadGeneration(now)], w, Times(StoreWord, STORES), y);
  }

  function PublishActs(lease: Lease, ptsNs: Nanos, due: nat, now: nat): seq<Act> {
    [Queue(lease, ptsNs)] + ([Decide(due)] + AnnounceActs(now))
  }

  lemma UnneededAnnouncement(x: Session, now: nat)
    requires x.writing.Idle?
    ensures Leads(x, AnnounceActs(now), x.(time := x.time + 1 + STORES))
  {
    var w := NextSession(x, LoadGeneration(now));
    LeadsOne(x, LoadGeneration(now));
    IdleStores(w, STORES);
    TimesNext(w, StoreWord, STORES);
    LeadsOn(x, [LoadGeneration(now)], w, Times(StoreWord, STORES), w.(time := w.time + STORES));
  }

  lemma DecisionInSteps(q: Session, due: nat, now: nat) returns (y: Session)
    requires q.writing.Deciding?
    ensures Leads(q, [Decide(due)] + AnnounceActs(now), y) && WriterOnly(q, y) && y.writing.Idle?
    ensures y.attaching == q.attaching
    ensures var due := EmissionDue(Header(q), q.s.c.beacon, due);
            && y.s == q.s.(c := if due then Channels.EmitSnapshot(q.s.c, q.writing.ptsNs, q.writing.head, now)
                                else q.s.c)
            && (due ==> y.tags.clock.gen == Header(q).gen == y.tags.stamp.gen)
  {
    var d := NextSession(q, Decide(due));
    LeadsOne(q, Decide(due));
    if d.writing.Starting? {
      y := AnnounceInSteps(d, now);
    } else {
      UnneededAnnouncement(d, now);
      y := d.(time := d.time + 1 + STORES);
    }
    LeadsOn(q, [Decide(due)], d, AnnounceActs(now), y);
  }

  /** Left alone, the steps of a publish add up to the operation. */
  lemma PublishInSteps(x: Session, lease: Lease, ptsNs: Nanos, due: nat, now: nat) returns (y: Session)
    requires x.writing.Idle? && CanEnqueue(x.s, lease) && lease in x.s.issued
    ensures Leads(x, PublishActs(lease, ptsNs, due, now), y) && WriterOnly(x, y) && y.writing.Idle?
    ensures y.s == NextPublishLease(x.s, lease, ptsNs, due, now) && y.attaching == x.attaching
    ensures EmissionDue(Header(x), x.s.c.beacon, due) ==> y.tags.clock.gen == Header(x).gen == y.tags.stamp.gen
  {
    var q := NextSession(x, Queue(lease, ptsNs));
    LeadsOne(x, Queue(lease, ptsNs));
    y := DecisionInSteps(q, due, now);
    LeadsOn(x, [Queue(lease, ptsNs)], q, [Decide(due)] + AnnounceActs(now), y);
  }

  /** So do the steps of a reset and of an attach. */
  lemma ChangeInSteps(x: Session, e: Event) returns (y: Session)
    requires Changes(x, Transport(e)) && Issued(x.s, e) && (e.Attach? || x.writing.Idle?)
    ensures Leads(x, [Transport(e)] + [Invalidate(!e.Attach?)], y) && WriterOnly(x, y)
    ensures y.s == Next(x.s, e) && y.writing == x.writing && y.attaching == x.attaching && y.tags == x.tags
  {
    var w := NextSession(x, Transport(e));
    y := NextSession(w, Invalidate(!e.Attach?));
    TimelineAfter(x.s, e);
    LeadsOne(x, Transport(e));
    LeadsOne(w, Invalidate(!e.Attach?));
    LeadsOn(x, [Transport(e)], w, [Invalidate(!e.Attach?)], y);
  }

  function LoadedTo(l: Loading, t: Timeline, g: Tags, time: nat, k: nat): Loading {
    if k == 0 then l else LoadField(LoadedTo(l, t, g, time, k - 1), t, g, Mark(t.gen, time + k - 1))
  }

  lemma {:induction false} RunOfLoads(x: Session, k: nat)
    requires x.frame.Some?
    ensures RunSession(x, Times(Load, k))
         == x.(loading := LoadedTo(x.loading, Header(x), x.tags, x.time, k), time := x.time + k)
  {
    TimesNext(x, Load, if k == 0 then 0 else k - 1);
    if k > 0 { RunOfLoads(x, k - 1); }
  }

  lemma LastSixLoads(l: Loading, t: Timeline, g: Tags, time: nat)
    requires l.count == 1
    ensures LoadedTo(l, t, g, time, 6)
         == Loading(FIELDS, Read(t).(valid := l.snap.valid), Mark(t.gen, time), g.clock, g.stamp)
  {
    assert LoadedTo(l, t, g, time, 1) == LoadField(l, t, g, Mark(t.gen, time));
    assert LoadedTo(l, t, g, time, 2).count == 3;
    assert LoadedTo(l, t, g, time, 3).count == 4;
    assert LoadedTo(l, t, g, time, 4).count == 5;
    assert LoadedTo(l, t, g, time, 5).count == 6;
  }

  lemma RestOfReading(x: Session) returns (z: Session)
    requires x.frame.Some? && x.loading.count == 1
    ensures Leads(x, Times(Load, 6), z)
    ensures z == x.(time := x.time + 6,
                    loading := Loading(FIELDS, Read(Header(x)).(valid := x.loading.snap.valid), Here(x),
                                       x.tags.clock, x.tags.stamp))
  {
    RunOfLoads(x, 6);
    LastSixLoads(x.loading, Header(x), x.tags, x.time);
    TimesNext(x, Load, 6);
    z := RunSession(x, Times(Load, 6));
  }

  /** Left alone, the seven loads give the header as it is. */
  lemma WholeReading(x: Session) returns (z: Session)
    requires x.frame.Some? && x.loading.count == 0
    ensures Leads(x, [Load] + Times(Load, 6), z)
    ensures z == x.(loading := z.loading, time := x.time + 7)
    ensures z.loading == Loading(FIELDS, Read(Header(x)), Mark(Header(x).gen, x.time + 1), x.tags.clock, x.tags.stamp)
  {
    var w := NextSession(x, Load);
    LeadsOne(x, Load);
    z := RestOfReading(w);
    LeadsOn(x, [Load], w, Times(Load, 6), z);
  }

  // ---------------------------------------------------------------- sessions that go wrong

  lemma LeadsFollowing(x: Session, acts: seq<Act>, y: Session)
    requires Following(x) && Leads(x, acts, y)
    ensures Following(y)
  {
    assert acts[..|acts|] == acts;
    SessionsFollow(x, acts, |acts|);
  }

  /** A valid snapshot of a generation still unknown to the consumer is adopted. */
  lemma UnknownGenerationIsAdopted(z: Session, now: nat)
    requires Following(z) && CanMap(z) && z.loading.snap.valid && z.sync.expectedGen < z.loading.snap.gen
    ensures AdoptsNow(z, Map(Some(now)))
    ensures var y := AfterMap(z, Some(now));
            && y.clock == z.loading.clock && y.stamp == z.loading.stamp
            && y.sync.offsetValid && y.sync.expectedGen == z.loading.snap.gen
  {
  }

  /** The session `z` is about to adopt values that were not announced in the generation it loaded. */
  ghost predicate GoesWrong(z: Session, now: nat) {
    CanMap(z) && AdoptsNow(z, Map(Some(now))) && !InStep(AfterMap(z, Some(now)))
  }

  lemma OldDataGoWrong(z: Session, now: nat)
    requires Following(z) && CanMap(z) && z.loading.snap.valid && z.sync.expectedGen < z.loading.snap.gen
    requires z.loading.clock.gen < z.loading.snap.gen
    ensures GoesWrong(z, now)
  {
    UnknownGenerationIsAdopted(z, now);
  }

  const RESET_IN_READING: seq<Act> := [Load] + (([Transport(Reset)] + [Invalidate(true)]) + Times(Load, 6))

  /** Within a reading: after the first load of a valid snapshot the writer resets. */
  lemma ResetWithinReading(x: Session, now: nat) returns (z: Session)
    requires Following(x) && x.writing.Idle? && x.frame.Some? && x.loading.count == 0 && Header(x).valid
    ensures Leads(x, RESET_IN_READING, z) && GoesWrong(z, now)
  {
    var w := NextSession(x, Load);
    LeadsOne(x, Load);
    var r := ChangeInSteps(w, Reset);
    z := RestOfReading(r);
    LeadsOn(w, [Transport(Reset)] + [Invalidate(true)], r, Times(Load, 6), z);
    LeadsOn(x, [Load], w, ([Transport(Reset)] + [Invalidate(true)]) + Times(Load, 6), z);
    LeadsFollowing(x, RESET_IN_READING, z);
    OldDataGoWrong(z, now);
  }

  const READING_IN_RESET: seq<Act> := [Transport(Reset)] + ([Load] + Times(Load, 6))

  /** Before the invalidation: the writer resets, and the whole reading comes before it invalidates. */
  lemma ReadingWithinReset(x: Session, now: nat) returns (z: Session)
    requires Following(x) && x.writing.Idle? && x.frame.Some? && x.loading.count == 0 && Header(x).valid
    ensures Leads(x, READING_IN_RESET, z) && GoesWrong(z, now)
  {
    var w := NextSession(x, Transport(Reset));
    LeadsOne(x, Transport(Reset));
    TransportChangesHeader(x, Reset);
    z := WholeReading(w);
    LeadsOn(x, [Transport(Reset)], w, [Load] + Times(Load, 6), z);
    LeadsFollowing(x, READING_IN_RESET, z);
    OldDataGoWrong(z, now);
  }

  lemma FirstLease(s: State)
    requires RegionOk(s) && s.c.heap == Fresh(s.c.shm.arenaSize)
    ensures var a := NextAllocLease(s, 1, 1);
            && !MustReset(s.c, 1, 1) && Lease(1, 0, 1) in a.issued
            && a.c.shm == s.c.shm && a.c.beacon == s.c.beacon
  {
    assert AlignUp(0, 1) == 0 && FitsIn(s.c.heap.free[0], 1, 1);
    assert DropsNeeded(s.c.heap, s.c.shm.queue, 1, 1) == 0;
    assert LeaseOf(s.c, 1, 1) == Some(Lease(1, 0, 1));
  }

  const FIRST_LEASE: Act := Transport(AllocLease(1, 1))

  lemma LeaseInSession(x: Session) returns (y: Session)
    requires RegionOk(x.s) && x.writing.Idle? && x.s.c.heap == Fresh(x.s.c.shm.arenaSize)
    ensures Leads(x, [FIRST_LEASE], y) && y == x.(s := NextAllocLease(x.s, 1, 1), time := x.time + 1)
    ensures Lease(1, 0, 1) in y.s.issued && y.s.c.shm == x.s.c.shm && y.s.c.beacon == x.s.c.beacon
  {
    FirstLease(x.s);
    LeadsOne(x, FIRST_LEASE);
    y := NextSession(x, FIRST_LEASE);
  }

  function QueueTakeRead(lease: Lease): seq<Act> {
    [Queue(lease, 0)] + ([Take(false)] + ([Load] + Times(Load, 6)))
  }

  lemma QueuedIsReceived(s: State, lease: Lease)
    requires RegionOk(s) && s.c.shm.queue == [] && lease in s.issued
    ensures CanEnqueue(s, lease)
    ensures var t := NextEnqueue(s, lease, 0);
            && RecvOutcome(t.c.shm) == Received(LeaseDesc(s.c, lease, 0), 0)
            && PublishedGen(t, LeaseDesc(s.c, lease, 0)) == s.c.shm.timeline.gen
            && t.c.shm.timeline == s.c.shm.timeline
  {
  }

  /** A frame queued into an empty ring is taken before its own announcement, and the snapshot read. */
  lemma QueuedAndRead(x: Session, lease: Lease) returns (z: Session)
    requires RegionOk(x.s) && x.writing.Idle? && x.frame.None? && x.s.c.shm.queue == [] && lease in x.s.issued
    ensures Leads(x, QueueTakeRead(lease), z)
    ensures CanMap(z) && z.frame.value.gen == Header(x).gen && z.sync == x.sync
    ensures z.loading == Loading(FIELDS, Read(Header(x)), z.loading.gen, x.tags.clock, x.tags.stamp)
  {
    QueuedIsReceived(x.s, lease);
    var q := NextSession(x, Queue(lease, 0));
    LeadsOne(x, Queue(lease, 0));
    var t := NextSession(q, Take(false));
    LeadsOne(q, Take(false));
    TimelineAfter(q.s, Recv);
    z := WholeReading(t);
    LeadsOn(q, [Take(false)], t, [Load] + Times(Load, 6), z);
    LeadsOn(x, [Queue(lease, 0)], q, [Take(false)] + ([Load] + Times(Load, 6)), z);
  }

  function AttachThenRead(lease: Lease): seq<Act> {
    ([Transport(Attach)] + [Invalidate(false)]) + (Times(StoreWord, STORES) + QueueTakeRead(lease))
  }

  /** Within an announcement: once the writer has loaded the generation a consumer attaches, and the
      stores make the old generation's snapshot valid again. The next frame is read before its own
      announcement; nothing happens within that reading. */
  lemma AttachWithinAnnouncement(x: Session, lease: Lease, now: nat) returns (z: Session)
    requires Following(x) && x.frame.None? && x.attaching == 0 && lease in x.s.issued
    requires x.writing.Storing? && x.writing.k == 0 && x.writing.mark.gen == Header(x).gen
    ensures Leads(x, AttachThenRead(lease), z) && GoesWrong(z, now)
    ensures z.frame.value.gen == Header(x).gen + 1 == z.loading.gen.gen && z.loading.clock.gen == Header(x).gen
  {
    var a := ChangeInSteps(x, Attach);
    AllStores(a);
    var b := AfterAnnouncement(a);
    LeadsFollowing(x, [Transport(Attach)] + [Invalidate(false)], a);
    LeadsFollowing(a, Times(StoreWord, STORES), b);
    z := QueuedAndRead(b, lease);
    LeadsOn(a, Times(StoreWord, STORES), b, QueueTakeRead(lease), z);
    LeadsOn(x, [Transport(Attach)] + [Invalidate(false)], a, Times(StoreWord, STORES) + QueueTakeRead(lease), z);
    LeadsFollowing(x, AttachThenRead(lease), z);
    OldDataGoWrong(z, now);
  }

  const UP_TO_LOAD: seq<Act> := [FIRST_LEASE] + ([Announce(0)] + [LoadGeneration(0)])

  /** From a fresh region, lease a byte and begin an announcement: that is such a session. */
  lemma AttachRun(x: Session, now: nat) returns (acts: seq<Act>)
    requires IsFresh(x)
    ensures ActsIssued(x, acts) && GoesWrong(RunSession(x, acts), now)
    ensures acts == UP_TO_LOAD + AttachThenRead(Lease(1, 0, 1))
  {
    FreshIsFollowing(x);
    var a := LeaseInSession(x);
    var b := NextSession(a, Announce(0));
    var c := NextSession(b, LoadGeneration(0));
    LeadsOne(a, Announce(0));
    LeadsOne(b, LoadGeneration(0));
    LeadsOn(a, [Announce(0)], b, [LoadGeneration(0)], c);
    LeadsOn(x, [FIRST_LEASE], a, [Announce(0)] + [LoadGeneration(0)], c);
    LeadsFollowing(x, UP_TO_LOAD, c);
    var z := AttachWithinAnnouncement(c, Lease(1, 0, 1), now);
    LeadsOn(x, UP_TO_LOAD, c, AttachThenRead(Lease(1, 0, 1)), z);
    acts := UP_TO_LOAD + AttachThenRead(Lease(1, 0, 1));
  }

  function ResetAndPublish(): seq<Act> {
    ([Transport(Reset)] + [Invalidate(true)]) + ([FIRST_LEASE] + PublishActs(Lease(1, 0, 1), 0, 0, 0))
  }

  lemma FirstPublishAnnounces(s: State, lease: Lease)
    requires CanEnqueue(s, lease) && s.c.shm.ReadyHead() == 0 && s.c.beacon.lastGen < s.c.shm.timeline.gen
    ensures var t := s.c.shm.timeline;
            NextPublishLease(s, lease, 0, 0, 0).c.shm.timeline == Timeline(t.gen, t.gen, true, t.seqNo + 1, 0, 0, 1)
  {
  }

  /** A session right after a reset. */
  predicate JustReset(x: Session, gen: nat, seqNo: nat) {
    && x.writing.Idle? && x.s.c.shm.queue == [] && x.s.c.shm.readyTail == 0
    && Header(x).gen == gen && Header(x).seqNo == seqNo && x.s.c.beacon.lastGen < gen
  }

  lemma PublishAfterReset(r: Session, gen: nat, seqNo: nat) returns (y: Session)
    requires RegionOk(r.s) && r.s.c.heap == Fresh(r.s.c.shm.arenaSize) && JustReset(r, gen, seqNo)
    ensures Leads(r, [FIRST_LEASE] + PublishActs(Lease(1, 0, 1), 0, 0, 0), y) && WriterOnly(r, y)
    ensures Header(y) == Timeline(gen, gen, true, seqNo + 1, 0, 0, 1)
    ensures y.tags.clock.gen == gen == y.tags.stamp.gen
  {
    var a := LeaseInSession(r);
    FirstLease(r.s);
    AllocLeaseKeepsSound(r.s, 1, 1);
    QueuedIsReceived(a.s, Lease(1, 0, 1));
    FirstPublishAnnounces(a.s, Lease(1, 0, 1));
    y := PublishInSteps(a, Lease(1, 0, 1), 0, 0, 0);
    LeadsOn(r, [FIRST_LEASE], a, PublishActs(Lease(1, 0, 1), 0, 0, 0), y);
  }

  /** The writer resets, and announces the new generation by publishing one byte. */
  lemma NewGeneration(x: Session) returns (y: Session)
    requires Following(x) && x.writing.Idle?
    ensures Leads(x, ResetAndPublish(), y) && WriterOnly(x, y)
    ensures Header(y) == Timeline(Header(x).gen + 1, Header(x).gen + 1, true, Header(x).seqNo + 1, 0, 0, 1)
    ensures y.tags.clock.gen == Header(y).gen == y.tags.stamp.gen
  {
    var r := ChangeInSteps(x, Reset);
    LeadsFollowing(x, [Transport(Reset)] + [Invalidate(true)], r);
    y := PublishAfterReset(r, Header(x).gen + 1, Header(x).seqNo);
    LeadsOn(x, [Transport(Reset)] + [Invalidate(true)], r, [FIRST_LEASE] + PublishActs(Lease(1, 0, 1), 0, 0, 0), y);
  }

  /** At local time zero, a snapshot taken at sink time zero for timestamp zero stamps a frame with its
      own timestamp, if the consumer did not know its generation. */
  lemma StampedAtZero(z: Session)
    requires CanMap(z) && z.frame.value.desc.ptsNs >= 0 && z.loading.snap.valid && z.loading.snap.seqNo > 0
    requires z.sync.expectedGen != z.loading.snap.gen
    requires z.loading.snap.sinkMonoNs == 0 && z.loading.snap.producerPtsNs == 0
    ensures Stamped(z, Some(0)) == Some(z.frame.value.desc.ptsNs)
  {
    ToI64IsIdentity(0);
    ToI64IsIdentity(z.frame.value.desc.ptsNs);
  }

  /** Between take and reading: with a reset and a publish there, in any session, the frame is stamped
      by the following generation, though the consumer is in step and nothing is torn. */
  lemma ResetBetweenTakeAndReading(x: Session, latest: bool) returns (z: Session)
    requires Following(x) && x.writing.Idle? && x.frame.None?
    requires TakeOutcome(x.s, latest).Received? && TakeOutcome(x.s, latest).desc.ptsNs >= 0
    ensures Leads(x, [Take(latest)] + (ResetAndPublish() + ([Load] + Times(Load, 6))), z)
    ensures CanMap(z) && z.frame.value.gen == Header(x).gen && Stamped(z, Some(0)).Some?
    ensures var y := AfterMap(z, Some(0));
            y.clock.gen == z.frame.value.gen + 1 == y.stamp.gen && InStep(y)
  {
    var t := NextSession(x, Take(latest));
    LeadsOne(x, Take(latest));
    LeadsFollowing(x, [Take(latest)], t);
    TimelineAfter(x.s, TakeEvent(latest));
    var p := NewGeneration(t);
    z := WholeReading(p);
    LeadsOn(t, ResetAndPublish(), p, [Load] + Times(Load, 6), z);
    LeadsOn(x, [Take(latest)], t, ResetAndPublish() + ([Load] + Times(Load, 6)), z);
    LeadsFollowing(t, ResetAndPublish() + ([Load] + Times(Load, 6)), z);
    StampedAtZero(z);
    UnknownGenerationIsAdopted(z, 0);
  }

}
