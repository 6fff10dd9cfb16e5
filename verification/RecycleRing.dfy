/** The recycle ring at the grain of single loads and stores. The consumer's recycler and the
    producer's drainer interleave freely; each counter has one writer, each side decides on copies of
    the counters that may have grown old, and entries are moved one word at a time. */
module RecycleRing {
  import opened Basics
  import opened Rings

  type Word = int
  type Entry = seq<Word>

  /** Where the recycler stands in `recycle_desc` or `try_recycle_desc`. */
  datatype Recycler =
    | Idle
    | LoadHead(entry: Entry)
    | LoadTail(entry: Entry, head: nat)
    | Check(entry: Entry, head: nat, tail: nat)
    | Copy(entry: Entry, head: nat, words: nat)

  /** Where the drainer stands in the loop of `drain_recycles`. */
  datatype Drainer =
    | Poll
    | SeenHead(head: nat)
    | SeenBoth(head: nat, tail: nat)
    | Fetch(tail: nat, copy: Entry)
    | Freed(tail: nat)

  /** `sent` and `freed` record the completed puts and the frees, in order. */
  datatype Ring = Ring(
    width: nat, slots: seq<Entry>, head: nat, tail: nat,
    recycler: Recycler, drainer: Drainer,
    sent: seq<Entry>, freed: seq<Entry>)
  {
    function Cap(): nat { |slots| }
  }

  /** `patient` tells a recycler that finds the ring full whether it tries again or gives up. */
  datatype Action = Offer(entry: Entry) | Recycle(patient: bool) | Drain

  function Empty(width: nat, slots: seq<Entry>): Ring {
    Ring(width, slots, 0, 0, Idle, Poll, [], [])
  }

  predicate Enabled(r: Ring, a: Action) {
    a.Offer? ==> |a.entry| == r.width
  }

  function RecyclerStep(r: Ring, patient: bool): Ring
    requires r.Cap() > 0
  {
    match r.recycler
    case Idle => r
    case LoadHead(entry) => r.(recycler := LoadTail(entry, r.head))
    case LoadTail(entry, head) => r.(recycler := Check(entry, head, r.tail))
    case Check(entry, head, tail) =>
      if WrappingSub(head, tail) < r.Cap() then r.(recycler := Copy(entry, head, 0))
      else if patient then r.(recycler := LoadHead(entry))
      else r.(recycler := Idle)
    case Copy(entry, head, words) =>
      var i := Slot(head, r.Cap());
      if words < |entry| && words < |r.slots[i]| then
        r.(slots := r.slots[i := r.slots[i][words := entry[words]]], recycler := Copy(entry, head, words + 1))
      else
        r.(head := head + 1, recycler := Idle, sent := r.sent + [entry])
  }

  function DrainerStep(r: Ring): Ring
    requires r.Cap() > 0
  {
    match r.drainer
    case Poll => r.(drainer := SeenHead(r.head))
    case SeenHead(head) => r.(drainer := SeenBoth(head, r.tail))
    case SeenBoth(head, tail) =>
      if head == tail then r.(drainer := Poll) else r.(drainer := Fetch(tail, []))
    case Fetch(tail, copy) =>
      var slot := r.slots[Slot(tail, r.Cap())];
      if |copy| < r.width && |copy| < |slot|
      then r.(drainer := Fetch(tail, copy + [slot[|copy|]]))
      else r.(drainer := Freed(tail), freed := r.freed + [copy])
    case Freed(tail) => r.(tail := tail + 1, drainer := Poll)
  }

  function Step(r: Ring, a: Action): Ring
    requires r.Cap() > 0
  {
    match a
    case Offer(entry) => if r.recycler.Idle? then r.(recycler := LoadHead(entry)) else r
    case Recycle(patient) => RecyclerStep(r, patient)
    case Drain => DrainerStep(r)
  }

  function Run(r: Ring, actions: seq<Action>): Ring
    requires r.Cap() > 0
    decreases |actions|
  {
    if actions == [] then r else Run(Step(r, actions[0]), actions[1..])
  }

  // ---------------------------------------------------------------- invariant

  ghost predicate Shape(r: Ring) {
    && 0 < r.Cap() < U32_LIMIT
    && (forall i :: 0 <= i < |r.slots| ==> |r.slots[i]| == r.width)
    && (forall i :: 0 <= i < |r.sent| ==> |r.sent[i]| == r.width)
    && r.tail <= r.head <= r.tail + r.Cap() && |r.sent| == r.head
  }

  /** Every slot between the counters holds the entry sent under its number. */
  ghost predicate WindowIntact(r: Ring)
    requires r.Cap() > 0 && |r.sent| == r.head
  {
    forall i :: r.tail <= i < r.head ==> r.slots[Slot(i, r.Cap())] == r.sent[i]
  }

  ghost predicate RecyclerOk(r: Ring)
    requires r.Cap() > 0
  {
    match r.recycler
    case Idle => true
    case LoadHead(entry) => |entry| == r.width
    case LoadTail(entry, head) => |entry| == r.width && head == r.head
    case Check(entry, head, tail) => |entry| == r.width && head == r.head && tail <= r.tail && head <= tail + r.Cap()
    case Copy(entry, head, words) =>
      && |entry| == r.width && head == r.head && head < r.tail + r.Cap() && words <= r.width
      && |r.slots[Slot(head, r.Cap())]| == r.width
      && r.slots[Slot(head, r.Cap())][..words] == entry[..words]
  }

  ghost predicate DrainerOk(r: Ring)
    requires |r.sent| == r.head
  {
    match r.drainer
    case Poll => true
    case SeenHead(head) => r.tail <= head <= r.head
    case SeenBoth(head, tail) => tail == r.tail <= head <= r.head
    case Fetch(tail, copy) => tail == r.tail < r.head && |copy| <= r.width && copy <= r.sent[tail]
    case Freed(tail) => tail == r.tail < r.head
  }

  /** The frees are the sends in order: one for each number below the tail, and the one in hand. */
  ghost predicate FreedInOrder(r: Ring) {
    |r.freed| == r.tail + (if r.drainer.Freed? then 1 else 0) && r.freed <= r.sent
  }

  ghost predicate Inv(r: Ring) {
    Shape(r) && WindowIntact(r) && RecyclerOk(r) && DrainerOk(r) && FreedInOrder(r)
  }

  lemma EmptyIsOk(width: nat, slots: seq<Entry>)
    requires 0 < |slots| < U32_LIMIT && forall i :: 0 <= i < |slots| ==> |slots[i]| == width
    ensures Inv(Empty(width, slots))
  {
  }

  lemma CopyKeepsInv(r: Ring)
    requires Inv(r) && r.recycler.Copy?
    ensures Inv(RecyclerStep(r, true))
  {
    var t := RecyclerStep(r, true);
    var entry, head, words := r.recycler.entry, r.recycler.head, r.recycler.words;
    var s := Slot(head, r.Cap());
    if words < r.width {
      assert t.slots[s][..words + 1] == r.slots[s][..words] + [entry[words]];
      assert entry[..words + 1] == entry[..words] + [entry[words]];
      forall i | r.tail <= i < r.head
        ensures t.slots[Slot(i, r.Cap())] == r.sent[i]
      {
        SlotsDiffer(i, head, r.Cap());
      }
    } else {
      assert r.slots[s] == r.slots[s][..words] && entry == entry[..words];
    }
  }

  /** The stale tail errs on the safe side: room seen is room there is. */
  lemma CheckKeepsInv(r: Ring, patient: bool)
    requires Inv(r) && r.recycler.Check?
    ensures Inv(RecyclerStep(r, patient))
    ensures RecyclerStep(r, patient).recycler.Copy? ==> r.head < r.tail + r.Cap()
  {
    WrappingSubIsExact(r.recycler.head, r.recycler.tail);
    assert WindowIntact(RecyclerStep(r, patient));
  }

  lemma RecyclerKeepsInv(r: Ring, patient: bool)
    requires Inv(r)
    ensures Inv(RecyclerStep(r, patient))
  {
    if r.recycler.Copy? {
      CopyKeepsInv(r);
    } else if r.recycler.Check? {
      CheckKeepsInv(r, patient);
    } else {
      assert WindowIntact(RecyclerStep(r, patient));
    }
  }

  lemma FetchKeepsInv(r: Ring)
    requires Inv(r) && r.drainer.Fetch?
    ensures Inv(DrainerStep(r))
    ensures DrainerStep(r).drainer.Freed? ==> DrainerStep(r).freed == r.freed + [r.sent[r.tail]]
  {
    var slot, copy := r.slots[Slot(r.tail, r.Cap())], r.drainer.copy;
    assert slot == r.sent[r.tail];
    if |copy| < r.width {
      assert copy + [slot[|copy|]] == slot[..|copy| + 1];
    } else {
      assert copy == slot;
      assert r.freed + [copy] <= r.sent;
    }
  }

  lemma DrainerKeepsInv(r: Ring)
    requires Inv(r)
    ensures Inv(DrainerStep(r))
  {
    if r.drainer.Fetch? { FetchKeepsInv(r); }
  }

  lemma StepKeepsInv(r: Ring, a: Action)
    requires Inv(r) && Enabled(r, a)
    ensures Inv(Step(r, a)) && Step(r, a).Cap() == r.Cap() && Step(r, a).width == r.width
  {
    match a
    case Offer(entry) =>
    case Recycle(patient) => RecyclerKeepsInv(r, patient);
    case Drain => DrainerKeepsInv(r);
  }

  // ---------------------------------------------------------------- refinement

  /** The bounded queue the ring implements: what has been sent and not yet freed. */
  function Fifo(r: Ring): seq<Entry>
    requires |r.freed| <= |r.sent|
  {
    r.sent[|r.freed|..]
  }

  ghost predicate Enqueues(before: seq<Entry>, after: seq<Entry>, cap: nat, entry: Entry) {
    |before| < cap && after == before + [entry]
  }

  ghost predicate Dequeues(before: seq<Entry>, after: seq<Entry>, entry: Entry) {
    before == [entry] + after
  }

  lemma RecyclerRefines(r: Ring, patient: bool)
    requires Inv(r)
    ensures var t := RecyclerStep(r, patient);
            && t.freed == r.freed && |r.freed| <= |t.sent|
            && (t.sent == r.sent
                || (r.recycler.Copy? && |t.sent| > |r.sent| && Enqueues(Fifo(r), Fifo(t), r.Cap(), r.recycler.entry)))
  {
    var t := RecyclerStep(r, patient);
    if r.recycler.Copy? && t.sent != r.sent {
      assert t.sent[|r.freed|..] == r.sent[|r.freed|..] + [r.recycler.entry];
    }
  }

  lemma DrainerRefines(r: Ring)
    requires Inv(r)
    ensures var t := DrainerStep(r);
            && t.sent == r.sent && |t.freed| <= |r.sent|
            && (t.freed == r.freed
                || (|t.freed| == |r.freed| + 1 && Dequeues(Fifo(r), Fifo(t), t.freed[|r.freed|])))
  {
    if r.drainer.Fetch? { FetchKeepsInv(r); }
  }

  /** Every load and store either leaves the bounded queue alone, or completes the offer in progress
      into a queue with room, or frees the oldest entry, word for word as it was sent. */
  lemma StepRefinesBoundedFifo(r: Ring, a: Action)
    requires Inv(r) && Enabled(r, a)
    ensures var t := Step(r, a);
            && Inv(t) && |Fifo(r)| <= r.Cap()
            && (if |t.sent| > |r.sent| then
                  a.Recycle? && r.recycler.Copy? && t.freed == r.freed
                  && Enqueues(Fifo(r), Fifo(t), r.Cap(), r.recycler.entry)
                else if |t.freed| > |r.freed| then
                  a.Drain? && t.sent == r.sent && |t.freed| == |r.freed| + 1
                  && Dequeues(Fifo(r), Fifo(t), t.freed[|r.freed|])
                else Fifo(t) == Fifo(r) && t.sent == r.sent && t.freed == r.freed)
  {
    StepKeepsInv(r, a);
    match a
    case Offer(entry) =>
    case Recycle(patient) => RecyclerRefines(r, patient);
    case Drain => DrainerRefines(r);
  }

  /** The recycler never stores into a slot that still has to be read. */
  lemma UnreadSlotsAreNotWritten(r: Ring, i: nat)
    requires Inv(r) && r.recycler.Copy? && r.tail <= i < r.head
    ensures Slot(r.recycler.head, r.Cap()) != Slot(i, r.Cap())
    ensures RecyclerStep(r, true).slots[Slot(i, r.Cap())] == r.sent[i]
  {
    SlotsDiffer(i, r.recycler.head, r.Cap());
  }

  lemma {:induction false} RunKeepsInv(r: Ring, actions: seq<Action>)
    requires Inv(r) && forall a :: a in actions ==> Enabled(r, a)
    ensures Inv(Run(r, actions)) && r.sent <= Run(r, actions).sent && r.freed <= Run(r, actions).freed
    decreases |actions|
  {
    if actions != [] {
      StepRefinesBoundedFifo(r, actions[0]);
      StepKeepsInv(r, actions[0]);
      assert actions[0] in actions && forall a :: a in actions[1..] ==> a in actions;
      RunKeepsInv(Step(r, actions[0]), actions[1..]);
    }
  }

  lemma {:induction false} RunKeepsCap(r: Ring, actions: seq<Action>)
    requires r.Cap() > 0
    ensures Run(r, actions).Cap() == r.Cap()
    decreases |actions|
  {
    if actions != [] { RunKeepsCap(Step(r, actions[0]), actions[1..]); }
  }

  /** Under every interleaving the frees are, at any time, a prefix of the sends: each entry at most
      once, in order, whole. Nothing is lost: what is not freed yet is still in the ring. */
  lemma EveryEntryIsFreedOnceInOrder(width: nat, slots: seq<Entry>, actions: seq<Action>)
    requires 0 < |slots| < U32_LIMIT && forall i :: 0 <= i < |slots| ==> |slots[i]| == width
    requires forall a :: a in actions ==> Enabled(Empty(width, slots), a)
    ensures var r := Run(Empty(width, slots), actions);
            && Inv(r) && r.sent == r.freed + Fifo(r)
            && |Fifo(r)| <= |slots|
            && Window(r.slots, r.tail, r.head - r.tail) == r.sent[r.tail..]
            && r.tail <= |r.freed| <= r.tail + 1
  {
    EmptyIsOk(width, slots);
    RunKeepsInv(Empty(width, slots), actions);
    RunKeepsCap(Empty(width, slots), actions);
    var r := Run(Empty(width, slots), actions);
    assert Inv(r);
    forall i | 0 <= i < r.head - r.tail
      ensures Window(r.slots, r.tail, r.head - r.tail)[i] == r.sent[r.tail..][i]
    {
      assert r.slots[Slot(r.tail + i, r.Cap())] == r.sent[r.tail + i];
    }
  }

  // ---------------------------------------------------------------- progress

  /** Steps of the drainer in these actions. */
  function Drains(actions: seq<Action>): nat {
    if actions == [] then 0 else (if actions[0].Drain? then 1 else 0) + Drains(actions[1..])
  }

  /** Steps of the recycler. */
  function Recycles(actions: seq<Action>): nat {
    if actions == [] then 0 else (if actions[0].Recycle? then 1 else 0) + Recycles(actions[1..])
  }

  /** Steps the drainer still needs to free the oldest entry and pass it. A look at counters that showed
      an empty ring has to be repeated. */
  function DrainerLeft(r: Ring): (n: nat)
    ensures n > 0
  {
    match r.drainer
    case Poll => r.width + 5
    case SeenHead(head) => if head == r.tail then r.width + 7 else r.width + 4
    case SeenBoth(head, tail) => if head == tail then r.width + 6 else r.width + 3
    case Fetch(tail, copy) => Max(r.width - |copy|, 0) + 2
    case Freed(tail) => 1
  }

  /** Steps until everything below number `goal` has been freed and passed. */
  function DrainWork(r: Ring, goal: nat): nat {
    if r.tail >= goal then 0 else (goal - r.tail - 1) * (r.width + 7) + DrainerLeft(r)
  }

  lemma DrainStepAdvances(r: Ring)
    requires Inv(r) && r.tail < r.head
    ensures var t := DrainerStep(r);
            && t.width == r.width
            && (if t.tail == r.tail then DrainerLeft(t) < DrainerLeft(r)
                else t.tail == r.tail + 1 && t.drainer.Poll?)
  {
  }

  lemma OneRoundLess(rounds: nat, width: nat)
    requires rounds > 0
    ensures rounds * (width + 7) == (rounds - 1) * (width + 7) + (width + 7)
  {
  }

  lemma DrainStepWorks(r: Ring, goal: nat)
    requires Inv(r) && r.tail < goal <= r.head
    ensures DrainWork(DrainerStep(r), goal) < DrainWork(r, goal)
  {
    DrainStepAdvances(r);
    if r.tail + 1 < goal { OneRoundLess(goal - r.tail - 1, r.width); }
  }

  /** The other side's steps leave the drainer where it is and the ring no shorter. */
  lemma OthersLeaveDrainer(r: Ring, a: Action)
    requires Inv(r) && Enabled(r, a) && !a.Drain?
    ensures var t := Step(r, a);
            t.drainer == r.drainer && t.tail == r.tail && t.width == r.width && t.head >= r.head
  {
  }

  lemma ActionWorks(r: Ring, a: Action, goal: nat)
    requires Inv(r) && Enabled(r, a) && goal <= r.head
    ensures goal <= Step(r, a).head
    ensures DrainWork(Step(r, a), goal) <= Max(DrainWork(r, goal) - (if a.Drain? then 1 else 0), 0)
  {
    if a.Drain? {
      if r.tail < goal { DrainStepWorks(r, goal); }
    } else {
      OthersLeaveDrainer(r, a);
    }
  }

  lemma MulNotNegative(a: nat, b: nat)
    ensures a * b >= 0
  {
  }

  lemma NoWorkLeft(r: Ring, goal: nat)
    requires Inv(r) && DrainWork(r, goal) == 0
    ensures r.tail >= goal
  {
    if r.tail < goal {
      MulNotNegative(goal - r.tail - 1, r.width + 7);
    }
  }

  lemma {:induction false} DrainsReach(r: Ring, actions: seq<Action>, goal: nat)
    requires Inv(r) && (forall a :: a in actions ==> Enabled(r, a)) && goal <= r.head
    requires DrainWork(r, goal) <= Drains(actions)
    ensures Run(r, actions).tail >= goal
    decreases |actions|
  {
    if actions == [] {
      NoWorkLeft(r, goal);
    } else {
      assert actions[0] in actions && forall b :: b in actions[1..] ==> b in actions;
      StepKeepsInv(r, actions[0]);
      ActionWorks(r, actions[0], goal);
      DrainsReach(Step(r, actions[0]), actions[1..], goal);
    }
  }

  lemma RoundsAreEnough(r: Ring)
    requires Inv(r)
    ensures DrainWork(r, r.head) <= (r.head - r.tail) * (r.width + 7)
  {
    if r.tail < r.head { OneRoundLess(r.head - r.tail, r.width); }
  }

  /** Every entry is freed: whoever acts in between, after `width + 7` steps of the drainer for each entry
      in the ring all that had been sent has been freed. */
  lemma EveryEntryIsFreed(r: Ring, actions: seq<Action>)
    requires Inv(r) && forall a :: a in actions ==> Enabled(r, a)
    requires (r.head - r.tail) * (r.width + 7) <= Drains(actions)
    ensures r.sent <= Run(r, actions).freed
  {
    RoundsAreEnough(r);
    DrainsReach(r, actions, r.head);
    RunKeepsInv(r, actions);
    var t := Run(r, actions);
    assert t.freed <= t.sent && r.sent <= t.sent && |t.freed| >= |r.sent|;
  }

  lemma OneStepOfRound(r: Ring)
    requires Inv(r) && r.tail < r.head && !r.drainer.Freed?
    requires r.drainer.SeenHead? ==> r.drainer.head != r.tail
    requires r.drainer.SeenBoth? ==> r.drainer.head != r.drainer.tail
    ensures var t := DrainerStep(r);
            && DrainerLeft(t) == DrainerLeft(r) - 1 && t.tail == r.tail && t.head == r.head
            && t.sent == r.sent && t.slots == r.slots && t.recycler == r.recycler
            && (t.drainer.SeenHead? ==> t.drainer.head != t.tail)
            && (t.drainer.SeenBoth? ==> t.drainer.head != t.drainer.tail)
  {
  }

  /** One round: from the top of its loop, with an entry in the ring, the drainer left alone frees the
      oldest entry whole and passes it in `width + 5` steps. */
  lemma {:induction false} DrainerFreesTheOldest(r: Ring, actions: seq<Action>)
    requires Inv(r) && r.tail < r.head && (forall a :: a in actions ==> a.Drain?)
    requires DrainerLeft(r) == |actions| && (r.drainer.SeenHead? ==> r.drainer.head != r.tail)
    requires r.drainer.SeenBoth? ==> r.drainer.head != r.drainer.tail
    ensures var t := Run(r, actions);
            && t.tail == r.tail + 1 && t.drainer.Poll? && t.sent == r.sent && t.head == r.head
            && t.freed == r.sent[..r.tail + 1] && t.slots == r.slots && t.recycler == r.recycler
    decreases |actions|
  {
    var t := DrainerStep(r);
    assert actions[0] in actions && forall b :: b in actions[1..] ==> b in actions;
    DrainStepAdvances(r);
    StepKeepsInv(r, Drain);
    if r.drainer.Freed? {
      assert actions[1..] == [];
      assert t.freed == r.sent[..r.tail + 1];
    } else {
      OneStepOfRound(r);
      DrainerFreesTheOldest(t, actions[1..]);
    }
  }

  /** An offer that has not yet seen a full ring. */
  predicate Offering(r: Ring, entry: Entry) {
    match r.recycler
    case Idle => false
    case LoadHead(e) => e == entry && r.head < r.tail + r.Cap()
    case LoadTail(e, head) => e == entry && r.head < r.tail + r.Cap()
    case Check(e, head, tail) => e == entry && head < tail + r.Cap()
    case Copy(e, head, words) => e == entry
  }

  function RecyclerLeft(r: Ring): nat {
    match r.recycler
    case Idle => 0
    case LoadHead(e) => r.width + 4
    case LoadTail(e, head) => r.width + 3
    case Check(e, head, tail) => r.width + 2
    case Copy(e, head, words) => Max(r.width - words, 0) + 1
  }

  lemma RecycleStepAdvances(r: Ring, entry: Entry, patient: bool)
    requires Inv(r) && Offering(r, entry)
    ensures var t := RecyclerStep(r, patient);
            if t.sent == r.sent then Offering(t, entry) && RecyclerLeft(t) < RecyclerLeft(r)
            else t.sent == r.sent + [entry]
  {
    if r.recycler.Check? { WrappingSubIsExact(r.recycler.head, r.recycler.tail); }
  }

  lemma OthersLeaveOffer(r: Ring, entry: Entry, a: Action)
    requires Inv(r) && Enabled(r, a) && Offering(r, entry) && !a.Recycle?
    ensures var t := Step(r, a);
            Offering(t, entry) && RecyclerLeft(t) == RecyclerLeft(r) && t.sent == r.sent
  {
  }

  /** An offer that finds room is sent: whoever acts in between, after at most `width + 4` steps of the
      recycler the entry comes next in the ring. */
  lemma {:induction false} OfferIsSent(r: Ring, entry: Entry, actions: seq<Action>)
    requires Inv(r) && Offering(r, entry) && (forall a :: a in actions ==> Enabled(r, a))
    requires RecyclerLeft(r) <= Recycles(actions)
    ensures r.sent + [entry] <= Run(r, actions).sent
    decreases |actions|
  {
    var a, t := actions[0], Step(r, actions[0]);
    assert a in actions && forall b :: b in actions[1..] ==> b in actions;
    StepKeepsInv(r, a);
    if a.Recycle? {
      RecycleStepAdvances(r, entry, a.patient);
      if t.sent == r.sent {
        OfferIsSent(t, entry, actions[1..]);
      } else {
        RunKeepsInv(t, actions[1..]);
      }
    } else {
      OthersLeaveOffer(r, entry, a);
      OfferIsSent(t, entry, actions[1..]);
    }
  }

  /** The recycler drops an offer exactly when it will not try again and the counters it loaded showed a
      full ring. */
  lemma GivesUpIff(r: Ring, patient: bool)
    requires Inv(r) && !r.recycler.Idle?
    ensures var t := RecyclerStep(r, patient);
            (t.recycler.Idle? && t.sent == r.sent)
            <==> (r.recycler.Check? && !patient && r.recycler.head - r.recycler.tail >= r.Cap())
  {
    if r.recycler.Check? { WrappingSubIsExact(r.recycler.head, r.recycler.tail); }
  }
}
