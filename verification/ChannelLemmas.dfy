/** What the Channel operations promise, one operation at a time. */
module ChannelLemmas {
  import opened Heaps
  import opened HeapLemmas
  import opened Channels

  lemma DropOneMore(c: Channel, k: nat)
    requires k < |c.shm.queue|
    ensures DropN(DropN(c, k), 1) == DropN(c, k + 1)
  {
    if k == 0 { return; }
    var queue := c.shm.queue;
    assert QueueIds(queue[..k + 1]) == QueueIds(queue[..k]) + [queue[k].bufferId];
    ReleaseAllAppend(c.heap, QueueIds(queue[..k]), queue[k].bufferId);
    assert QueueIds(queue[k..][..1]) == [] + [queue[k].bufferId];
    ReleaseAllAppend(DropN(c, k).heap, [], queue[k].bufferId);
    assert queue[k..][1..] == queue[k + 1..];
  }

  /** After `k` drops in vain, the frames still queued decide what is still needed. */
  ghost predicate Dropping(before: Channel, c: Channel, k: nat, size: nat, align: nat) {
    && k <= |before.shm.queue| && c == DropN(before, k)
    && DropsNeeded(before.heap, before.shm.queue, size, align)
       == k + DropsNeeded(c.heap, c.shm.queue, size, align)
  }

  lemma DropGoesOn(before: Channel, c: Channel, k: nat, size: nat, align: nat)
    requires Dropping(before, c, k, size, align)
    requires !Fits(c.heap, size, align) && c.shm.queue != []
    ensures Dropping(before, DropN(c, 1), k + 1, size, align)
  {
    DropOneMore(before, k);
    ReleaseAllAppend(c.heap, [], c.shm.queue[0].bufferId);
    assert QueueIds(c.shm.queue[..1]) == [] + [c.shm.queue[0].bufferId];
  }

  lemma DropSuffices(before: Channel, c: Channel, k: nat, size: nat, align: nat)
    requires Dropping(before, c, k, size, align) && Fits(c.heap, size, align)
    ensures RoomMade(before, size, align) == c
  {
  }

  lemma DropIsNotEnough(before: Channel, c: Channel, k: nat, size: nat, align: nat)
    requires Dropping(before, c, k, size, align) && !Fits(c.heap, size, align) && c.shm.queue == []
    ensures RoomMade(before, size, align) == Reset(before) == Reset(c)
  {
  }

  lemma DrainOneMore(c: Channel, k: nat)
    requires k < |c.shm.recycled|
    ensures DrainN(DrainN(c, k), 1) == DrainN(c, k + 1)
  {
    var recycled := c.shm.recycled;
    assert RecycledIds(recycled[..k + 1]) == RecycledIds(recycled[..k]) + [recycled[k].bufferId];
    ReleaseAllAppend(c.heap, RecycledIds(recycled[..k]), recycled[k].bufferId);
    assert RecycledIds(recycled[k..][..1]) == [] + [recycled[k].bufferId];
    ReleaseAllAppend(DrainN(c, k).heap, [], recycled[k].bufferId);
    assert recycled[k..][1..] == recycled[k + 1..];
  }

  lemma RecycleOneMore(shm: Shm, k: nat)
    requires k < |shm.queue| && CanRecycle(RecycleOldest(shm, k))
    ensures var d := shm.queue[k];
            Recycle(RecycleOldest(shm, k), d.bufferId, d.offset, d.length, 1) == RecycleOldest(shm, k + 1)
  {
    var d := shm.queue[k];
    assert DescsOf(shm, k + 1)
        == DescsOf(shm, k) + [RecycleDesc(shm.RecHead() + k + 1, d.bufferId, 1, d.offset, d.length)];
  }

  lemma RecycleNone(shm: Shm)
    ensures RecycleOldest(shm, 0) == shm
  {
    assert shm.recycled + DescsOf(shm, 0) == shm.recycled;
  }

  lemma IdsHead(queue: seq<ReadyDesc>, k: nat)
    requires queue != [] && k < |queue|
    ensures QueueIds(queue[..k + 1]) == [queue[0].bufferId] + QueueIds(queue[1..][..k])
  {
  }

  /** DropsNeeded is the length of the shortest prefix whose release makes room. */
  lemma {:induction false} DropsNeededIsLeast(h: Heap, queue: seq<ReadyDesc>, size: nat, align: nat, j: nat)
    requires j <= |queue|
    ensures var k := DropsNeeded(h, queue, size, align);
            && (j < k ==> !Fits(ReleaseAll(h, QueueIds(queue[..j])), size, align))
            && (j == k ==> Fits(ReleaseAll(h, QueueIds(queue[..j])), size, align))
    decreases |queue|
  {
    if !Fits(h, size, align) && queue != [] && j > 0 {
      IdsHead(queue, j - 1);
      DropsNeededIsLeast(Release(h, queue[0].bufferId), queue[1..], size, align, j - 1);
    }
  }
}
