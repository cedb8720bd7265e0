/** The driver as a whole: the window that a successful init maps, served by
    the dispatch loop. */
module Driver {
  import opened PmdDefs
  import opened Transfer
  import opened HostQueue
  import opened DispatchLoop
  import opened Lifecycle

  /** After a successful init, a chunk is accepted exactly when it lies inside
      the window [0, PmdSectors * 512); every other chunk completes with -EIO. */
  lemma AcceptedInsideWindow(c: Collaborators, store: seq<Byte>, q: seq<Request>)
    requires PmdInit(c).ret == 0
    requires |store| == PmdInit(c).device.value.size
    ensures var log := Dispatch(store, q).log;
            forall ri: nat, si: nat :: ri < |q| && si < |q[ri].Segs()| ==>
              Slot(q, ri, si) < |log|
              && (log[Slot(q, ri, si)].status == 0 <==>
                    q[ri].Segs()[si].Start() + q[ri].Segs()[si].Len() <= PmdSectors * KernelSectorSize)
              && (log[Slot(q, ri, si)].status == -EIO <==>
                    q[ri].Segs()[si].Start() + q[ri].Segs()[si].Len() > PmdSectors * KernelSectorSize)
  {
    var log := Dispatch(store, q).log;
    forall ri: nat, si: nat | ri < |q| && si < |q[ri].Segs()|
      ensures Slot(q, ri, si) < |log|
              && (log[Slot(q, ri, si)].status == 0 <==>
                    q[ri].Segs()[si].Start() + q[ri].Segs()[si].Len() <= PmdSectors * KernelSectorSize)
              && (log[Slot(q, ri, si)].status == -EIO <==>
                    q[ri].Segs()[si].Start() + q[ri].Segs()[si].Len() > PmdSectors * KernelSectorSize)
    {
      DispatchSlot(store, q, ri, si);
    }
  }

  /** Capacity arithmetic at the end of the published device: a whole last
      sector is accepted, while one byte at the first sector past the
      capacity, or a last-sector chunk one byte too long, is rejected. */
  lemma CapacityBoundary(c: Collaborators, store: seq<Byte>, b: Byte, last: seq<Byte>)
    requires PmdInit(c).ret == 0
    requires |store| == PmdInit(c).device.value.size
    requires |last| == KernelSectorSize
    ensures InRange(Segment(PmdInit(c).device.value.capacity - 1, last), |store|)
    ensures !InRange(Segment(PmdInit(c).device.value.capacity - 1, last + [b]), |store|)
    ensures !InRange(Segment(PmdInit(c).device.value.capacity, [b]), |store|)
  {
  }
}
