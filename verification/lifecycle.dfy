/** Module init and exit of the PMD driver: the forward acquisition ladder,
    the goto-label unwind on failure, and the exit sequence. Each call into
    the kernel is an injected success or failure, and the driver's effect is
    a trace of resources acquired and released. */
module Lifecycle {
  import opened PmdDefs

  /** Which of the kernel calls made during init succeed. */
  datatype Collaborators = Collaborators(
    registerOk: bool,      // register_blkdev
    primaryMapOk: bool,    // ioremap at PmdBase
    fallbackMapOk: bool,   // ioremap at PmdBase + FallbackOffset
    queueOk: bool,         // blk_init_queue
    diskOk: bool)          // alloc_disk

  /** Resources the driver holds: the major number, the window mapping, the
      request queue, the gendisk reference, and the disk's publication. */
  datatype Resource = Major | Mapping | Queue | Disk | Published

  datatype Event = Acquire(res: Resource) | Release(res: Resource)

  /** What a successful init publishes: the physical base that was mapped,
      pmd_size in bytes, and the capacity in sectors. */
  datatype Device = Device(base: nat, size: nat, capacity: nat)

  datatype InitResult = InitResult(ret: int, trace: seq<Event>, device: Option<Device>)

  /** The failure labels of the init ladder. */
  datatype Label = OutDisk | OutQueue | OutIoremap | Err

  function Rank(l: Label): nat
  {
    match l
    case OutDisk => 3
    case OutQueue => 2
    case OutIoremap => 1
    case Err => 0
  }

  /** Releases performed from a label to the end of the function, falling
      through the labels below it. */
  function Unwind(from: Label): seq<Event>
    decreases Rank(from)
  {
    match from
    case OutDisk => Unwind(OutQueue)
    case OutQueue => [Release(Mapping)] + Unwind(OutIoremap)
    case OutIoremap => [Release(Major)] + Unwind(Err)
    case Err => []
  }

  /** One event applied to the resources held: None once a resource is
      acquired twice or released while not held. */
  function Step(held: Option<set<Resource>>, e: Event): Option<set<Resource>>
  {
    match held
    case None => None
    case Some(h) =>
      match e
      case Acquire(r) => if r in h then None else Some(h + {r})
      case Release(r) => if r in h then Some(h - {r}) else None
  }

  /** Replays a trace from nothing held. */
  function Held(trace: seq<Event>): Option<set<Resource>>
    decreases |trace|
  {
    if trace == [] then Some({}) else Step(Held(trace[..|trace| - 1]), trace[|trace| - 1])
  }

  /** One event applied to the resources held as a stack: None unless each
      release gives back the most recently acquired resource still held. */
  function StackStep(held: Option<seq<Resource>>, e: Event): Option<seq<Resource>>
  {
    match held
    case None => None
    case Some(st) =>
      match e
      case Acquire(r) => Some(st + [r])
      case Release(r) => if st != [] && st[|st| - 1] == r then Some(st[..|st| - 1]) else None
  }

  /** Replays a trace as a stack, from nothing held. */
  function HeldStack(trace: seq<Event>): Option<seq<Resource>>
    decreases |trace|
  {
    if trace == [] then Some([]) else StackStep(HeldStack(trace[..|trace| - 1]), trace[|trace| - 1])
  }

  /** Replaying one more event is one more step of each replay. */
  lemma ReplaySnoc(t: seq<Event>, e: Event)
    ensures Held(t + [e]) == Step(Held(t), e)
    ensures HeldStack(t + [e]) == StackStep(HeldStack(t), e)
  {
    assert (t + [e])[..|t|] == t;
  }

  /** The address mapped by the first successful ioremap, if any. */
  function MapWindow(c: Collaborators): (base: Option<nat>)
    ensures base.Some? <==> c.primaryMapOk || c.fallbackMapOk
    ensures c.primaryMapOk ==> base == Some(PmdBase)
    ensures !c.primaryMapOk && c.fallbackMapOk ==> base == Some(PmdBase + FallbackOffset)
  {
    if c.primaryMapOk then Some(PmdBase)
    else if c.fallbackMapOk then Some(PmdBase + FallbackOffset)
    else None
  }

  /** `pmd_init`: register the major, map the window (with one fallback),
      create the queue, allocate and publish the disk; on a failure jump to
      the matching label with `ret` as it stands at that point. */
  function PmdInit(c: Collaborators): (r: InitResult)
    ensures r.ret == 0 || r.ret == -EBUSY || r.ret == -ENOMEM
    ensures r.ret == 0 <==> r.device.Some?
    ensures r.ret == -EBUSY <==> !c.registerOk || !(c.primaryMapOk || c.fallbackMapOk)
    ensures r.ret == 0 <==> c.registerOk && (c.primaryMapOk || c.fallbackMapOk) && c.queueOk && c.diskOk
    ensures Acquire(Mapping) in r.trace <==> c.registerOk && (c.primaryMapOk || c.fallbackMapOk)
    ensures !c.registerOk ==> r.trace == []
    ensures r.device.Some? ==>
              r.device.value.base == (if c.primaryMapOk then PmdBase else PmdBase + FallbackOffset)
    ensures r.device.Some? ==>
              r.device.value.size == PmdSize
              && r.device.value.capacity == PmdSectors
              && r.device.value.size == r.device.value.capacity * KernelSectorSize
  {
    var ret := -EBUSY;
    if !c.registerOk then
      InitResult(ret, Unwind(Err), None)
    else
      var registered := [Acquire(Major)];
      var size := PmdSectors * KernelSectorSize;
      var base := MapWindow(c);
      if base.None? then
        InitResult(ret, registered + Unwind(OutIoremap), None)
      else
        var mapped := registered + [Acquire(Mapping)];
        var ret := -ENOMEM;
        if !c.queueOk then
          InitResult(ret, mapped + Unwind(OutQueue), None)
        else
          var queued := mapped + [Acquire(Queue)];
          if !c.diskOk then
            InitResult(ret, queued + Unwind(OutDisk), None)
          else
            InitResult(0, queued + [Acquire(Disk), Acquire(Published)], Some(Device(base.value, size, PmdSectors)))
  }

  /** `pmd_exit`: unregister the major, unpublish and drop the disk, clean up
      the queue. The window is never unmapped. */
  function PmdExit(): (t: seq<Event>)
    ensures forall k :: 0 <= k < |t| ==> t[k].Release?
    ensures Release(Major) in t && Release(Published) in t && Release(Disk) in t && Release(Queue) in t
    ensures Release(Mapping) !in t
    ensures forall a, b :: 0 <= a < b < |t| ==> t[a] != t[b]
    ensures t[0] == Release(Major)
  {
    [Release(Major), Release(Published), Release(Disk), Release(Queue)]
  }

  /** The trace of a queue failure, replayed one event at a time. */
  lemma ReplayQueueFailure()
    ensures var t := [Acquire(Major), Acquire(Mapping), Release(Mapping), Release(Major)];
            Held(t) == Some({}) && HeldStack(t) == Some([])
  {
    var t0: seq<Event> := [];
    var t1 := t0 + [Acquire(Major)];
    assert Held(t1).Some? && Held(t1).value == {Major}
           && HeldStack(t1).Some? && HeldStack(t1).value == [Major] by {
      ReplaySnoc(t0, Acquire(Major));
    }
    var t2 := t1 + [Acquire(Mapping)];
    assert Held(t2).Some? && Held(t2).value == {Major, Mapping}
           && HeldStack(t2).Some? && HeldStack(t2).value == [Major, Mapping] by {
      ReplaySnoc(t1, Acquire(Mapping));
    }
    var t3 := t2 + [Release(Mapping)];
    assert Held(t3).Some? && Held(t3).value == {Major}
           && HeldStack(t3).Some? && HeldStack(t3).value == [Major] by {
      ReplaySnoc(t2, Release(Mapping));
    }
    var t4 := t3 + [Release(Major)];
    assert Held(t4).Some? && Held(t4).value == {}
           && HeldStack(t4).Some? && HeldStack(t4).value == [] by {
      ReplaySnoc(t3, Release(Major));
    }
    assert t4 == [Acquire(Major), Acquire(Mapping), Release(Mapping), Release(Major)];
  }

  /** The trace of a disk failure, replayed one event at a time. */
  lemma ReplayDiskFailure()
    ensures var t := [Acquire(Major), Acquire(Mapping), Acquire(Queue), Release(Mapping), Release(Major)];
            Held(t) == Some({Queue}) && HeldStack(t) == None
  {
    var t0: seq<Event> := [];
    var t1 := t0 + [Acquire(Major)];
    assert Held(t1).Some? && Held(t1).value == {Major}
           && HeldStack(t1).Some? && HeldStack(t1).value == [Major] by {
      ReplaySnoc(t0, Acquire(Major));
    }
    var t2 := t1 + [Acquire(Mapping)];
    assert Held(t2).Some? && Held(t2).value == {Major, Mapping}
           && HeldStack(t2).Some? && HeldStack(t2).value == [Major, Mapping] by {
      ReplaySnoc(t1, Acquire(Mapping));
    }
    var t3 := t2 + [Acquire(Queue)];
    assert Held(t3).Some? && Held(t3).value == {Major, Mapping, Queue}
           && HeldStack(t3).Some? && HeldStack(t3).value == [Major, Mapping, Queue] by {
      ReplaySnoc(t2, Acquire(Queue));
    }
    var t4 := t3 + [Release(Mapping)];
    assert Held(t4).Some? && Held(t4).value == {Major, Queue}
           && HeldStack(t4) == None by {
      ReplaySnoc(t3, Release(Mapping));
    }
    var t5 := t4 + [Release(Major)];
    assert Held(t5).Some? && Held(t5).value == {Queue}
           && HeldStack(t5) == None by {
      ReplaySnoc(t4, Release(Major));
    }
    assert t5 == [Acquire(Major), Acquire(Mapping), Acquire(Queue), Release(Mapping), Release(Major)];
  }

  /** The trace of a successful init, replayed one event at a time. */
  lemma ReplaySuccess()
    ensures var t := [Acquire(Major), Acquire(Mapping), Acquire(Queue), Acquire(Disk), Acquire(Published)];
            Held(t) == Some({Major, Mapping, Queue, Disk, Published}) && HeldStack(t) == Some([Major, Mapping, Queue, Disk, Published])
  {
    var t0: seq<Event> := [];
    var t1 := t0 + [Acquire(Major)];
    assert Held(t1).Some? && Held(t1).value == {Major}
           && HeldStack(t1).Some? && HeldStack(t1).value == [Major] by {
      ReplaySnoc(t0, Acquire(Major));
    }
    var t2 := t1 + [Acquire(Mapping)];
    assert Held(t2).Some? && Held(t2).value == {Major, Mapping}
           && HeldStack(t2).Some? && HeldStack(t2).value == [Major, Mapping] by {
      ReplaySnoc(t1, Acquire(Mapping));
    }
    var t3 := t2 + [Acquire(Queue)];
    assert Held(t3).Some? && Held(t3).value == {Major, Mapping, Queue}
           && HeldStack(t3).Some? && HeldStack(t3).value == [Major, Mapping, Queue] by {
      ReplaySnoc(t2, Acquire(Queue));
    }
    var t4 := t3 + [Acquire(Disk)];
    assert Held(t4).Some? && Held(t4).value == {Major, Mapping, Queue, Disk}
           && HeldStack(t4).Some? && HeldStack(t4).value == [Major, Mapping, Queue, Disk] by {
      ReplaySnoc(t3, Acquire(Disk));
    }
    var t5 := t4 + [Acquire(Published)];
    assert Held(t5).Some? && Held(t5).value == {Major, Mapping, Queue, Disk, Published}
           && HeldStack(t5).Some? && HeldStack(t5).value == [Major, Mapping, Queue, Disk, Published] by {
      ReplaySnoc(t4, Acquire(Published));
    }
    assert t5 == [Acquire(Major), Acquire(Mapping), Acquire(Queue), Acquire(Disk), Acquire(Published)];
  }

  /** The trace of a successful init followed by exit, replayed one event at a time. */
  lemma ReplayInitExit()
    ensures var t := [Acquire(Major), Acquire(Mapping), Acquire(Queue), Acquire(Disk), Acquire(Published),
                      Release(Major), Release(Published), Release(Disk), Release(Queue)];
            Held(t) == Some({Mapping}) && HeldStack(t) == None
  {
    ReplaySuccess();
    var t5: seq<Event> := [Acquire(Major), Acquire(Mapping), Acquire(Queue), Acquire(Disk), Acquire(Published)];
    var t6 := t5 + [Release(Major)];
    assert Held(t6).Some? && Held(t6).value == {Mapping, Queue, Disk, Published}
           && HeldStack(t6) == None by {
      ReplaySnoc(t5, Release(Major));
    }
    var t7 := t6 + [Release(Published)];
    assert Held(t7).Some? && Held(t7).value == {Mapping, Queue, Disk}
           && HeldStack(t7) == None by {
      ReplaySnoc(t6, Release(Published));
    }
    var t8 := t7 + [Release(Disk)];
    assert Held(t8).Some? && Held(t8).value == {Mapping, Queue}
           && HeldStack(t8) == None by {
      ReplaySnoc(t7, Release(Disk));
    }
    var t9 := t8 + [Release(Queue)];
    assert Held(t9).Some? && Held(t9).value == {Mapping}
           && HeldStack(t9) == None by {
      ReplaySnoc(t8, Release(Queue));
    }
    assert t9 == [Acquire(Major), Acquire(Mapping), Acquire(Queue), Acquire(Disk), Acquire(Published),
                   Release(Major), Release(Published), Release(Disk), Release(Queue)];
  }

  /** register_blkdev fails: -EBUSY, nothing acquired, nothing mapped. */
  lemma InitRegisterFails(c: Collaborators)
    requires !c.registerOk
    ensures PmdInit(c).ret == -EBUSY
    ensures Held(PmdInit(c).trace) == Some({})
    ensures Acquire(Mapping) !in PmdInit(c).trace
  {
  }

  /** Both ioremap attempts fail: still -EBUSY (not -ENOMEM), and the major
      is unregistered, leaving nothing held. */
  lemma InitMapFails(c: Collaborators)
    requires c.registerOk && !c.primaryMapOk && !c.fallbackMapOk
    ensures PmdInit(c).ret == -EBUSY
    ensures PmdInit(c).trace == [Acquire(Major), Release(Major)]
    ensures Held(PmdInit(c).trace) == Some({})
    ensures HeldStack(PmdInit(c).trace) == Some([])
  {
    ReplaySnoc([], Acquire(Major));
    ReplaySnoc([Acquire(Major)], Release(Major));
  }

  /** blk_init_queue fails: -ENOMEM, the window unmapped and then the major
      unregistered, in reverse order of acquisition; nothing held. */
  lemma InitQueueFails(c: Collaborators)
    requires c.registerOk && (c.primaryMapOk || c.fallbackMapOk) && !c.queueOk
    ensures PmdInit(c).ret == -ENOMEM
    ensures PmdInit(c).trace == [Acquire(Major), Acquire(Mapping), Release(Mapping), Release(Major)]
    ensures Held(PmdInit(c).trace) == Some({})
    ensures HeldStack(PmdInit(c).trace) == Some([])
  {
    ReplayQueueFailure();
  }

  /** alloc_disk fails: -ENOMEM, window unmapped and major unregistered, but
      the label falls through without cleaning up the queue, which stays
      held; that release also breaks reverse order (the queue is on top). */
  lemma InitDiskFails(c: Collaborators)
    requires c.registerOk && (c.primaryMapOk || c.fallbackMapOk) && c.queueOk && !c.diskOk
    ensures PmdInit(c).ret == -ENOMEM
    ensures PmdInit(c).trace
            == [Acquire(Major), Acquire(Mapping), Acquire(Queue), Release(Mapping), Release(Major)]
    ensures Held(PmdInit(c).trace) == Some({Queue})
    ensures HeldStack(PmdInit(c).trace) == None
  {
    ReplayDiskFailure();
  }

  /** Every step succeeds: 0, every resource held, and the device published
      with capacity PmdSectors over the window at the address that mapped. */
  lemma InitSucceeds(c: Collaborators)
    requires c.registerOk && (c.primaryMapOk || c.fallbackMapOk) && c.queueOk && c.diskOk
    ensures PmdInit(c).ret == 0
    ensures Held(PmdInit(c).trace) == Some({Major, Mapping, Queue, Disk, Published})
    ensures PmdInit(c).device
            == Some(Device(if c.primaryMapOk then PmdBase else PmdBase + FallbackOffset, PmdSize, PmdSectors))
  {
    ReplaySuccess();
    assert PmdInit(c).trace == [Acquire(Major), Acquire(Mapping), Acquire(Queue), Acquire(Disk), Acquire(Published)];
  }

  /** Whatever the outcomes, init never releases what it does not hold nor
      acquires twice, and a failed init leaves at most the leaked queue. */
  lemma InitNeverDoubleReleases(c: Collaborators)
    ensures Held(PmdInit(c).trace).Some?
    ensures PmdInit(c).ret != 0 ==>
              Held(PmdInit(c).trace) == Some(if c.registerOk && (c.primaryMapOk || c.fallbackMapOk) && c.queueOk
                                             then {Queue} else {})
  {
    if !c.registerOk {
      InitRegisterFails(c);
    } else if !(c.primaryMapOk || c.fallbackMapOk) {
      InitMapFails(c);
    } else if !c.queueOk {
      InitQueueFails(c);
    } else if !c.diskOk {
      InitDiskFails(c);
    } else {
      InitSucceeds(c);
    }
  }

  /** Exit after a successful init: the major is unregistered before the disk
      is unpublished, everything except the mapping is released, and the
      mapping stays held because exit never unmaps it. */
  lemma InitThenExit(c: Collaborators)
    requires PmdInit(c).ret == 0
    ensures var t := PmdInit(c).trace + PmdExit();
            Held(t) == Some({Mapping})
            && HeldStack(t) == None
            && t[5] == Release(Major) && t[6] == Release(Published)
  {
    ReplayInitExit();
    assert PmdInit(c).trace + PmdExit()
           == [Acquire(Major), Acquire(Mapping), Acquire(Queue), Acquire(Disk), Acquire(Published),
               Release(Major), Release(Published), Release(Disk), Release(Queue)];
  }
}
