/** The request dispatch loop `do_pmd_request`: a reference definition that
    serves the chunks in FIFO order, the loop itself as the driver writes it,
    and the properties the driver promises its host. */
module DispatchLoop {
  import opened PmdDefs
  import opened Transfer
  import opened HostQueue

  /** One completion signal: which chunk of which fetched request, the
      status handed to `__blk_end_request_cur`, and the caller's buffer
      after the chunk. */
  datatype Completion = Completion(req: nat, seg: nat, status: int, data: seq<Byte>)

  /** The window after draining the queue, and the completions in the order signalled. */
  datatype Drained = Drained(store: seq<Byte>, log: seq<Completion>)

  /** Serves `jobs` one after the other against `store`. */
  function ServeAll(store: seq<Byte>, jobs: seq<Job>): (d: Drained)
    decreases |jobs|
    ensures |d.store| == |store|
    ensures |d.log| == |jobs|
    ensures forall k :: 0 <= k < |jobs| ==>
              d.log[k].req == jobs[k].req && d.log[k].seg == jobs[k].seg
              && (d.log[k].status == 0 || d.log[k].status == -EIO)
              && (d.log[k].status == 0 <==> InRange(jobs[k].segment, |store|))
  {
    if jobs == [] then Drained(store, [])
    else
      var prev := ServeAll(store, jobs[..|jobs| - 1]);
      var j := jobs[|jobs| - 1];
      var s := ServeSegment(prev.store, j.dir, j.segment);
      Drained(s.store, prev.log + [Completion(j.req, j.seg, s.status, s.data)])
  }

  /** Reference semantics of one run of the dispatch loop over the FIFO `q`. */
  function Dispatch(store: seq<Byte>, q: seq<Request>): Drained
  {
    ServeAll(store, Schedule(q))
  }

  /** Job `j` is an in-range write whose window range contains byte `i`. */
  predicate Covers(j: Job, size: nat, i: nat)
  {
    j.dir == Write && InRange(j.segment, size)
    && j.segment.Start() <= i < j.segment.Start() + j.segment.Len()
  }

  /** Frame: a byte that no accepted write covers leaves the batch unchanged;
      in particular rejected chunks and reads never touch the window. */
  lemma {:induction false} ServeAllFrame(store: seq<Byte>, jobs: seq<Job>, i: nat)
    requires i < |store|
    requires forall k :: 0 <= k < |jobs| ==> !Covers(jobs[k], |store|, i)
    ensures ServeAll(store, jobs).store[i] == store[i]
    decreases |jobs|
  {
    if jobs != [] {
      var init := jobs[..|jobs| - 1];
      assert forall k :: 0 <= k < |init| ==> init[k] == jobs[k];
      ServeAllFrame(store, init, i);
      var j := jobs[|jobs| - 1];
      assert !Covers(j, |store|, i);
    }
  }

  /** A batch with no accepted write leaves the window byte-for-byte unchanged. */
  lemma ServeAllReadOnly(store: seq<Byte>, jobs: seq<Job>)
    requires forall k :: 0 <= k < |jobs| ==> jobs[k].dir == Read || !InRange(jobs[k].segment, |store|)
    ensures ServeAll(store, jobs).store == store
  {
    var after := ServeAll(store, jobs).store;
    forall i | 0 <= i < |store|
      ensures after[i] == store[i]
    {
      ServeAllFrame(store, jobs, i);
    }
  }

  /** Position in the completion log of chunk `si` of request `ri`. */
  function Slot(q: seq<Request>, ri: nat, si: nat): nat
    requires ri <= |q|
  {
    Total(q[..ri]) + si
  }

  /** Chunk `si` of request `ri` has its own completion at its slot, with
      status 0 when it passes the bounds check and -EIO when it does not. */
  predicate CompletedAtSlot(store: seq<Byte>, q: seq<Request>, log: seq<Completion>, ri: nat, si: nat)
    requires ri < |q| && si < |q[ri].Segs()|
  {
    var k := Slot(q, ri, si);
    k < |log|
    && log[k].req == ri && log[k].seg == si
    && (log[k].status == 0 <==> InRange(q[ri].Segs()[si], |store|))
    && (log[k].status == -EIO <==> !InRange(q[ri].Segs()[si], |store|))
  }

  /** Every chunk gets its own completion, at its slot in the log: status 0
      exactly when it passes the bounds check and -EIO exactly when it does
      not, so a failing chunk neither stops nor changes later ones. */
  lemma DispatchSlot(store: seq<Byte>, q: seq<Request>, ri: nat, si: nat)
    requires ri < |q| && si < |q[ri].Segs()|
    ensures CompletedAtSlot(store, q, Dispatch(store, q).log, ri, si)
  {
    ScheduleAt(q, ri, si);
    var k := Slot(q, ri, si);
    var j := Schedule(q)[k];
    assert j == Job(ri, si, q[ri].dir, q[ri].Segs()[si]);
  }

  /** The log holds one completion per chunk, signalled in FIFO order
      request by request, each chunk of a request after the one before. */
  lemma DispatchInOrder(store: seq<Byte>, q: seq<Request>)
    ensures var log := Dispatch(store, q).log;
            |log| == Total(q)
            && forall a, b :: 0 <= a < b < |log| ==>
                 log[a].req < log[b].req || (log[a].req == log[b].req && log[a].seg < log[b].seg)
  {
    ScheduleLength(q);
    ScheduleFifo(q);
    var s := Schedule(q);
    var log := Dispatch(store, q).log;
    forall a, b | 0 <= a < b < |log|
      ensures log[a].req < log[b].req || (log[a].req == log[b].req && log[a].seg < log[b].seg)
    {
      assert Before(s[a], s[b]);
    }
  }

  /** Read-after-write through the whole loop: a write request of P followed
      by a read request of the same in-range sectors completes both with 0,
      and the read returns exactly P. */
  lemma DispatchReadAfterWrite(store: seq<Byte>, sector: nat, pattern: seq<Byte>, buf: seq<Byte>)
    requires |buf| == |pattern|
    requires InRange(Segment(sector, pattern), |store|)
    ensures var d := Dispatch(store, [Request(Write, Segment(sector, pattern), []),
                                      Request(Read, Segment(sector, buf), [])]);
            |d.log| == 2
            && d.log[0] == Completion(0, 0, 0, pattern)
            && d.log[1] == Completion(1, 0, 0, pattern)
  {
    var wr := Request(Write, Segment(sector, pattern), []);
    var rd := Request(Read, Segment(sector, buf), []);
    var q := [wr, rd];
    assert q[..1] == [wr];
    assert q[..1][..0] == [];
    assert Schedule(q[..1]) == Jobs(0, wr);
    assert Jobs(0, wr) == [Job(0, 0, Write, Segment(sector, pattern))];
    assert Jobs(1, rd) == [Job(1, 0, Read, Segment(sector, buf))];
    var jobs := [Job(0, 0, Write, Segment(sector, pattern)), Job(1, 0, Read, Segment(sector, buf))];
    assert Schedule(q) == jobs;
    assert jobs[..1] == [jobs[0]];
    assert jobs[..1][..0] == [];
    ServeAllSnoc(store, [], jobs[0]);
    assert [] + [jobs[0]] == jobs[..1];
    ServeAllSnoc(store, jobs[..1], jobs[1]);
    assert jobs[..1] + [jobs[1]] == jobs;
    ReadAfterWrite(store, sector, pattern, buf);
  }

  /** The request a fetch returns, if any, and the requests still pending. */
  datatype Fetched = Fetched(req: Option<Request>, pending: seq<Request>)

  /** `blk_fetch_request`: the request at the head of the FIFO, if any, and what remains. */
  function Fetch(pending: seq<Request>): Fetched
  {
    if pending == [] then Fetched(None, []) else Fetched(Some(pending[0]), pending[1..])
  }

  /** Serving one more job extends the store and log of the jobs before it. */
  lemma ServeAllSnoc(store0: seq<Byte>, done: seq<Job>, j: Job)
    ensures var prev := ServeAll(store0, done);
            var s := ServeSegment(prev.store, j.dir, j.segment);
            ServeAll(store0, done + [j]) == Drained(s.store, prev.log + [Completion(j.req, j.seg, s.status, s.data)])
  {
    assert (done + [j])[..|done|] == done;
  }

  /** Jobs already served when chunk `si` of request `ri` is current. */
  function Done(q: seq<Request>, ri: nat, si: nat): seq<Job>
    requires ri < |q| && si <= |q[ri].Segs()|
  {
    Schedule(q[..ri]) + Jobs(ri, q[ri])[..si]
  }

  /** Serving the current chunk extends the served jobs by that chunk; after
      the last chunk of a request they are the schedule of the requests
      fetched so far. */
  lemma DoneStep(q: seq<Request>, ri: nat, si: nat)
    requires ri < |q| && si < |q[ri].Segs()|
    ensures Done(q, ri, si) + [Job(ri, si, q[ri].dir, q[ri].Segs()[si])] == Done(q, ri, si + 1)
    ensures si + 1 == |q[ri].Segs()| ==> Done(q, ri, si + 1) == Schedule(q[..ri + 1])
    ensures ri + 1 < |q| ==> Done(q, ri + 1, 0) == Schedule(q[..ri + 1])
  {
    assert Jobs(ri, q[ri])[..si + 1] == Jobs(ri, q[ri])[..si] + [Job(ri, si, q[ri].dir, q[ri].Segs()[si])];
    assert q[..ri + 1][..ri] == q[..ri];
    if si + 1 == |q[ri].Segs()| {
      assert Jobs(ri, q[ri])[..si + 1] == Jobs(ri, q[ri]);
    }
    if ri + 1 < |q| {
      assert Jobs(ri + 1, q[ri + 1])[..0] == [];
    }
  }

  /** The loop's own variables: the request in hand (`req`), the requests
      not yet fetched, how many have been fetched, and the index of the
      current chunk within the request in hand. */
  datatype Cursor = Cursor(req: Option<Request>, pending: seq<Request>, fetched: nat, si: nat)

  /** The first `blk_fetch_request`, before the loop. */
  function Start(queue: seq<Request>): Cursor
  {
    var f := Fetch(queue);
    Cursor(f.req, f.pending, if f.req.Some? then 1 else 0, 0)
  }

  /** After `__blk_end_request_cur`: the chunk is complete, and the next request is
      fetched only when the one in hand has no bytes left. */
  function Next(c: Cursor): Cursor
    requires c.req.Some?
  {
    match EndCur(c.req.value)
    case Some(rest) => Cursor(Some(rest), c.pending, c.fetched, c.si + 1)
    case None =>
      var f := Fetch(c.pending);
      Cursor(f.req, f.pending, if f.req.Some? then c.fetched + 1 else c.fetched, 0)
  }

  /** What the loop has done so far: the window and log are those of the
      reference applied to every chunk before the current one. */
  predicate Progress(store0: seq<Byte>, queue: seq<Request>, c: Cursor, store: seq<Byte>, log: seq<Completion>)
  {
    c.fetched <= |queue| && c.pending == queue[c.fetched..]
    && (c.req.None? ==> c.pending == [] && Drained(store, log) == ServeAll(store0, Schedule(queue)))
    && (c.req.Some? ==>
          0 < c.fetched && c.si < |queue[c.fetched - 1].Segs()|
          && c.req.value.dir == queue[c.fetched - 1].dir
          && c.req.value.Segs() == queue[c.fetched - 1].Segs()[c.si..]
          && Drained(store, log) == ServeAll(store0, Done(queue, c.fetched - 1, c.si)))
  }

  /** Nothing has been served before the loop starts. */
  lemma StartProgress(store0: seq<Byte>, queue: seq<Request>)
    ensures Progress(store0, queue, Start(queue), store0, [])
  {
    if queue != [] {
      assert queue[..0] == [];
      assert Jobs(0, queue[0])[..0] == [];
    }
  }

  /** Serving the current chunk extends the served prefix by that chunk. */
  lemma ServeStep(store0: seq<Byte>, q: seq<Request>, ri: nat, si: nat, store: seq<Byte>, log: seq<Completion>)
    requires ri < |q| && si < |q[ri].Segs()|
    requires Drained(store, log) == ServeAll(store0, Done(q, ri, si))
    ensures var s := ServeSegment(store, q[ri].dir, q[ri].Segs()[si]);
            Drained(s.store, log + [Completion(ri, si, s.status, s.data)]) == ServeAll(store0, Done(q, ri, si + 1))
  {
    ServeAllSnoc(store0, Done(q, ri, si), Job(ri, si, q[ri].dir, q[ri].Segs()[si]));
    DoneStep(q, ri, si);
  }

  /** Bytes remain in the request in hand: the loop stays on it, one chunk further. */
  lemma NextSameRequest(store0: seq<Byte>, queue: seq<Request>, c: Cursor, store: seq<Byte>, log: seq<Completion>)
    requires c.req.Some? && EndCur(c.req.value).Some?
    requires c.fetched <= |queue| && c.pending == queue[c.fetched..]
    requires 0 < c.fetched && c.si < |queue[c.fetched - 1].Segs()|
    requires c.req.value.dir == queue[c.fetched - 1].dir
    requires c.req.value.Segs() == queue[c.fetched - 1].Segs()[c.si..]
    requires Drained(store, log) == ServeAll(store0, Done(queue, c.fetched - 1, c.si + 1))
    ensures Progress(store0, queue, Next(c), store, log)
    ensures |Next(c).pending| == |c.pending| && |Next(c).req.value.Segs()| < |c.req.value.Segs()|
  {
    var rest := EndCur(c.req.value);
    assert rest.value.Segs() == queue[c.fetched - 1].Segs()[c.si + 1..];
  }

  /** The request in hand is finished: the loop fetches the next one, or stops. */
  lemma NextFetch(store0: seq<Byte>, queue: seq<Request>, c: Cursor, store: seq<Byte>, log: seq<Completion>)
    requires c.req.Some? && EndCur(c.req.value).None?
    requires c.fetched <= |queue| && c.pending == queue[c.fetched..]
    requires 0 < c.fetched
    requires Drained(store, log) == ServeAll(store0, Schedule(queue[..c.fetched]))
    ensures Progress(store0, queue, Next(c), store, log)
    ensures |Next(c).pending| < |c.pending| || (c.pending == [] && Next(c).req.None?)
  {
    var ri := c.fetched - 1;
    if c.pending == [] {
      assert queue[..ri + 1] == queue;
    } else {
      assert ri + 1 < |queue|;
      DoneStep(queue, ri, 0);
    }
  }

  /** One iteration keeps Progress and moves the cursor strictly forward:
      fewer requests pending, or as many and fewer chunks left in hand. */
  lemma NextProgress(store0: seq<Byte>, queue: seq<Request>, c: Cursor, store: seq<Byte>, log: seq<Completion>)
    requires c.req.Some? && Progress(store0, queue, c, store, log)
    ensures var s := ServeSegment(store, c.req.value.dir, c.req.value.head);
            var n := Next(c);
            Progress(store0, queue, n, s.store, log + [Completion(c.fetched - 1, c.si, s.status, s.data)])
            && (|n.pending| < |c.pending|
                || (|n.pending| == |c.pending| && n.req.Some? && |n.req.value.Segs()| < |c.req.value.Segs()|)
                || (n.pending == [] && n.req.None?))
  {
    var r := c.req.value;
    var ri := c.fetched - 1;
    assert r.head == r.Segs()[0] == queue[ri].Segs()[c.si];
    ServeStep(store0, queue, ri, c.si, store, log);
    var s := ServeSegment(store, r.dir, r.head);
    var log' := log + [Completion(ri, c.si, s.status, s.data)];
    if EndCur(r).Some? {
      NextSameRequest(store0, queue, c, s.store, log');
    } else {
      DoneStep(queue, ri, c.si);
      NextFetch(store0, queue, c, s.store, log');
    }
  }

  /** `do_pmd_request` as written: fetch a request; serve its current chunk;
      complete that chunk and, when the request has no bytes left, fetch the
      next; stop when the fetch returns nothing. The result is exactly the
      reference FIFO semantics. */
  method DoPmdRequest(store0: seq<Byte>, queue: seq<Request>) returns (store: seq<Byte>, log: seq<Completion>)
    ensures Drained(store, log) == Dispatch(store0, queue)
  {
    store, log := store0, [];
    var c := Start(queue);
    StartProgress(store0, queue);
    while c.req.Some?
      invariant Progress(store0, queue, c, store, log)
      decreases |c.pending|, if c.req.Some? then |c.req.value.Segs()| else 0
    {
      var r := c.req.value;
      NextProgress(store0, queue, c, store, log);
      var s := ServeSegment(store, r.dir, r.head);
      store := s.store;
      log := log + [Completion(c.fetched - 1, c.si, s.status, s.data)];
      c := Next(c);
    }
    assert Drained(store, log) == ServeAll(store0, Schedule(queue));
  }
}
