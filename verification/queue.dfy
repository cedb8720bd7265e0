/** The host block layer as the dispatch loop sees it: a FIFO of pending
    requests, each delivered as one or more chunks, and the order in which
    those chunks reach the driver. */
module HostQueue {
  import opened PmdDefs
  import opened Transfer

  /** A request: its direction and its chunks in delivery order. The first
      chunk is separate because a fetched request always has a current
      chunk for `blk_rq_cur_bytes` to report. */
  datatype Request = Request(dir: Direction, head: Segment, tail: seq<Segment>)
  {
    function Segs(): seq<Segment> { [head] + tail }
  }

  /** The chunk `seg` of the request fetched `req`-th, ready to be served. */
  datatype Job = Job(req: nat, seg: nat, dir: Direction, segment: Segment)

  /** `__blk_end_request_cur`: after the current chunk completes, the same
      request positioned at its next chunk, or None when no bytes remain. */
  function EndCur(r: Request): (rest: Option<Request>)
    ensures rest.None? <==> |r.Segs()| == 1
    ensures rest.Some? ==> rest.value.dir == r.dir && rest.value.Segs() == r.Segs()[1..]
  {
    if r.tail == [] then None else Some(Request(r.dir, r.tail[0], r.tail[1..]))
  }

  /** Chunks of request number `ri`, in order. */
  function Jobs(ri: nat, r: Request): seq<Job>
  {
    seq(|r.Segs()|, j requires 0 <= j < |r.Segs()| => Job(ri, j, r.dir, r.Segs()[j]))
  }

  /** Reference delivery order: request by request, each request's chunks in order. */
  function Schedule(q: seq<Request>): seq<Job>
    decreases |q|
  {
    if q == [] then [] else Schedule(q[..|q| - 1]) + Jobs(|q| - 1, q[|q| - 1])
  }

  /** Number of chunks in the requests `q`. */
  function Total(q: seq<Request>): nat
    decreases |q|
  {
    if q == [] then 0 else Total(q[..|q| - 1]) + |q[|q| - 1].Segs()|
  }

  /** (req, seg) of `a` comes strictly before that of `b` in FIFO order. */
  predicate Before(a: Job, b: Job)
  {
    a.req < b.req || (a.req == b.req && a.seg < b.seg)
  }

  /** The schedule has one entry per chunk. */
  lemma {:induction false} ScheduleLength(q: seq<Request>)
    ensures |Schedule(q)| == Total(q)
    decreases |q|
  {
    if q != [] {
      ScheduleLength(q[..|q| - 1]);
    }
  }

  /** Chunk `si` of request `ri` sits at position Total(q[..ri]) + si of the
      schedule: every chunk is delivered, at a fixed place. */
  lemma {:induction false} ScheduleAt(q: seq<Request>, ri: nat, si: nat)
    requires ri < |q| && si < |q[ri].Segs()|
    ensures Total(q[..ri]) + si < |Schedule(q)|
    ensures Schedule(q)[Total(q[..ri]) + si] == Job(ri, si, q[ri].dir, q[ri].Segs()[si])
    decreases |q|
  {
    var p := q[..|q| - 1];
    ScheduleLength(p);
    if ri == |q| - 1 {
      assert p == q[..ri];
    } else {
      assert p[..ri] == q[..ri];
      assert p[ri] == q[ri];
      ScheduleAt(p, ri, si);
    }
  }

  /** Every scheduled job names a real chunk of a real request, and the
      schedule is strictly increasing in (request, chunk) order, so no chunk
      is delivered twice and none overtakes an earlier one. */
  lemma {:induction false} ScheduleFifo(q: seq<Request>)
    ensures forall k :: 0 <= k < |Schedule(q)| ==>
              var j := Schedule(q)[k];
              j.req < |q| && j.seg < |q[j.req].Segs()|
              && j == Job(j.req, j.seg, q[j.req].dir, q[j.req].Segs()[j.seg])
    ensures forall a, b :: 0 <= a < b < |Schedule(q)| ==> Before(Schedule(q)[a], Schedule(q)[b])
    decreases |q|
  {
    if q != [] {
      var p := q[..|q| - 1];
      ScheduleFifo(p);
      var s := Schedule(q);
      var left := Schedule(p);
      var right := Jobs(|q| - 1, q[|q| - 1]);
      assert s == left + right;
      forall k | 0 <= k < |s|
        ensures s[k].req < |q| && s[k].seg < |q[s[k].req].Segs()|
                && s[k] == Job(s[k].req, s[k].seg, q[s[k].req].dir, q[s[k].req].Segs()[s[k].seg])
      {
        if k < |left| {
          assert s[k] == left[k];
          assert q[left[k].req] == p[left[k].req];
        } else {
          assert s[k] == right[k - |left|];
        }
      }
      forall a, b | 0 <= a < b < |s|
        ensures Before(s[a], s[b])
      {
        if b < |left| {
          assert s[a] == left[a] && s[b] == left[b];
        } else if a < |left| {
          assert s[a] == left[a] && s[b] == right[b - |left|];
        } else {
          assert s[a] == right[a - |left|] && s[b] == right[b - |left|];
        }
      }
    }
  }
}
