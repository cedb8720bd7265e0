/** One pass of the body of the dispatch loop: the bounds check of a single
    chunk and the copy in the direction of its request. */
module Transfer {
  import opened PmdDefs

  datatype Direction = Read | Write

  /** The current chunk of a request as the block layer presents it: the
      sector it starts at and the caller's buffer, whose length is the
      chunk's byte count. */
  datatype Segment = Segment(sector: nat, buffer: seq<Byte>)
  {
    /** Byte offset in the window where the chunk begins. */
    function Start(): nat { SectorToOffset(sector) }

    function Len(): nat { |buffer| }
  }

  /** The chunk passes the driver's bounds check against a window of `size` bytes. */
  predicate InRange(seg: Segment, size: nat)
  {
    !(seg.Start() + seg.Len() > size)
  }

  /** Store after the chunk, the status it completes with, and the caller's
      buffer after the copy. */
  datatype Served = Served(store: seq<Byte>, status: int, data: seq<Byte>)

  /** Serves one chunk against the window `store` (its length is pmd_size).
      An out-of-range chunk completes with -EIO and touches nothing; a read
      fills the buffer from the window; a write copies the buffer into the
      window and leaves every other byte alone. */
  function ServeSegment(store: seq<Byte>, dir: Direction, seg: Segment): (r: Served)
    ensures |r.store| == |store|
    ensures r.status == 0 || r.status == -EIO
    ensures r.status == 0 <==> InRange(seg, |store|)
    ensures !InRange(seg, |store|) ==> r.store == store && r.data == seg.buffer
    ensures InRange(seg, |store|) && dir == Read ==>
              r.store == store
              && |r.data| == seg.Len()
              && forall k :: 0 <= k < seg.Len() ==> r.data[k] == store[seg.Start() + k]
    ensures InRange(seg, |store|) && dir == Write ==>
              r.data == seg.buffer
              && (forall k :: 0 <= k < seg.Len() ==> r.store[seg.Start() + k] == seg.buffer[k])
              && (forall i :: 0 <= i < |store| && !(seg.Start() <= i < seg.Start() + seg.Len()) ==>
                    r.store[i] == store[i])
  {
    var start := seg.Start();
    var len := seg.Len();
    if start + len > |store| then
      Served(store, -EIO, seg.buffer)
    else
      match dir
      case Read => Served(store, 0, store[start..start + len])
      case Write => Served(store[..start] + seg.buffer + store[start + len..], 0, seg.buffer)
  }

  /** A read of any in-range chunk after an in-range write sees the written
      bytes where the two overlap and the earlier contents elsewhere. */
  lemma ReadSeesWrite(store: seq<Byte>, w: Segment, rd: Segment)
    requires InRange(w, |store|) && InRange(rd, |store|)
    ensures var after := ServeSegment(store, Write, w).store;
            var got := ServeSegment(after, Read, rd);
            got.status == 0
            && |got.data| == rd.Len()
            && forall k :: 0 <= k < rd.Len() ==>
                 got.data[k] == (if w.Start() <= rd.Start() + k < w.Start() + w.Len()
                                 then w.buffer[rd.Start() + k - w.Start()]
                                 else store[rd.Start() + k])
  {
    var after := ServeSegment(store, Write, w).store;
    var got := ServeSegment(after, Read, rd);
    forall k | 0 <= k < rd.Len()
      ensures got.data[k] == (if w.Start() <= rd.Start() + k < w.Start() + w.Len()
                              then w.buffer[rd.Start() + k - w.Start()]
                              else store[rd.Start() + k])
    {
      var i := rd.Start() + k;
      assert got.data[k] == after[i];
      if w.Start() <= i < w.Start() + w.Len() {
        assert after[w.Start() + (i - w.Start())] == w.buffer[i - w.Start()];
      }
    }
  }

  /** Read-after-write: reading back exactly the range just written returns
      the written pattern, whatever buffer the reader supplied. */
  lemma ReadAfterWrite(store: seq<Byte>, sector: nat, pattern: seq<Byte>, buf: seq<Byte>)
    requires |buf| == |pattern|
    requires InRange(Segment(sector, pattern), |store|)
    ensures var after := ServeSegment(store, Write, Segment(sector, pattern)).store;
            ServeSegment(after, Read, Segment(sector, buf)) == Served(after, 0, pattern)
  {
    var w := Segment(sector, pattern);
    var rd := Segment(sector, buf);
    ReadSeesWrite(store, w, rd);
    var after := ServeSegment(store, Write, w).store;
    var got := ServeSegment(after, Read, rd);
    assert got.data == pattern;
  }
}
