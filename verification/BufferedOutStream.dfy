/** A buffer in front of a stream that takes one write at a time. */
module BufferedOutStream {
  import opened Arith

  const BUF_MIN_ALLOC: nat := 1024

  /** The stream below: what it was handed, whether a write is outstanding, and whether it was
      shut down. */
  class OutStream {
    var handed: string
    var writing: bool
    var closed: bool

    constructor ()
      ensures handed == "" && !writing && !closed
    {
      handed, writing, closed := "", false, false;
    }

    method Write(data: string)
      requires !writing && !closed
      modifies this
      ensures handed == old(handed) + data && writing && !closed
    {
      handed := handed + data;
      writing := true;
    }

    method Shutdown()
      requires !writing && !closed
      modifies this`closed
      ensures closed
    {
      closed := true;
    }

    /** The outstanding write is done. */
    method Done()
      requires writing
      modifies this`writing
      ensures !writing
    {
      writing := false;
    }
  }

  /** n doubled until it is enough. */
  function Doubled(n: nat, size: nat): nat
    requires n > 0
    decreases size - n
  {
    if n >= size then n else Doubled(2 * n, size)
  }

  /** The new allocation. */
  function Grown(alloc: nat, size: nat): nat {
    if alloc >= size then alloc else Doubled(if alloc < BUF_MIN_ALLOC then BUF_MIN_ALLOC else alloc, size)
  }

  /** It is enough, a power of two times the old one or the least one, and if that was too small
      less than twice what is needed. */
  lemma {:induction false} DoubledEnough(n: nat, size: nat) returns (k: nat)
    requires n > 0
    ensures Doubled(n, size) >= size && Doubled(n, size) == n * Power2(k)
    ensures n < size ==> Doubled(n, size) < 2 * size
    decreases size - n
  {
    k := 0;
    if n < size {
      k := DoubledEnough(2 * n, size);
      assert n * Power2(k + 1) == 2 * n * Power2(k);
      k := k + 1;
    }
  }

  class BufferedOutStream {
    const os: OutStream
    var ready: bool
    var buf: array<char>
    var bufSize: nat
    var shutdownRequest: bool
    ghost var written: string

    constructor (os: OutStream)
      requires os.handed == "" && !os.writing && !os.closed
      ensures Valid() && this.os == os && written == "" && !shutdownRequest && fresh(buf) && ready
    {
      this.os := os;
      ready := true;
      buf := new char[0];
      bufSize := 0;
      shutdownRequest := false;
      written := "";
    }

    ghost function Buffered(): string
      requires bufSize <= buf.Length
      reads this`buf, this`bufSize, buf
    {
      buf[..bufSize]
    }

    /** What was handed down, followed by the buffer, is everything ever written; the stream
        below works for as long as something is buffered; it is shut down once a shutdown was
        asked for and everything is handed down and done. */
    ghost predicate Valid()
      reads this, os, buf
    {
      && bufSize <= buf.Length
      && os.handed + Buffered() == written
      && (ready ==> bufSize == 0 && !os.writing)
      && (!ready && !os.closed ==> os.writing)
      && (os.closed ==> shutdownRequest && bufSize == 0 && !os.writing)
      && (shutdownRequest && !os.closed ==> os.writing)
    }

    method Write(data: string)
      requires Valid() && !shutdownRequest
      modifies this, os, buf
      ensures Valid() && written == old(written) + data && !shutdownRequest && !ready
      ensures buf == old(buf) || fresh(buf)
      ensures if old(ready) then os.handed == old(os.handed) + data && Buffered() == ""
              else os.handed == old(os.handed) && Buffered() == old(Buffered()) + data
    {
      written := written + data;
      if ready {
        ready := false;
        os.Write(data);
      } else {
        AppendBuf(data);
      }
    }

    method Shutdown()
      requires Valid() && !shutdownRequest
      modifies this`shutdownRequest, os`closed
      ensures Valid() && shutdownRequest && (os.closed <==> old(ready))
    {
      shutdownRequest := true;
      if ready {
        os.Shutdown();
      }
    }

    /** Makes room for size characters, doubling what was allocated as often as it takes. */
    method AllocBuf(size: nat)
      requires bufSize <= buf.Length
      modifies this`buf
      ensures bufSize <= buf.Length && Buffered() == old(Buffered())
      ensures size <= buf.Length == Grown(old(buf.Length), size)
      ensures buf == old(buf) || fresh(buf)
      ensures old(buf.Length) >= size ==> buf == old(buf)
    {
      if buf.Length < size {
        var newAlloc := if buf.Length < BUF_MIN_ALLOC then BUF_MIN_ALLOC else buf.Length;
        while newAlloc < size
          invariant newAlloc >= buf.Length && newAlloc >= BUF_MIN_ALLOC
          invariant Doubled(newAlloc, size) == Grown(buf.Length, size)
        {
          newAlloc := newAlloc * 2;
        }
        var larger := new char[newAlloc](_ => '\0');
        for i := 0 to bufSize
          invariant buf == old(buf) && larger[..i] == buf[..i]
        {
          larger[i] := buf[i];
        }
        buf := larger;
      }
    }

    method AppendBuf(data: string)
      requires bufSize <= buf.Length
      modifies this`buf, this`bufSize, buf
      ensures bufSize <= buf.Length == Grown(old(buf.Length), old(bufSize) + |data|)
      ensures Buffered() == old(Buffered()) + data
      ensures buf == old(buf) || fresh(buf)
    {
      ghost var was := Buffered();
      var newSize := bufSize + |data|;
      AllocBuf(newSize);
      for i := 0 to |data|
        invariant buf == old(buf) || fresh(buf)
        invariant bufSize == old(bufSize) && newSize <= buf.Length == Grown(old(buf.Length), newSize)
        invariant buf[..bufSize + i] == was + data[..i]
      {
        buf[bufSize + i] := data[i];
      }
      bufSize := newSize;
    }

    /** The stream below can take the next write. */
    method OnReady()
      requires Valid() && os.writing
      modifies this`ready, this`bufSize, os
      ensures Valid() && written == old(written) && shutdownRequest == old(shutdownRequest) && Buffered() == ""
      ensures os.handed == written
      ensures os.closed <==> old(Buffered()) == "" && shutdownRequest
      ensures ready <==> old(Buffered()) == "" && !shutdownRequest
    {
      os.Done();
      if bufSize > 0 {
        os.Write(buf[..bufSize]);
        bufSize := 0;
      } else if shutdownRequest {
        os.Shutdown();
      } else {
        ready := true;
      }
    }
  }

  datatype Event = Written(data: string) | ShutdownAsked | StreamReady

  /** All that was written in these events. */
  function AllWritten(events: seq<Event>): string {
    if events == [] then ""
    else AllWritten(events[..|events| - 1]) +
         match events[|events| - 1] case Written(data) => data case _ => ""
  }

  /** Nothing is written and no second shutdown is asked for after a shutdown. */
  ghost predicate Orderly(events: seq<Event>) {
    forall i, j :: 0 <= i < j < |events| && events[i].ShutdownAsked? ==> events[j].StreamReady?
  }

  /** Any orderly interleaving, the stream below being ready at any time: at most one write is
      outstanding throughout (the stream demands it), nothing is lost or reordered, and when
      the stream has nothing left to do, all of it has been handed down, followed by the
      shutdown if one was asked for. */
  method Drive(events: seq<Event>) returns (b: BufferedOutStream)
    requires Orderly(events)
    ensures b.Valid() && b.written == AllWritten(events)
    ensures b.shutdownRequest <==> ShutdownAsked in events
    ensures !b.os.writing ==> b.os.handed == AllWritten(events) && (b.os.closed <==> ShutdownAsked in events)
  {
    var os := new OutStream();
    b := new BufferedOutStream(os);
    var i := 0;
    while i < |events|
      invariant 0 <= i <= |events| && b.Valid() && b.written == AllWritten(events[..i])
      invariant b.shutdownRequest <==> ShutdownAsked in events[..i]
      invariant fresh(b) && fresh(b.os) && fresh(b.buf)
    {
      assert events[..i + 1][..i] == events[..i];
      match events[i] {
        case Written(data) => b.Write(data);
        case ShutdownAsked => b.Shutdown();
        case StreamReady => if b.os.writing { b.OnReady(); }
      }
      i := i + 1;
    }
    assert events[..i] == events;
  }
}
