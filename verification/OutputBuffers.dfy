/** The two buffers of terminal output: the evicting staging buffer
    (hub/internal/terminal/staging.go) and the queue with hysteresis
    (hub/internal/terminal/queue.go).
  */
module OutputBuffers {
  import opened Option
  import opened Octets

  type Chunk = Bytes

  function Total(chunks: seq<Chunk>): nat {
    if chunks == [] then 0 else |chunks[0]| + Total(chunks[1..])
  }

  lemma {:induction false} TotalSplit(a: seq<Chunk>, b: seq<Chunk>)
    ensures Total(a + b) == Total(a) + Total(b)
  {
    if a == [] {
      assert a + b == b;
    } else {
      assert (a + b)[1..] == a[1..] + b;
      TotalSplit(a[1..], b);
    }
  }

  // --- Staging ---

  const DEFAULT_CAPACITY := 2 * 1024 * 1024

  /** Oldest whole chunks go until the new one fits or nothing is left. */
  function Evict(chunks: seq<Chunk>, incoming: nat, cap: nat): seq<Chunk> {
    if chunks != [] && Total(chunks) + incoming > cap then Evict(chunks[1..], incoming, cap) else chunks
  }

  function Staged(chunks: seq<Chunk>, p: Chunk, cap: nat): seq<Chunk> {
    if p == [] then chunks else Evict(chunks, |p|, cap) + [p]
  }

  /** What stays is a run of newest chunks, and the longest one that fits. */
  lemma {:induction false} EvictKeepsLongestTail(chunks: seq<Chunk>, incoming: nat, cap: nat)
    ensures var kept := Evict(chunks, incoming, cap);
            && |kept| <= |chunks|
            && kept == chunks[|chunks| - |kept|..]
            && (kept == [] || Total(kept) + incoming <= cap)
            && (forall k :: 0 <= k < |chunks| - |kept| ==> Total(chunks[k..]) + incoming > cap)
  {
    if chunks != [] && Total(chunks) + incoming > cap {
      EvictKeepsLongestTail(chunks[1..], incoming, cap);
      var kept := Evict(chunks, incoming, cap);
      forall k | 0 <= k < |chunks| - |kept| ensures Total(chunks[k..]) + incoming > cap {
        if k == 0 {
          assert chunks[0..] == chunks;
        } else {
          assert chunks[1..][k - 1..] == chunks[k..];
        }
      }
    }
  }

  /** A buffer that takes chunks no larger than itself never outgrows its capacity. */
  lemma StagedFits(chunks: seq<Chunk>, p: Chunk, cap: nat)
    requires Total(chunks) <= cap && |p| <= cap
    ensures Total(Staged(chunks, p, cap)) <= cap
  {
    if p != [] {
      EvictKeepsLongestTail(chunks, |p|, cap);
      TotalSplit(Evict(chunks, |p|, cap), [p]);
    }
  }

  class StagingBuffer {
    var chunks: seq<Chunk>
    var size: nat
    const cap: nat

    ghost predicate Valid()
      reads this
    {
      size == Total(chunks) && forall i :: 0 <= i < |chunks| ==> chunks[i] != []
    }

    constructor (capacity: int)
      ensures Valid() && chunks == []
      ensures cap == if capacity <= 0 then DEFAULT_CAPACITY else capacity
    {
      chunks, size := [], 0;
      cap := if capacity <= 0 then DEFAULT_CAPACITY else capacity;
    }

    method Write(p: Chunk) returns (n: nat)
      requires Valid()
      modifies this
      ensures Valid() && n == |p|
      ensures chunks == Staged(old(chunks), p, cap)
    {
      n := |p|;
      if n == 0 {
        return;
      }
      while size + |p| > cap && |chunks| > 0
        invariant Valid()
        invariant Evict(chunks, |p|, cap) == Evict(old(chunks), |p|, cap)
        decreases |chunks|
      {
        size := size - |chunks[0]|;
        chunks := chunks[1..];
      }
      TotalSplit(chunks, [p]);
      chunks := chunks + [p];
      size := size + |p|;
    }

    method Drain() returns (out: seq<Chunk>)
      requires Valid()
      modifies this
      ensures Valid() && out == old(chunks) && chunks == []
    {
      out := chunks;
      chunks, size := [], 0;
    }
  }

  // --- The queue ---

  /** The queue's fields; the byte count is the total of the chunks. */
  datatype Queue = Queue(chunks: seq<Chunk>, paused: bool, closed: bool, exitCode: Option<int>)

  datatype ReadAnswer = Read | Wait | Stop

  datatype PopAnswer = Popped(chunk: Chunk) | Blocked | Drained

  function Pushed(q: Queue, b: Chunk): Queue {
    if b == [] then q else q.(chunks := q.chunks + [b])
  }

  /** Reading stops at the high watermark and resumes below the low one. */
  function ShouldRead(q: Queue, high: int, low: int): (ReadAnswer, Queue) {
    if q.closed then (Stop, q)
    else if q.paused then
      if Total(q.chunks) < low then (Read, q.(paused := false)) else (Wait, q)
    else if Total(q.chunks) >= high then (Wait, q.(paused := true))
    else (Read, q)
  }

  /** Reading is permitted exactly on an open queue that is below its high mark, or,
      once paused, below its low one; and it is paused from a refusal on until it is
      permitted again.  An empty queue always permits. */
  lemma MayReadMeaning(q: Queue, high: int, low: int)
    requires 0 < low < high
    ensures var (answer, q') := ShouldRead(q, high, low);
            && (answer == Stop <==> q.closed)
            && (answer == Read <==> !q.closed && Total(q.chunks) < if q.paused then low else high)
            && (answer == Read ==> !q'.paused) && (answer == Wait ==> q'.paused)
            && (q.chunks == [] && !q.closed ==> answer == Read)
            && q' == q.(paused := q'.paused)
  {
  }

  /** Chunks come out in order, also after the queue closed. */
  function Pop(q: Queue): (PopAnswer, Queue) {
    if q.chunks != [] then (Popped(q.chunks[0]), q.(chunks := q.chunks[1..]))
    else if q.closed then (Drained, q)
    else (Blocked, q)
  }

  function ClosedWithExit(q: Queue, code: Option<int>): Queue {
    q.(closed := true, exitCode := code)
  }

  function ClosedAbnormally(q: Queue): Queue {
    q.(closed := true)
  }

  /** A closed queue is read into no more and keeps what it holds, to be popped to the
      end; an abnormal close keeps the exit code there was. */
  lemma ClosedMeaning(q: Queue, code: Option<int>, high: int, low: int)
    ensures var e, a := ClosedWithExit(q, code), ClosedAbnormally(q);
            && e.closed && a.closed && e.chunks == q.chunks && a.chunks == q.chunks
            && e.exitCode == code && a.exitCode == q.exitCode
            && ShouldRead(e, high, low).0 == Stop && ShouldRead(a, high, low).0 == Stop
            && (Pop(e).0 == Drained <==> q.chunks == []) && (Pop(a).0 == Drained <==> q.chunks == [])
            && !Pop(e).0.Blocked? && !Pop(a).0.Blocked?
  {
  }

  /** What was pushed comes out, oldest first, and nothing else. */
  lemma PoppedInOrder(q: Queue, b: Chunk)
    requires b != []
    ensures Pop(Pushed(q, b)).0 == Popped(if q.chunks == [] then b else q.chunks[0])
    ensures [Pop(Pushed(q, b)).0.chunk] + Pop(Pushed(q, b)).1.chunks == q.chunks + [b]
    ensures Pushed(q, []) == q
  {
    if q.chunks != [] {
      assert [q.chunks[0]] + q.chunks[1..] == q.chunks;
      assert (q.chunks + [b])[1..] == q.chunks[1..] + [b];
    }
  }

  class OutputQueue {
    var chunks: seq<Chunk>
    var bytes: int
    var paused: bool
    var closed: bool
    var exitCode: Option<int>
    const highWater: int
    const lowWater: int

    function View(): Queue
      reads this
    {
      Queue(chunks, paused, closed, exitCode)
    }

    ghost predicate Valid()
      reads this
    {
      bytes == Total(chunks)
    }

    constructor (highWater: int, lowWater: int)
      ensures Valid() && View() == Queue([], false, false, None)
      ensures this.highWater == highWater && this.lowWater == lowWater
    {
      this.highWater, this.lowWater := highWater, lowWater;
      chunks, bytes, paused, closed, exitCode := [], 0, false, false, None;
    }

    method PushChunk(b: Chunk)
      requires Valid()
      modifies this
      ensures Valid() && View() == Pushed(old(View()), b)
    {
      if |b| == 0 {
        return;
      }
      TotalSplit(chunks, [b]);
      chunks := chunks + [b];
      bytes := bytes + |b|;
    }

    method MayRead() returns (read: bool, stop: bool)
      requires Valid()
      modifies this
      ensures Valid()
      ensures var (answer, q) := ShouldRead(old(View()), highWater, lowWater);
              View() == q && (read <==> answer == Read) && (stop <==> answer == Stop)
    {
      if closed {
        return false, true;
      }
      if paused {
        if bytes < lowWater {
          paused := false;
          return true, false;
        }
        return false, false;
      }
      if bytes >= highWater {
        paused := true;
        return false, false;
      }
      return true, false;
    }

    /** One pass of Pop; Blocked is where the original waits for a signal. */
    method TryPop() returns (answer: PopAnswer)
      requires Valid()
      modifies this
      ensures Valid() && (answer, View()) == Pop(old(View()))
    {
      if |chunks| == 0 {
        return if closed then Drained else Blocked;
      }
      var c := chunks[0];
      chunks := chunks[1..];
      bytes := bytes - |c|;
      return Popped(c);
    }

    method CloseWithExit(code: Option<int>)
      requires Valid()
      modifies this
      ensures Valid() && View() == ClosedWithExit(old(View()), code)
    {
      closed := true;
      exitCode := code;
    }

    method CloseAbnormal()
      requires Valid()
      modifies this
      ensures Valid() && View() == ClosedAbnormally(old(View()))
    {
      closed := true;
    }
  }
}
