/**
 * The bounded frame queue between the device callback and the recognition
 * worker of `SpeechStream`: a `queue.Queue(maxsize=32)` of raw frames, and
 * the callback's drop-oldest insertion rule.
 */
module FrameQueues {
  import opened Wrappers
  import opened LevelMeter

  /** One raw PCM buffer as delivered by the device callback. */
  type Frame = seq<byte>

  /** The capacity the speech stream gives its audio queue. */
  const QueueSize: nat := 32

  /**
   * A FIFO with Python's `queue.Queue` capacity rule: it is full when
   * `0 < maxsize <= qsize`, so a `maxsize` of zero or less is unbounded.
   */
  class FrameQueue {
    const maxsize: int
    var items: seq<Frame>

    constructor (maxsize: int)
      ensures this.maxsize == maxsize && items == []
    {
      this.maxsize := maxsize;
      items := [];
    }

    predicate Full()
      reads this
    {
      0 < maxsize <= |items|
    }

    predicate Empty()
      reads this
    {
      |items| == 0
    }

    /** `put_nowait`: appends, or reports `queue.Full` and changes nothing. */
    method PutNowait(f: Frame) returns (ok: bool)
      modifies this
      ensures ok <==> !old(Full())
      ensures items == if ok then old(items) + [f] else old(items)
    {
      ok := !Full();
      if ok {
        items := items + [f];
      }
    }

    /**
     * `get_nowait`: removes and returns the oldest frame, or reports
     * `queue.Empty`. With no concurrent producer it is also what the
     * worker's `get(timeout=0.1)` does.
     */
    method GetNowait() returns (f: Option<Frame>)
      modifies this
      ensures old(items) == [] ==> f == None && items == []
      ensures old(items) != [] ==> f == Some(old(items)[0]) && items == old(items)[1..]
    {
      if items == [] {
        f := None;
      } else {
        f := Some(items[0]);
        items := items[1..];
      }
    }
  }

  /**
   * The queue after the device callback offers `f` to queue `q` of the given
   * capacity: appended when there is room, otherwise the oldest frame is
   * evicted first.
   */
  function DropOldestPush(q: seq<Frame>, f: Frame, capacity: nat): (r: seq<Frame>)
    requires 0 < capacity && |q| <= capacity
    ensures |r| == Min(|q| + 1, capacity)
    ensures r == (q + [f])[|q| + 1 - |r|..]
  {
    if |q| < capacity then q + [f] else q[1..] + [f]
  }

  /** With room left, the device callback's push is a plain append. */
  lemma PushWithRoom(q: seq<Frame>, f: Frame, capacity: nat)
    requires |q| < capacity
    ensures DropOldestPush(q, f, capacity) == q + [f]
  {
  }

  /** The queue after offering every frame of `fs`, oldest first, with no pop. */
  function PushAll(q: seq<Frame>, fs: seq<Frame>, capacity: nat): (r: seq<Frame>)
    requires 0 < capacity && |q| <= capacity
    ensures |r| == Min(|q| + |fs|, capacity)
    decreases |fs|
  {
    if fs == [] then q else PushAll(DropOldestPush(q, fs[0], capacity), fs[1..], capacity)
  }

  /**
   * After any run of pushes without a pop the queue holds the most recent
   * `min(n, capacity)` frames of everything it held or was offered, in the
   * order they arrived.
   */
  lemma {:induction false} PushAllKeepsNewest(q: seq<Frame>, fs: seq<Frame>, capacity: nat)
    requires 0 < capacity && |q| <= capacity
    decreases |fs|
    ensures var all := q + fs;
      PushAll(q, fs, capacity) == all[|all| - Min(|all|, capacity)..]
  {
    if fs == [] {
      assert q + fs == q;
    } else {
      var q' := DropOldestPush(q, fs[0], capacity);
      assert PushAll(q, fs, capacity) == PushAll(q', fs[1..], capacity);
      PushAllKeepsNewest(q', fs[1..], capacity);
      NewestAfterPush(q, fs, capacity);
    }
  }

  /** One push does not change which frames are the newest `capacity` ones. */
  lemma NewestAfterPush(q: seq<Frame>, fs: seq<Frame>, capacity: nat)
    requires 0 < capacity && |q| <= capacity && fs != []
    ensures var all, rest := q + fs, DropOldestPush(q, fs[0], capacity) + fs[1..];
      rest[|rest| - Min(|rest|, capacity)..] == all[|all| - Min(|all|, capacity)..]
  {
    var all := q + fs;
    var q' := DropOldestPush(q, fs[0], capacity);
    var rest := q' + fs[1..];
    var drop := |q| + 1 - |q'|;
    assert q' == (q + [fs[0]])[drop..];
    assert all == (q + [fs[0]]) + fs[1..];
    SliceOfConcat(q + [fs[0]], fs[1..], drop);
    assert rest == all[drop..];
    if |q| < capacity {
      assert drop == 0;
    } else {
      assert drop == 1 && |rest| >= capacity;
    }
    assert Min(|rest|, capacity) == Min(|all|, capacity);
    SliceOfSlice(all, drop, |rest| - Min(|rest|, capacity));
  }

  lemma SliceOfConcat(a: seq<Frame>, b: seq<Frame>, k: nat)
    requires k <= |a|
    ensures a[k..] + b == (a + b)[k..]
  {
  }

  lemma SliceOfSlice(a: seq<Frame>, i: nat, j: nat)
    requires i + j <= |a|
    ensures a[i..][j..] == a[i + j..]
  {
  }

  /** Starting from an empty queue, `n` pushes leave the last `min(n, capacity)` frames. */
  lemma PushesIntoEmptyQueue(fs: seq<Frame>, capacity: nat)
    requires 0 < capacity
    ensures PushAll([], fs, capacity) == fs[|fs| - Min(|fs|, capacity)..]
    ensures |PushAll([], fs, capacity)| <= capacity
  {
    var e: seq<Frame> := [];
    PushAllKeepsNewest(e, fs, capacity);
    assert e + fs == fs;
    var r := PushAll(e, fs, capacity);
    assert r == fs[|fs| - Min(|fs|, capacity)..];
    assert |r| == Min(|fs|, capacity);
  }
}
