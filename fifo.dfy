/**
 * The bounded circular message queue of network/fifo.c and network/fifo.h.
 *
 * The C struct holds `QUEUE_MAX` character buffers of `MSG_LEN` bytes plus three
 * indices.  Here a slot holds the message as a string; the read order that
 * `printQueue` uses (`count` slots starting at `front`) is the queue's abstract
 * contents.
 */
module Fifo {

  /** Number of message slots (fifo.h `QUEUE_MAX`). */
  const QueueMax: nat := 10

  /** Size of one slot in bytes, terminating NUL included (fifo.h `MSG_LEN`). */
  const MsgLen: nat := 64

  /**
   * The `count` slots that start at `front` and wrap around the end of the
   * buffer, in the order in which `printQueue` visits them.
   */
  function RingWindow(slots: seq<string>, front: int, count: int): (w: seq<string>)
    requires |slots| == QueueMax && 0 <= front < QueueMax && 0 <= count <= QueueMax
    ensures |w| == count
    ensures forall k :: 0 <= k < count ==> w[k] == slots[(front + k) % QueueMax]
  {
    seq(count, k requires 0 <= k < count => slots[(front + k) % QueueMax])
  }

  /** Writing the slot just past the window and widening it by one appends to it. */
  lemma {:induction false} WindowGrow(slots: seq<string>, front: int, count: int, msg: string)
    requires |slots| == QueueMax && 0 <= front < QueueMax && 0 <= count < QueueMax
    ensures RingWindow(slots[(front + count) % QueueMax := msg], front, count + 1)
         == RingWindow(slots, front, count) + [msg]
  {
    var slots' := slots[(front + count) % QueueMax := msg];
    var a := RingWindow(slots', front, count + 1);
    var b := RingWindow(slots, front, count) + [msg];
    forall k | 0 <= k < count + 1
      ensures a[k] == b[k]
    {
      if k < count {
        assert (front + k) % QueueMax != (front + count) % QueueMax;
      }
    }
  }

  /** Advancing `front` by one slot and shrinking the window drops its first message. */
  lemma {:induction false} WindowShrink(slots: seq<string>, front: int, count: int)
    requires |slots| == QueueMax && 0 <= front < QueueMax && 0 < count <= QueueMax
    ensures RingWindow(slots, (front + 1) % QueueMax, count - 1)
         == RingWindow(slots, front, count)[1..]
  {
    var a := RingWindow(slots, (front + 1) % QueueMax, count - 1);
    var b := RingWindow(slots, front, count)[1..];
    forall k | 0 <= k < count - 1
      ensures a[k] == b[k]
    {
      assert ((front + 1) % QueueMax + k) % QueueMax == (front + (k + 1)) % QueueMax;
    }
  }

  /** Widening the window by one adds the slot just past it. */
  lemma WindowNext(slots: seq<string>, front: int, count: int)
    requires |slots| == QueueMax && 0 <= front < QueueMax && 0 <= count < QueueMax
    ensures RingWindow(slots, front, count + 1) == RingWindow(slots, front, count) + [slots[(front + count) % QueueMax]]
  {
    assert RingWindow(slots, front, count + 1)[..count] == RingWindow(slots, front, count);
  }

  /** Stepping a slot index `b` places on, wrapping, is reducing the position `b` places on. */
  lemma ShiftSlot(a: nat, b: nat)
    ensures (a % QueueMax + b) % QueueMax == (a + b) % QueueMax
  {
  }

  /** The `Queue` struct of fifo.h: the slot array and the three indices. */
  class Queue {
    const items: array<string>
    var front: int
    var rear: int
    var count: int

    /**
     * The queue invariant: `count` within capacity, both indices within the
     * buffer (`rear` is -1 only before the first enqueue), and `rear` the slot
     * just before `front + count` modulo the capacity.
     */
    ghost predicate Valid()
      reads this
    {
      && items.Length == QueueMax
      && 0 <= count <= QueueMax
      && 0 <= front < QueueMax
      && -1 <= rear < QueueMax
      && (rear + 1) % QueueMax == (front + count) % QueueMax
    }

    /** The queued messages, oldest first. */
    ghost function Contents(): seq<string>
      reads this, items
      requires Valid()
    {
      RingWindow(items[..], front, count)
    }

    /** Declaring a `Queue` and running `initQueue` on it. */
    constructor Init()
      ensures Valid() && fresh(items)
      ensures front == 0 && rear == -1 && count == 0
      ensures Contents() == []
    {
      items := new string[QueueMax](_ => "");
      front, rear, count := 0, -1, 0;
    }

    /** `initQueue`: reset the indices; the slots keep whatever they held. */
    method InitQueue()
      requires items.Length == QueueMax
      modifies this
      ensures Valid() && items[..] == old(items[..])
      ensures front == 0 && rear == -1 && count == 0
      ensures Contents() == [] && !IsFull() && IsEmpty()
    {
      front, rear, count := 0, -1, 0;
    }

    /** `isFull`: every slot is taken. */
    predicate IsFull()
      reads this, items
      requires Valid()
      ensures IsFull() <==> |Contents()| == QueueMax
    {
      count == QueueMax
    }

    /** `isEmpty`: no message is queued. */
    predicate IsEmpty()
      reads this, items
      requires Valid()
      ensures IsEmpty() <==> Contents() == []
    {
      count == 0
    }

    /**
     * `enqueue`: on a full queue nothing changes; otherwise `rear` moves one
     * slot on (wrapping), the message is copied there and `count` grows.  The
     * copy is a `strcpy` into a `MSG_LEN` buffer, so the message must leave
     * room for its terminating NUL.
     */
    method Enqueue(msg: string)
      requires Valid()
      requires |msg| < MsgLen
      modifies this, items
      ensures Valid()
      ensures old(count) == QueueMax ==>
        && front == old(front) && rear == old(rear) && count == old(count)
        && items[..] == old(items[..])
      ensures old(count) < QueueMax ==>
        && front == old(front) && rear == (old(rear) + 1) % QueueMax && count == old(count) + 1
        && items[..] == old(items[..])[rear := msg]
      ensures Contents() == if old(count) == QueueMax then old(Contents()) else old(Contents()) + [msg]
    {
      if count == QueueMax {
        // the C code only reports that the queue is full
      } else {
        ghost var slots := items[..];
        ShiftSlot(front + count, 1);
        rear := (rear + 1) % QueueMax;
        assert rear == (front + count) % QueueMax;
        items[rear] := msg;
        count := count + 1;
        WindowGrow(slots, front, count - 1, msg);
      }
    }

    /**
     * `dequeue`: on an empty queue nothing changes; otherwise `front` moves one
     * slot on (wrapping) and `count` shrinks.  The message is only printed, not
     * handed back, and its slot keeps its bytes.
     */
    method Dequeue()
      requires Valid()
      modifies this
      ensures Valid() && items[..] == old(items[..])
      ensures rear == old(rear)
      ensures old(count) == 0 ==> front == old(front) && count == old(count)
      ensures old(count) > 0 ==> front == (old(front) + 1) % QueueMax && count == old(count) - 1
      ensures Contents() == if old(count) == 0 then old(Contents()) else old(Contents())[1..]
    {
      if count == 0 {
        // the C code only reports that the queue is empty
      } else {
        WindowShrink(items[..], front, count);
        ShiftSlot(front + 1, count - 1);
        front := (front + 1) % QueueMax;
        count := count - 1;
      }
    }

    /**
     * `printQueue`: the messages it prints, in the order it prints them
     * (the `[i] -> ` prefixes and the console itself are not modelled).
     */
    method PrintQueue() returns (lines: seq<string>)
      requires Valid()
      ensures lines == Contents()
    {
      lines := [];
      if count == 0 {
        return;
      }
      var i := 0;
      var currentIdx := front;
      while i < count
        invariant 0 <= i <= count
        invariant currentIdx == (front + i) % QueueMax
        invariant lines == RingWindow(items[..], front, i)
      {
        WindowNext(items[..], front, i);
        lines := lines + [items[currentIdx]];
        ShiftSlot(front + i, 1);
        currentIdx := (currentIdx + 1) % QueueMax;
        i := i + 1;
      }
    }
  }
}
