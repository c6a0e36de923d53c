/** The bounded ring of trace records. */
module TraceRing {
  import opened TraceRecords

  /** The last `n` of a list, or all of it. */
  function Last<T>(xs: seq<T>, n: nat): seq<T> {
    if |xs| <= n then xs else xs[|xs| - n..]
  }

  class TraceRingBuffer {
    const capacity: nat
    var records: seq<Line>
    var droppedOldest: nat
    ghost var pushed: seq<Line>      // since the last drain
    ghost var earlier: nat           // pushed before the last drain
    ghost var drained: nat

    /** The ring holds exactly the last `capacity` of the records pushed since the last drain, in
        order, and every record ever pushed was drained, was dropped, or is held. */
    ghost predicate Valid()
      reads this
    {
      && records == Last(pushed, capacity)
      && earlier + |pushed| == drained + droppedOldest + |records|
    }

    constructor (capacity: nat)
      ensures Valid() && this.capacity == capacity && pushed == [] && earlier == drained == droppedOldest == 0
    {
      this.capacity := capacity;
      records, droppedOldest := [], 0;
      pushed, earlier, drained := [], 0, 0;
    }

    method Push(record: Line)
      requires Valid()
      modifies this
      ensures Valid()
      ensures pushed == old(pushed) + [record] && earlier == old(earlier) && drained == old(drained)
      ensures droppedOldest == old(droppedOldest) + if |old(pushed)| < capacity then 0 else 1
    {
      pushed := pushed + [record];
      if capacity == 0 {
        droppedOldest := droppedOldest + 1;
        return;
      }
      if |records| == capacity {
        records := records[1..];
        droppedOldest := droppedOldest + 1;
      }
      records := records + [record];
    }

    method Drain() returns (out: seq<Line>)
      requires Valid()
      modifies this
      ensures Valid() && out == Last(old(pushed), capacity)
      ensures pushed == [] && earlier == old(earlier) + |old(pushed)| && drained == old(drained) + |out|
      ensures droppedOldest == old(droppedOldest)
    {
      out := records;
      records := [];
      earlier, drained, pushed := earlier + |pushed|, drained + |out|, [];
    }
  }

  // ---------------------------------------------------------------- whole runs

  datatype Call = Push(record: Line) | Drain

  /** The records pushed after the last drain of a run. */
  function SinceDrain(calls: seq<Call>): seq<Line> {
    if calls == [] then []
    else
      var before, last := calls[..|calls| - 1], calls[|calls| - 1];
      if last.Drain? then [] else SinceDrain(before) + [last.record]
  }

  function Pushes(calls: seq<Call>): nat {
    if calls == [] then 0 else Pushes(calls[..|calls| - 1]) + if calls[|calls| - 1].Push? then 1 else 0
  }

  function Total(batches: seq<seq<Line>>): nat {
    if batches == [] then 0 else Total(batches[..|batches| - 1]) + |batches[|batches| - 1]|
  }

  /** What the drains of a run return, each the last `capacity` of the records since the one before. */
  function Batches(calls: seq<Call>, capacity: nat): seq<seq<Line>> {
    if calls == [] then []
    else
      var before := calls[..|calls| - 1];
      if calls[|calls| - 1].Push? then Batches(before, capacity)
      else Batches(before, capacity) + [Last(SinceDrain(before), capacity)]
  }

  /** Any run of pushes and drains on a ring of any capacity, none included. */
  method Run(capacity: nat, calls: seq<Call>) returns (held: seq<Line>, dropped: nat, batches: seq<seq<Line>>)
    ensures held == Last(SinceDrain(calls), capacity) && batches == Batches(calls, capacity)
    ensures Pushes(calls) == Total(batches) + dropped + |held|
  {
    var ring := new TraceRingBuffer(capacity);
    batches := [];
    for i := 0 to |calls|
      invariant ring.Valid() && ring.pushed == SinceDrain(calls[..i]) && ring.capacity == capacity
      invariant batches == Batches(calls[..i], capacity)
      invariant ring.drained == Total(batches) && ring.earlier + |ring.pushed| == Pushes(calls[..i])
    {
      assert calls[..i + 1][..i] == calls[..i];
      match calls[i] {
        case Push(record) =>
          ring.Push(record);
        case Drain =>
          var batch := ring.Drain();
          assert (batches + [batch])[..|batches|] == batches;
          batches := batches + [batch];
      }
    }
    assert calls[..|calls|] == calls;
    held, dropped := ring.records, ring.droppedOldest;
  }
}
