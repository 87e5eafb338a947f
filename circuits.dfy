/**
 * The prewarmed circuit pool of backend/circuit.go: a FIFO queue of circuit
 * handles topped up to a target size, and a counter from which every handle
 * takes its ID. Handles are opaque numbered tokens.
 */
module Circuits {
  /** A session handle; only its ID is observable. */
  datatype Circuit = Circuit(id: int)

  /** The circuits numbered `first`, `first + 1`, ..., in queue order, `count` of them. */
  function Run(first: int, count: nat): (r: seq<Circuit>)
    ensures |r| == count
    decreases count
  {
    if count == 0 then [] else [Circuit(first)] + Run(first + 1, count - 1)
  }

  /** Element `i` of a run has ID `first + i`. */
  lemma {:induction false} RunAt(first: int, count: nat, i: nat)
    requires i < count
    ensures Run(first, count)[i] == Circuit(first + i)
    decreases count
  {
    if i > 0 {
      RunAt(first + 1, count - 1, i - 1);
    }
  }

  /** Minting the next ID onto the back of a run extends the run. */
  lemma {:induction false} RunSnoc(first: int, count: nat)
    ensures Run(first, count) + [Circuit(first + count)] == Run(first, count + 1)
    decreases count
  {
    if count > 0 {
      RunSnoc(first + 1, count - 1);
    }
  }

  /** Popping the front of a run leaves the run that starts one ID later. */
  lemma RunTail(first: int, count: nat)
    requires count > 0
    ensures Run(first, count)[1..] == Run(first + 1, count - 1)
  {}

  /** The queue length the top-up loop aims at: the target size, or 0 when that is negative. */
  function Target(size: int): (t: nat)
    ensures size >= 0 ==> t == size
    ensures size < 0 ==> t == 0
  {
    if size > 0 then size else 0
  }

  class CircuitManager {
    var circuits: seq<Circuit>
    var size: int
    var nextID: int

    /** The queue holds the IDs nextID-|circuits|+1 .. nextID in order, all of them positive. */
    ghost predicate Valid()
      reads this
    {
      |circuits| <= nextID && circuits == Run(nextID - |circuits| + 1, |circuits|)
    }

    /** The queue is at its target length. */
    ghost predicate Full()
      reads this
    {
      |circuits| == Target(size)
    }

    /** NewCircuitManager: an empty queue topped up to `n` handles numbered 1 .. n. */
    constructor (n: int)
      ensures size == n && nextID == Target(n) && circuits == Run(1, Target(n))
      ensures Valid() && Full()
    {
      circuits, size, nextID := [], n, 0;
      new;
      Prewarm();
    }

    /** Appends freshly numbered handles while the queue is shorter than the target size. */
    method Prewarm()
      modifies this`circuits, this`nextID
      ensures var added := if size > |old(circuits)| then size - |old(circuits)| else 0;
        circuits == old(circuits) + Run(old(nextID) + 1, added) && nextID == old(nextID) + added
      ensures old(Valid()) ==> Valid()
      ensures old(|circuits|) <= Target(size) ==> Full()
    {
      while |circuits| < size
        invariant |old(circuits)| <= |circuits|
        invariant |circuits| <= size || circuits == old(circuits)
        invariant nextID == old(nextID) + (|circuits| - |old(circuits)|)
        invariant circuits == old(circuits) + Run(old(nextID) + 1, |circuits| - |old(circuits)|)
        decreases size - |circuits|
      {
        RunSnoc(old(nextID) + 1, |circuits| - |old(circuits)|);
        nextID := nextID + 1;
        circuits := circuits + [Circuit(nextID)];
      }
      if old(Valid()) {
        RunConcat(nextID - |circuits| + 1, |old(circuits)|, |circuits| - |old(circuits)|);
      }
    }

    /**
     * Hands out the front handle and queues a freshly numbered one behind the
     * rest; with an empty queue, mints a handle directly and queues nothing.
     */
    method Next() returns (c: Circuit)
      modifies this`circuits, this`nextID
      ensures nextID == old(nextID) + 1 && |circuits| == |old(circuits)|
      ensures old(circuits) == [] ==> c == Circuit(nextID) && circuits == []
      ensures old(circuits) != [] ==> c == old(circuits)[0] && circuits == old(circuits)[1..] + [Circuit(nextID)]
      ensures old(Valid()) ==> Valid() && c.id == nextID - |circuits|
    {
      if |circuits| == 0 {
        nextID := nextID + 1;
        return Circuit(nextID);
      }
      c := circuits[0];
      circuits := circuits[1..];
      nextID := nextID + 1;
      circuits := circuits + [Circuit(nextID)];
      if old(Valid()) {
        var first := old(nextID) - |old(circuits)| + 1;
        RunTail(first, |old(circuits)|);
        RunSnoc(first + 1, |old(circuits)| - 1);
      }
    }
  }

  /** A run split in two is the two shorter runs one after the other. */
  lemma {:induction false} RunConcat(first: int, a: nat, b: nat)
    ensures Run(first, a) + Run(first + a, b) == Run(first, a + b)
    decreases a
  {
    if a > 0 {
      RunConcat(first + 1, a - 1, b);
    }
  }

  /** backend/main_test.go, TestCircuitManager: whatever the target size, three draws give IDs 1, 2, 3. */
  method ThreeDraws(n: int) returns (first: Circuit, second: Circuit, third: Circuit)
    ensures first.id == 1 && second.id == 2 && third.id == 3
  {
    var cm := new CircuitManager(n);
    first := cm.Next();
    second := cm.Next();
    third := cm.Next();
  }
}
