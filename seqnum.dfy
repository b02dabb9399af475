/** The sequence allocator of src/fpnn/fpnn_client.py: the class-level
    counter FPNNQuest.nextSeq and FPNNQuest.nextSeqNum, which every twoway
    quest calls once when it is constructed. */
module SeqNum {

  /** The largest sequence number; the call after it wraps to 1. */
  const MaxSeq: int := 2147483647

  /** The value nextSeqNum returns (and leaves in the counter) when the
      counter holds `prev`. */
  function NextSeq(prev: int): (r: int)
    ensures r <= MaxSeq
    ensures 0 <= prev ==> 1 <= r
  {
    (if prev >= MaxSeq then 0 else prev) + 1
  }

  /** The counter after `k` calls, starting from the class's initial 0. */
  function Allocated(k: nat): (r: int)
    ensures 0 <= r <= MaxSeq
    ensures k > 0 ==> r != 0
  {
    if k == 0 then 0 else NextSeq(Allocated(k - 1))
  }

  /** Each call returns the previous value plus one, except that the call
      after MaxSeq returns 1. */
  lemma NextSeqIsSuccessor(prev: int)
    requires 0 <= prev <= MaxSeq
    ensures 1 <= NextSeq(prev) <= MaxSeq
    ensures NextSeq(prev) == if prev == MaxSeq then 1 else prev + 1
  {
  }

  /** The k-th call (k >= 1) returns ((k - 1) mod MaxSeq) + 1: the values run
      1, 2, ..., MaxSeq, 1, 2, ... */
  lemma {:induction false} AllocatedClosedForm(k: nat)
    requires k >= 1
    ensures Allocated(k) == (k - 1) % MaxSeq + 1
  {
    if k > 1 {
      AllocatedClosedForm(k - 1);
      var j := k - 2;
      if j % MaxSeq == MaxSeq - 1 {
        assert (j + 1) % MaxSeq == 0 by {
          assert j + 1 == (j / MaxSeq + 1) * MaxSeq;
        }
      } else {
        assert (j + 1) % MaxSeq == j % MaxSeq + 1 by {
          assert j + 1 == (j / MaxSeq) * MaxSeq + (j % MaxSeq + 1);
        }
      }
    }
  }

  /** No two of any MaxSeq consecutive calls return the same number, so a
      number is reused only after MaxSeq further twoway quests. */
  lemma AllocatedDistinctWithinPeriod(i: nat, j: nat)
    requires 1 <= i < j < i + MaxSeq
    ensures Allocated(i) != Allocated(j)
  {
    AllocatedClosedForm(i);
    AllocatedClosedForm(j);
  }

  /** FPNNQuest's class attribute `nextSeq`, shared by every quest of the
      process. */
  class SeqAllocator {
    var nextSeq: int
    /** How many numbers have been drawn so far. */
    ghost var calls: nat

    ghost predicate Valid()
      reads this
    {
      nextSeq == Allocated(calls)
    }

    constructor ()
      ensures Valid() && calls == 0 && nextSeq == 0
    {
      nextSeq := 0;
      calls := 0;
    }

    /** FPNNQuest.nextSeqNum. */
    method Next() returns (s: int)
      requires Valid()
      modifies this
      ensures Valid() && calls == old(calls) + 1
      ensures s == nextSeq && 1 <= s <= MaxSeq
      ensures s == if old(nextSeq) == MaxSeq then 1 else old(nextSeq) + 1
    {
      if nextSeq >= MaxSeq {
        nextSeq := 0;
      }
      nextSeq := nextSeq + 1;
      s := nextSeq;
      calls := calls + 1;
    }
  }
}
