/** The fixed ring behind the asynchronous sink: an array with two masked indices. */
module BoundedQueue {

  // ----- Masking by a power of two

  function Pow2(k: nat): (p: nat)
    ensures p > 0
  {
    if k == 0 then 1 else 2 * Pow2(k - 1)
  }

  /** Bitwise conjunction. */
  function BitAnd(a: nat, b: nat): nat
    decreases a
  {
    if a == 0 || b == 0 then 0 else 2 * BitAnd(a / 2, b / 2) + (a % 2) * (b % 2)
  }

  /** One turn around a ring of n slots. */
  function Wrap(x: nat, n: nat): nat {
    if x < n then x else x - n
  }

  lemma HalfOfMask(half: nat)
    requires half > 0
    ensures (2 * half - 1) / 2 == half - 1 && (2 * half - 1) % 2 == 1
  {
  }

  /** Within two turns, keeping the low k bits goes once around a ring of 2^k slots. */
  lemma {:induction false} MaskWraps(x: nat, k: nat)
    requires x < 2 * Pow2(k)
    ensures BitAnd(x, Pow2(k) - 1) == Wrap(x, Pow2(k))
  {
    if k > 0 && x > 0 {
      MaskWraps(x / 2, k - 1);
      HalfOfMask(Pow2(k - 1));
    }
  }

  // ----- The queue

  /** The n records that start at a given slot. */
  function Ring<T>(slots: seq<T>, start: nat, n: nat): (r: seq<T>)
    requires start < |slots| && n <= |slots|
    ensures |r| == n
    ensures forall j :: 0 <= j < n ==> r[j] == slots[Wrap(start + j, |slots|)]
  {
    seq(n, j requires 0 <= j < n => slots[Wrap(start + j, |slots|)])
  }

  /** Without its first record a ring starts one slot further. */
  lemma RingFront<T>(slots: seq<T>, start: nat, n: nat)
    requires start < |slots| && 0 < n <= |slots|
    ensures Wrap(start + 1, |slots|) < |slots|
    ensures Ring(slots, start, n) == [slots[start]] + Ring(slots, Wrap(start + 1, |slots|), n - 1)
  {
    var all, rest := Ring(slots, start, n), Ring(slots, Wrap(start + 1, |slots|), n - 1);
    forall j | 0 <= j < n ensures all[j] == ([slots[start]] + rest)[j] {
      if j > 0 {
        assert Wrap(start + j, |slots|) == Wrap(Wrap(start + 1, |slots|) + (j - 1), |slots|);
        assert rest[j - 1] == slots[Wrap(Wrap(start + 1, |slots|) + (j - 1), |slots|)];
      }
    }
  }

  class MpscBoundedQueue<T(0)> {
    const bits: nat
    const capacity: nat
    const slots: array<T>
    var enqueueIndex: nat
    var dequeueIndex: nat
    var size: nat

    ghost predicate Valid()
      reads this, slots
    {
      && slots.Length == capacity == Pow2(bits)
      && size <= capacity
      && dequeueIndex < capacity
      && enqueueIndex == Wrap(dequeueIndex + size, capacity)
    }

    /** The queued records, oldest first. */
    ghost function Contents(): (s: seq<T>)
      reads this, slots
      requires Valid()
      ensures |s| == size
    {
      Ring(slots[..], dequeueIndex, size)
    }

    constructor (bits: nat)
      ensures Valid() && fresh(slots) && capacity == Pow2(bits) && Contents() == []
    {
      this.bits := bits;
      capacity := Pow2(bits);
      slots := new T[Pow2(bits)];
      enqueueIndex, dequeueIndex, size := 0, 0, 0;
    }

    method TryEnqueue(record: T) returns (ok: bool)
      requires Valid()
      modifies this, slots
      ensures Valid()
      ensures ok <==> |old(Contents())| < capacity
      ensures Contents() == if ok then old(Contents()) + [record] else old(Contents())
      ensures !ok ==> slots[..] == old(slots[..])
    {
      if size >= capacity {
        return false;
      }
      slots[enqueueIndex] := record;
      MaskWraps(enqueueIndex + 1, bits);
      enqueueIndex := BitAnd(enqueueIndex + 1, capacity - 1);
      size := size + 1;
      return true;
    }

    method TryDequeue() returns (ok: bool, record: T)
      requires Valid()
      modifies this
      ensures Valid()
      ensures ok <==> old(Contents()) != []
      ensures ok ==> old(Contents()) == [record] + Contents()
      ensures !ok ==> Contents() == []
    {
      record := slots[dequeueIndex];
      if size == 0 {
        return false, record;
      }
      MaskWraps(dequeueIndex + 1, bits);
      RingFront(slots[..], dequeueIndex, size);
      dequeueIndex := BitAnd(dequeueIndex + 1, capacity - 1);
      size := size - 1;
      return true, record;
    }

    method ApproxDepth() returns (depth: nat)
      requires Valid()
      ensures depth == |Contents()|
    {
      return size;
    }

    method CanEnqueue() returns (room: bool)
      requires Valid()
      ensures room <==> |Contents()| < capacity
    {
      var depth := ApproxDepth();
      return depth < capacity;
    }

    method IsEmpty() returns (empty: bool)
      requires Valid()
      ensures empty <==> Contents() == []
    {
      var depth := ApproxDepth();
      return depth == 0;
    }
  }
}
