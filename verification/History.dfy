/** The masked ring of frame records, and the map of ticks it stands for. */
module History {
  import opened Bitwise
  import opened Numbers

  datatype FrameRecord<T, I> = FrameRecord(tick: nat, state: T, stateHash: nat, input: I)

  // ---------- what a sequence of insertions means ----------

  /** The last record of `log` whose tick falls on slot `i` of a ring of `capacity` slots. */
  function LastIn<T, I>(log: seq<FrameRecord<T, I>>, capacity: nat, i: nat): Option<FrameRecord<T, I>>
    requires capacity > 0
  {
    if log == [] then None
    else if log[|log| - 1].tick % capacity == i then Some(log[|log| - 1])
    else LastIn(log[..|log| - 1], capacity, i)
  }

  /** The record found for tick `t` after the insertions of `log`. */
  function Lookup<T, I>(log: seq<FrameRecord<T, I>>, capacity: nat, t: nat): Option<FrameRecord<T, I>>
    requires capacity > 0
  {
    var found := LastIn(log, capacity, t % capacity);
    if found.Some? && found.value.tick == t then found else None
  }

  /** Insertion `j` is for tick `t`, and nothing inserted after it falls on the same slot. */
  predicate IsLatest<T(==), I(==)>(log: seq<FrameRecord<T, I>>, capacity: nat, t: nat, j: nat)
    requires capacity > 0 && j < |log|
  {
    log[j].tick == t && forall l :: j < l < |log| ==> log[l].tick % capacity != t % capacity
  }

  class HistoryBuffer<T(0), I(0)> {
    const buffer: array<Option<FrameRecord<T, I>>>
    const mask: nat
    ghost const exponent: nat
    ghost var log: seq<FrameRecord<T, I>>

    ghost function Capacity(): (c: nat)
      ensures c > 0
    {
      Pow2(exponent)
    }

    ghost predicate Valid()
      reads this, buffer
    {
      && buffer.Length == Capacity()
      && mask == Capacity() - 1
      && (forall i :: 0 <= i < buffer.Length ==> buffer[i] == LastIn(log, Capacity(), i))
    }

    /** The capacity must be a power of two, as the source asserts. */
    constructor (capacity: nat, ghost k: nat)
      requires capacity == Pow2(k)
      ensures Valid() && fresh(buffer) && Capacity() == capacity && log == []
    {
      buffer := new Option<FrameRecord<T, I>>[capacity](i => None);
      mask := capacity - 1;
      exponent := k;
      log := [];
    }

    method Insert(record: FrameRecord<T, I>)
      requires Valid()
      modifies this, buffer
      ensures Valid()
      ensures log == old(log) + [record]
    {
      MaskIsModulo(record.tick, exponent);
      var index := BitAnd(record.tick, mask);
      buffer[index] := Some(record);
      log := log + [record];
      assert log[..|log| - 1] == old(log);
    }

    method Get(tick: nat) returns (found: Option<FrameRecord<T, I>>)
      requires Valid()
      ensures found == Lookup(log, Capacity(), tick)
    {
      MaskIsModulo(tick, exponent);
      var index := BitAnd(tick, mask);
      found := buffer[index];
      if found.Some? && found.value.tick != tick {
        found := None;
      }
    }
  }

  // ---------- agreement with a map ----------

  lemma {:induction false} LastInIsLast<T, I>(log: seq<FrameRecord<T, I>>, capacity: nat, i: nat, j: nat)
    requires capacity > 0 && j < |log| && log[j].tick % capacity == i
    requires forall l :: j < l < |log| ==> log[l].tick % capacity != i
    ensures LastIn(log, capacity, i) == Some(log[j])
  {
    if j < |log| - 1 {
      LastInIsLast(log[..|log| - 1], capacity, i, j);
    }
  }

  lemma {:induction false} LastInOccurs<T, I>(log: seq<FrameRecord<T, I>>, capacity: nat, i: nat) returns (j: nat)
    requires capacity > 0 && LastIn(log, capacity, i).Some?
    ensures j < |log| && LastIn(log, capacity, i) == Some(log[j]) && log[j].tick % capacity == i
    ensures forall l :: j < l < |log| ==> log[l].tick % capacity != i
  {
    if log[|log| - 1].tick % capacity == i {
      j := |log| - 1;
    } else {
      j := LastInOccurs(log[..|log| - 1], capacity, i);
    }
  }

  /**
    The ring returns a record for `t` exactly when some insertion for `t` was not followed by one on
    the same slot for another tick, and then it is the latest record inserted for `t`.
   */
  lemma AgreesWithMap<T, I>(log: seq<FrameRecord<T, I>>, capacity: nat, t: nat)
    requires capacity > 0
    ensures Lookup(log, capacity, t).Some? <==> exists j: nat :: j < |log| && IsLatest(log, capacity, t, j)
    ensures forall j: nat | j < |log| && IsLatest(log, capacity, t, j) :: Lookup(log, capacity, t) == Some(log[j])
  {
    forall j: nat | j < |log| && IsLatest(log, capacity, t, j)
      ensures Lookup(log, capacity, t) == Some(log[j])
    {
      LastInIsLast(log, capacity, t % capacity, j);
    }
    if Lookup(log, capacity, t).Some? {
      var j := LastInOccurs(log, capacity, t % capacity);
      assert IsLatest(log, capacity, t, j);
    }
  }

  lemma SameSlotMultiple(t: nat, u: nat, capacity: nat)
    requires capacity > 0 && t < u && t % capacity == u % capacity
    ensures u - t >= capacity
  {
    var q := u / capacity - t / capacity;
    assert u - t == capacity * q;
    if q >= 1 {
      ProductAtLeast(capacity, q);
    } else {
      NoProduct(capacity, -q);
    }
  }

  lemma NoProduct(m: nat, k: nat)
    ensures m * (0 - k) <= 0
  {}

  /** Two different ticks share a slot only if they are at least a capacity apart. */
  lemma SameSlotFarApart(t: nat, u: nat, capacity: nat)
    requires capacity > 0 && t < u < t + capacity
    ensures t % capacity != u % capacity
  {
    if t % capacity == u % capacity {
      SameSlotMultiple(t, u, capacity);
      assert false;
    }
  }

  /** With consecutive ticks the last `capacity` records are all there. */
  lemma ConsecutiveTicksAreKept<T, I>(log: seq<FrameRecord<T, I>>, capacity: nat, j: nat)
    requires capacity > 0 && j < |log| && |log| - j <= capacity
    requires forall l :: 0 <= l < |log| ==> log[l].tick == log[0].tick + l
    ensures Lookup(log, capacity, log[j].tick) == Some(log[j])
  {
    forall l | j < l < |log|
      ensures log[l].tick % capacity != log[j].tick % capacity
    {
      SameSlotFarApart(log[j].tick, log[l].tick, capacity);
    }
    LastInIsLast(log, capacity, log[j].tick % capacity, j);
  }

  /** One insertion: the new tick is found, ticks on other slots are untouched. */
  lemma LookupAfterInsert<T, I>(log: seq<FrameRecord<T, I>>, capacity: nat, record: FrameRecord<T, I>, t: nat)
    requires capacity > 0
    ensures Lookup(log + [record], capacity, record.tick) == Some(record)
    ensures t % capacity != record.tick % capacity ==> Lookup(log + [record], capacity, t) == Lookup(log, capacity, t)
    ensures t != record.tick && t % capacity == record.tick % capacity ==> Lookup(log + [record], capacity, t) == None
  {
    assert (log + [record])[..|log|] == log;
  }
}
