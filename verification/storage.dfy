/**
 * The growable entry storage of a composite value: a count of used slots and
 * a capacity that starts at eight and doubles when an append finds it full.
 */
module Storage {

  /** The capacity every new value starts with. */
  const InitialCapacity: nat := 8

  /** Capacities the growth rule can reach: eight, doubled any number of times. */
  ghost predicate IsGrowthSize(c: nat)
    decreases c
  {
    c == InitialCapacity || (c > InitialCapacity && c % 2 == 0 && IsGrowthSize(c / 2))
  }

  /** The stored entries, in insertion order, and the number of slots allocated for them. */
  datatype Members<T> = Members(entries: seq<T>, capacity: nat) {

    function Count(): nat {
      |entries|
    }

    /**
     * What holds of every storage the operations below produce: the entries fit,
     * the capacity is a doubling of the initial one, and it is only larger than
     * the initial capacity when it was needed: more than half of it is in use.
     */
    ghost predicate Valid() {
      && Count() <= capacity
      && IsGrowthSize(capacity)
      && (capacity == InitialCapacity || capacity < 2 * Count())
    }
  }

  /** Fresh storage: no entries, initial capacity. */
  function Empty<T>(): (m: Members<T>)
    ensures m.Valid()
    ensures m.Count() == 0 && m.capacity == InitialCapacity
  {
    Members([], InitialCapacity)
  }

  /** Appends one entry, doubling the capacity first when every slot is in use. */
  function Append<T>(m: Members<T>, x: T): (r: Members<T>)
    requires m.Valid()
    ensures r.Valid()
    ensures r.Count() == m.Count() + 1
    ensures r.entries[..m.Count()] == m.entries && r.entries[m.Count()] == x
    ensures m.Count() < m.capacity ==> r.capacity == m.capacity
    ensures m.Count() == m.capacity ==> r.capacity == 2 * m.capacity
  {
    var capacity := if m.Count() == m.capacity then 2 * m.capacity else m.capacity;
    assert capacity != m.capacity ==> capacity / 2 == m.capacity;
    Members(m.entries + [x], capacity)
  }

  /** The storage that appending `xs` in order to fresh storage produces. */
  function FromSeq<T>(xs: seq<T>): (m: Members<T>)
    ensures m.Valid()
    ensures m.entries == xs
  {
    if |xs| == 0 then Empty() else Append(FromSeq(xs[..|xs| - 1]), xs[|xs| - 1])
  }

  /** Of two different growth sizes the larger is at least twice the smaller. */
  lemma {:induction false} GrowthSizesSpread(a: nat, b: nat)
    requires IsGrowthSize(a) && IsGrowthSize(b) && a < b
    ensures 2 * a <= b
    decreases b
  {
    if a > b / 2 && a != InitialCapacity {
      GrowthSizesSpread(a / 2, b / 2);
    }
  }

  /** Valid storage holding `n` entries has exactly one possible capacity. */
  lemma CapacityDeterminedByCount<T>(m1: Members<T>, m2: Members<T>)
    requires m1.Valid() && m2.Valid() && m1.Count() == m2.Count()
    ensures m1.capacity == m2.capacity
  {
    if m1.capacity < m2.capacity {
      GrowthSizesSpread(m1.capacity, m2.capacity);
    } else if m2.capacity < m1.capacity {
      GrowthSizesSpread(m2.capacity, m1.capacity);
    }
  }

  /**
   * Growth is observationally transparent: storage built by appends holds
   * exactly the appended entries, and its capacity depends only on how many
   * there are, whatever path of appends produced it.
   */
  lemma GrowthTransparent<T>(m: Members<T>, xs: seq<T>)
    requires m.Valid() && m.entries == xs
    ensures m == FromSeq(xs)
  {
    CapacityDeterminedByCount(m, FromSeq(xs));
  }
}
