/** A ring of slots read from `first`, as the two undo journals keep their checkpoints. */
module Ring {

  /** The remainder modulo the ring size, for the positions a ring uses. */
  function Slot(x: nat, n: nat): nat
    requires 0 < n && x < 2 * n
  {
    if x < n then x else x - n
  }

  lemma SlotIsRemainder(x: nat, n: nat)
    requires 0 < n && x < 2 * n
    ensures Slot(x, n) == x % n
  {
    if x < n { assert x / n == 0; } else { assert x == n + (x - n); assert (x - n) / n == 0; }
  }

  function View<T>(slots: seq<T>, first: nat, count: nat): (v: seq<T>)
    requires first < |slots| && count <= |slots|
    ensures |v| == count && forall i :: 0 <= i < count ==> v[i] == slots[Slot(first + i, |slots|)]
  {
    seq(count, i requires 0 <= i < count => slots[Slot(first + i, |slots|)])
  }

  lemma Push<T>(slots: seq<T>, first: nat, count: nat, x: T)
    requires first < |slots| && count < |slots|
    ensures View(slots[Slot(first + count, |slots|) := x], first, count + 1) == View(slots, first, count) + [x]
  {
    var a := View(slots[Slot(first + count, |slots|) := x], first, count + 1);
    var b := View(slots, first, count) + [x];
    assert |a| == |b| && forall i :: 0 <= i < |a| ==> a[i] == b[i];
  }

  lemma Evict<T>(slots: seq<T>, first: nat, x: T)
    requires first < |slots|
    ensures View(slots[first := x], Slot(first + 1, |slots|), |slots|) == View(slots, first, |slots|)[1..] + [x]
  {
    var a := View(slots[first := x], Slot(first + 1, |slots|), |slots|);
    var b := View(slots, first, |slots|)[1..] + [x];
    assert |a| == |b| && forall i :: 0 <= i < |a| ==> a[i] == b[i];
  }

  /** A new newest slot, in the place of the oldest one when the ring is full. */
  lemma Renew<T>(slots: seq<T>, first: nat, count: nat, x: T, slots': seq<T>, first': nat, count': nat)
    requires first < |slots| && count <= |slots|
    requires count == |slots| ==> slots' == slots[first := x] && first' == Slot(first + 1, |slots|) && count' == count
    requires count < |slots| ==>
      slots' == slots[Slot(first + count, |slots|) := x] && first' == first && count' == count + 1
    ensures first' < |slots'| == |slots| && 0 < count' <= |slots|
    ensures slots'[Slot(first' + count' - 1, |slots'|)] == x
    ensures View(slots', first', count') == View(slots, first, count)[if count == |slots| then 1 else 0..] + [x]
  {
    if count == |slots| {
      Evict(slots, first, x);
    } else {
      Push(slots, first, count, x);
      assert View(slots, first, count)[0..] == View(slots, first, count);
    }
  }

  lemma SetBack<T>(slots: seq<T>, first: nat, count: nat, x: T)
    requires first < |slots| && 0 < count <= |slots|
    ensures View(slots, first, count)[count - 1] == slots[Slot(first + count - 1, |slots|)]
    ensures View(slots[Slot(first + count - 1, |slots|) := x], first, count) ==
      View(slots, first, count)[..count - 1] + [x]
  {
    var a := View(slots[Slot(first + count - 1, |slots|) := x], first, count);
    var b := View(slots, first, count)[..count - 1] + [x];
    assert |a| == |b| && forall i :: 0 <= i < |a| ==> a[i] == b[i];
  }

  lemma Take<T>(slots: seq<T>, first: nat, count: nat, kept: nat)
    requires first < |slots| && kept <= count <= |slots|
    ensures View(slots, first, kept) == View(slots, first, count)[..kept]
  {}

  lemma Drop<T>(slots: seq<T>, first: nat, count: nat, k: nat)
    requires first < |slots| && k <= count <= |slots|
    ensures View(slots, Slot(first + k, |slots|), count - k) == View(slots, first, count)[k..]
  {
    var a := View(slots, Slot(first + k, |slots|), count - k);
    var b := View(slots, first, count)[k..];
    assert |a| == |b| && forall i :: 0 <= i < |a| ==> a[i] == b[i];
  }
}
