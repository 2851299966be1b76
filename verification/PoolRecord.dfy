/** Checkpoints of a fixed pool whose items are split into disjoint, exhaustive parts: one key for each
    part of each item, at most one saved copy of each key in a checkpoint. */
module PoolRecord {
  import opened Folding
  import opened Memory

  datatype Part = Part(offset: nat, size: nat)

  datatype Layout = Layout(count: nat, itemSize: nat, parts: seq<Part>)
  {
    /** The parts follow one another and fill an item exactly. */
    predicate Exhaustive() {
      && 0 < count && 0 < |parts| < 32 && parts[0].offset == 0
      && (forall i :: 0 <= i < |parts| ==> 0 < parts[i].size)
      && (forall i :: 0 <= i < |parts| - 1 ==> parts[i].offset + parts[i].size == parts[i + 1].offset)
      && parts[|parts| - 1].offset + parts[|parts| - 1].size == itemSize
    }

    function Keys(): nat { count * |parts| }
  }

  const MISSING: int := -1

  function Size(l: Layout, key: nat): nat
    requires l.parts != []
  {
    l.parts[key % |l.parts|].size
  }

  /** Where the bytes of a key begin: after those of all keys before it. */
  function Start(l: Layout, key: nat): nat
    requires l.parts != []
  {
    if key == 0 then 0 else Start(l, key - 1) + Size(l, key - 1)
  }

  lemma Multiples(d: int, n: int)
    requires 0 <= n
    ensures d >= 1 ==> d * n >= n
    ensures d <= -1 ==> d * n <= -n
  {}

  lemma DivMod(slot: nat, parts: nat, i: nat)
    requires i < parts
    ensures (slot * parts + i) / parts == slot && (slot * parts + i) % parts == i
  {
    var x := slot * parts + i;
    var q, r := x / parts, x % parts;
    assert x == q * parts + r;
    assert (slot - q) * parts == r - i;
    Multiples(slot - q, parts);
  }

  /** The address the code computes from item and part is where the key begins. */
  lemma {:induction false} StartOfPart(l: Layout, slot: nat, i: nat, key: nat)
    requires l.Exhaustive() && i < |l.parts| && key == slot * |l.parts| + i
    ensures Start(l, key) == slot * l.itemSize + l.parts[i].offset && Size(l, key) == l.parts[i].size
    decreases slot, i
  {
    DivMod(slot, |l.parts|, i);
    if i > 0 {
      StartOfPart(l, slot, i - 1, key - 1);
    } else if slot > 0 {
      Distribute(slot, |l.parts|);
      Distribute(slot, l.itemSize);
      StartOfPart(l, slot - 1, |l.parts| - 1, key - 1);
    }
  }

  lemma Distribute(slot: nat, n: nat)
    requires slot > 0
    ensures slot * n == (slot - 1) * n + n
  {}

  lemma {:induction false} StartsAscend(l: Layout, j: nat, k: nat)
    requires l.parts != [] && j < k
    ensures Start(l, j) + Size(l, j) <= Start(l, k)
    decreases k
  {
    if j < k - 1 { StartsAscend(l, j, k - 1); }
  }

  /** The keys fill the pool. */
  lemma PoolEnd(l: Layout)
    requires l.Exhaustive()
    ensures Start(l, l.Keys()) == l.count * l.itemSize
  {
    StartOfPart(l, l.count, 0, l.Keys());
  }

  function Slice(bytes: Image, at: nat, size: nat): Image
    requires at + size <= |bytes|
  {
    bytes[at..at + size]
  }

  function Range(l: Layout, key: nat, bytes: Image): Image
    requires l.parts != [] && Start(l, key) + Size(l, key) <= |bytes|
  {
    Slice(bytes, Start(l, key), Size(l, key))
  }

  lemma RangeFits(l: Layout, key: nat, keys: nat)
    requires l.parts != [] && key < keys
    ensures Start(l, key) + Size(l, key) <= Start(l, keys)
  {
    StartsAscend(l, key, keys);
  }

  lemma {:induction false} KeyAt(l: Layout, a: nat, keys: nat) returns (key: nat)
    requires l.parts != [] && a < Start(l, keys)
    ensures key < keys && Start(l, key) <= a < Start(l, key) + Size(l, key)
    decreases keys
  {
    if Start(l, keys - 1) <= a { key := keys - 1; } else { key := KeyAt(l, a, keys - 1); }
  }

  /** Two pools are equal when every key has the same bytes in both. */
  lemma SamePools(l: Layout, a: Image, b: Image)
    requires l.parts != [] && |a| == |b| == Start(l, l.Keys())
    requires forall key: nat :: key < l.Keys() ==> SameRange(l, key, a, b)
    ensures a == b
  {
    forall i: nat | i < |a| ensures a[i] == b[i] {
      var key := KeyAt(l, i, l.Keys());
      assert SameRange(l, key, a, b);
      RangeFits(l, key, l.Keys());
      assert Range(l, key, a)[i - Start(l, key)] == Range(l, key, b)[i - Start(l, key)];
    }
  }

  ghost predicate SameRange(l: Layout, key: nat, a: Image, b: Image)
    requires l.parts != []
  {
    && Start(l, key) + Size(l, key) <= |a| && Start(l, key) + Size(l, key) <= |b|
    && Range(l, key, a) == Range(l, key, b)
  }

  // ---------------------------------------------------------------- copying by plan

  datatype CopyRegion = CopyRegion(from: nat, to: nat, bytes: nat)

  predicate RegionFits(region: CopyRegion, destination: nat, source: nat) {
    region.from + region.bytes <= source && region.to + region.bytes <= destination
  }

  function Copied(destination: Image, source: Image, region: CopyRegion): (r: Image)
    requires RegionFits(region, |destination|, |source|)
    ensures |r| == |destination|
  {
    Splice(destination, region.to, source[region.from..region.from + region.bytes])
  }

  predicate PlanFits(plan: seq<CopyRegion>, destination: nat, source: nat) {
    plan == [] ||
    (RegionFits(plan[|plan| - 1], destination, source) && PlanFits(plan[..|plan| - 1], destination, source))
  }

  /** The copies of a plan, in order. */
  function Executed(destination: Image, source: Image, plan: seq<CopyRegion>): (r: Image)
    requires PlanFits(plan, |destination|, |source|)
    ensures |r| == |destination|
  {
    if plan == [] then destination
    else Copied(Executed(destination, source, plan[..|plan| - 1]), source, plan[|plan| - 1])
  }

  predicate Continues(last: CopyRegion, next: CopyRegion) {
    last.from + last.bytes == next.from && last.to + last.bytes == next.to
  }

  function Joined(last: CopyRegion, next: CopyRegion): CopyRegion { last.(bytes := last.bytes + next.bytes) }

  /** A copy that continues the previous one on both sides is merged into it. */
  function PlanCopy(plan: seq<CopyRegion>, next: CopyRegion): seq<CopyRegion> {
    if plan != [] && Continues(plan[|plan| - 1], next) then plan[..|plan| - 1] + [Joined(plan[|plan| - 1], next)]
    else plan + [next]
  }

  lemma JoinedCopy(destination: Image, source: Image, last: CopyRegion, next: CopyRegion)
    requires RegionFits(last, |destination|, |source|) && RegionFits(next, |destination|, |source|)
      && Continues(last, next)
    ensures RegionFits(Joined(last, next), |destination|, |source|)
    ensures Copied(destination, source, Joined(last, next)) == Copied(Copied(destination, source, last), source, next)
  {
    var a, b := Copied(destination, source, Joined(last, next)), Copied(Copied(destination, source, last), source,
        next);
    assert |a| == |b| && forall i :: 0 <= i < |a| ==> a[i] == b[i];
  }

  lemma LastCopy(destination: Image, source: Image, plan: seq<CopyRegion>, front: seq<CopyRegion>, last: CopyRegion)
    requires plan == front + [last] && RegionFits(last, |destination|, |source|)
      && PlanFits(front, |destination|, |source|)
    ensures PlanFits(plan, |destination|, |source|)
    ensures Executed(destination, source, plan) == Copied(Executed(destination, source, front), source, last)
  {
    assert plan[..|plan| - 1] == front && plan[|plan| - 1] == last;
  }

  lemma {:induction false} AllRegionsFit(plan: seq<CopyRegion>, destination: nat, source: nat, i: nat)
    requires PlanFits(plan, destination, source) && i < |plan|
    ensures RegionFits(plan[i], destination, source)
  {
    if i < |plan| - 1 { AllRegionsFit(plan[..|plan| - 1], destination, source, i); }
  }

  /** Merging never changes what a plan copies. */
  lemma PlannedCopy(destination: Image, source: Image, plan: seq<CopyRegion>, next: CopyRegion)
    requires PlanFits(plan, |destination|, |source|) && RegionFits(next, |destination|, |source|)
    ensures PlanFits(PlanCopy(plan, next), |destination|, |source|)
    ensures Executed(destination, source, PlanCopy(plan, next)) ==
      Copied(Executed(destination, source, plan), source, next)
  {
    if plan != [] && Continues(plan[|plan| - 1], next) {
      var front, last := plan[..|plan| - 1], plan[|plan| - 1];
      assert plan == front + [last];
      JoinedCopy(Executed(destination, source, front), source, last, next);
      LastCopy(destination, source, front + [Joined(last, next)], front, Joined(last, next));
      LastCopy(destination, source, plan, front, last);
    } else {
      LastCopy(destination, source, plan + [next], plan, next);
    }
  }

  // ---------------------------------------------------------------- a checkpoint

  datatype Record = Record(first: nat, last: nat, offsets: seq<int>, keys: seq<nat>, bytes: Image, used: nat)
  {
    predicate Has(key: nat)
      requires key < |offsets|
    {
      offsets[key] != MISSING
    }
  }

  /** The saved copies follow one another in the order the keys were touched. */
  ghost predicate Packed(l: Layout, r: Record, n: nat, end: nat)
    requires l.parts != [] && n <= |r.keys|
  {
    if n == 0 then end == 0 else
      var key := r.keys[n - 1];
      && key < l.Keys() && key < |r.offsets| && 0 <= r.offsets[key] && r.offsets[key] + Size(l, key) == end
      && Packed(l, r, n - 1, r.offsets[key])
  }

  /** How many bytes the saved keys below `k` take. */
  function Saved(l: Layout, r: Record, k: nat): nat
    requires l.parts != [] && k <= |r.offsets|
  {
    if k == 0 then 0 else Saved(l, r, k - 1) + if r.Has(k - 1) then Size(l, k - 1) else 0
  }

  ghost predicate Filed(l: Layout, r: Record) {
    && l.parts != [] && |r.offsets| == l.Keys()
    && (forall k: nat :: k < l.Keys() ==> (r.Has(k) <==> k in r.keys))
    && Packed(l, r, |r.keys|, r.used) && r.used <= |r.bytes| && r.used == Saved(l, r, l.Keys())
  }

  /** Each key is saved at most once, so a checkpoint never needs more than the pool's size. */
  lemma {:induction false} SavedFits(l: Layout, r: Record, k: nat)
    requires l.parts != [] && k <= |r.offsets|
    ensures Saved(l, r, k) <= Start(l, k)
  {
    if k > 0 { SavedFits(l, r, k - 1); }
  }

  lemma {:induction false} PackedSlice(l: Layout, r: Record, n: nat, end: nat, j: nat)
    requires l.parts != [] && j < n <= |r.keys| && Packed(l, r, n, end)
    ensures r.keys[j] < |r.offsets| && 0 <= r.offsets[r.keys[j]] && r.offsets[r.keys[j]] + Size(l, r.keys[j]) <= end
  {
    if j < n - 1 { PackedSlice(l, r, n - 1, r.offsets[r.keys[n - 1]], j); }
  }

  ghost predicate Fits(l: Layout, r: Record, key: nat, pool: nat) {
    && l.parts != [] && key < |r.offsets| && 0 <= r.offsets[key] && r.offsets[key] + Size(l, key) <= |r.bytes|
    && Start(l, key) + Size(l, key) <= pool
  }

  function SavedBytes(l: Layout, r: Record, key: nat): Image
    requires l.parts != [] && key < |r.offsets| && 0 <= r.offsets[key] && r.offsets[key] + Size(l, key) <= |r.bytes|
  {
    r.bytes[r.offsets[key]..r.offsets[key] + Size(l, key)]
  }

  /** For one key: its old bytes are saved, or nothing has written it since. */
  ghost predicate KeyUndoes(l: Layout, r: Record, key: nat, before: Image, now: Image)
    requires l.parts != [] && key < |r.offsets|
  {
    if r.Has(key) then Fits(l, r, key, |before|) && SavedBytes(l, r, key) == Range(l, key, before)
    else SameRange(l, key, before, now)
  }

  /** Restoring the checkpoint onto `now` gives `before`. */
  ghost predicate Undoes(l: Layout, r: Record, before: Image, now: Image) {
    forall u: int :: Folded(RecordMark, u) ==>
      && Filed(l, r) && |before| == |now| == Start(l, l.Keys())
      && forall key: nat :: key < l.Keys() ==> KeyUndoes(l, r, key, before, now)
  }

  lemma Opened(l: Layout, r: Record, before: Image, now: Image)
    requires Undoes(l, r, before, now)
    ensures Filed(l, r) && |before| == |now| == Start(l, l.Keys())
    ensures forall key: nat :: key < l.Keys() ==> KeyUndoes(l, r, key, before, now)
  {
    assert Folded(RecordMark, 0);
  }

  // ---------------------------------------------------------------- touching

  /** The record with one more key, its copy still to be made. */
  function Entered(l: Layout, r: Record, key: nat): Record
    requires l.parts != [] && key < |r.offsets|
  {
    if r.Has(key) then r
    else r.(offsets := r.offsets[key := r.used], keys := r.keys + [key], used := r.used + Size(l, key))
  }

  function RegionFor(l: Layout, r: Record, key: nat): CopyRegion
    requires l.parts != []
  {
    CopyRegion(Start(l, key), r.used, Size(l, key))
  }

  /** The record with one more key and its copy. */
  function Touched(l: Layout, r: Record, key: nat, pool: Image): Record
    requires l.parts != [] && key < |r.offsets|
    requires !r.Has(key) ==> RegionFits(RegionFor(l, r, key), |r.bytes|, |pool|)
  {
    if r.Has(key) then r else Entered(l, r, key).(bytes := Copied(r.bytes, pool, RegionFor(l, r, key)))
  }

  lemma {:induction false} SavedAfter(l: Layout, r: Record, key: nat, k: nat)
    requires l.parts != [] && k <= |r.offsets| && key < |r.offsets| && !r.Has(key)
    ensures Saved(l, Entered(l, r, key), k) == Saved(l, r, k) + if key < k then Size(l, key) else 0
  {
    if k > 0 { SavedAfter(l, r, key, k - 1); }
  }

  lemma {:induction false} PackedAfter(l: Layout, r: Record, r': Record, n: nat, end: nat)
    requires l.parts != [] && n <= |r.keys| <= |r'.keys| && Packed(l, r, n, end) && |r.offsets| == |r'.offsets|
    requires forall j :: 0 <= j < |r.keys| ==> r'.keys[j] == r.keys[j]
    requires forall key: nat :: key < |r.offsets| && r.Has(key) ==> r'.offsets[key] == r.offsets[key]
    ensures Packed(l, r', n, end)
  {
    if n > 0 { PackedAfter(l, r, r', n - 1, r.offsets[r.keys[n - 1]]); }
  }

  lemma {:induction false} SavedSame(l: Layout, r: Record, r': Record, k: nat)
    requires l.parts != [] && k <= |r.offsets| && r'.offsets == r.offsets
    ensures Saved(l, r', k) == Saved(l, r, k)
  {
    if k > 0 { SavedSame(l, r, r', k - 1); }
  }

  lemma FiledAfter(l: Layout, r: Record, key: nat, r': Record)
    requires Filed(l, r) && key < l.Keys() && !r.Has(key) && r.used + Size(l, key) <= |r'.bytes|
    requires r' == Entered(l, r, key).(bytes := r'.bytes)
    ensures Filed(l, r')
  {
    SavedAfter(l, r, key, l.Keys());
    SavedSame(l, Entered(l, r, key), r', l.Keys());
    PackedAfter(l, r, r', |r.keys|, r.used);
    forall k: nat | k < l.Keys() ensures r'.Has(k) <==> k in r'.keys {
      assert r'.keys[|r.keys|] == key;
      assert k in r'.keys <==> k in r.keys || k == key;
    }
  }

  /** Saved bytes below `used` survive a copy that is placed at `used`. */
  lemma SavedSurvive(l: Layout, r: Record, key: nat, pool: Image, other: nat)
    requires Filed(l, r) && key < l.Keys() && other < l.Keys() && !r.Has(key) && r.Has(other)
    requires RegionFits(RegionFor(l, r, key), |r.bytes|, |pool|)
    ensures 0 <= r.offsets[other] && r.offsets[other] + Size(l, other) <= r.used
    ensures SavedBytes(l, Touched(l, r, key, pool), other) == SavedBytes(l, r, other)
  {
    var j :| 0 <= j < |r.keys| && r.keys[j] == other;
    PackedSlice(l, r, |r.keys|, r.used, j);
    var a, b := SavedBytes(l, Touched(l, r, key, pool), other), SavedBytes(l, r, other);
    assert |a| == |b| && forall i :: 0 <= i < |a| ==> a[i] == b[i];
  }

  lemma NewlySaved(l: Layout, r: Record, key: nat, pool: Image)
    requires Filed(l, r) && key < l.Keys() && !r.Has(key) && RegionFits(RegionFor(l, r, key), |r.bytes|, |pool|)
    ensures SavedBytes(l, Touched(l, r, key, pool), key) == Range(l, key, pool)
  {
    var a, b := SavedBytes(l, Touched(l, r, key, pool), key), Range(l, key, pool);
    assert |a| == |b| && forall i :: 0 <= i < |a| ==> a[i] == b[i];
  }

  /** Touching a key keeps the record's promise: what it saves is what the pool held at its start. */
  lemma TouchKeeps(l: Layout, r: Record, key: nat, before: Image, pool: Image)
    requires Undoes(l, r, before, pool) && l.parts != [] && key < l.Keys() && key < |r.offsets|
    requires !r.Has(key) ==> RegionFits(RegionFor(l, r, key), |r.bytes|, |pool|)
    ensures Undoes(l, Touched(l, r, key, pool), before, pool)
  {
    Opened(l, r, before, pool);
    if !r.Has(key) {
      var r' := Touched(l, r, key, pool);
      FiledAfter(l, r, key, r');
      NewlySaved(l, r, key, pool);
      assert KeyUndoes(l, r, key, before, pool);
      forall k: nat | k < l.Keys() ensures KeyUndoes(l, r', k, before, pool) {
        assert KeyUndoes(l, r, k, before, pool);
        if r.Has(k) { SavedSurvive(l, r, key, pool, k); }
      }
    }
  }

  /** A larger arena with the same stored bytes in front. */
  lemma GrowKeeps(l: Layout, r: Record, before: Image, pool: Image, arena: Image)
    requires Undoes(l, r, before, pool) && r.used <= |r.bytes| <= |arena| && arena[..r.used] == r.bytes[..r.used]
    ensures Undoes(l, r.(bytes := arena), before, pool)
  {
    Opened(l, r, before, pool);
    var r' := r.(bytes := arena);
    SavedSame(l, r, r', l.Keys());
    PackedAfter(l, r, r', |r.keys|, r.used);
    forall k: nat | k < l.Keys() ensures KeyUndoes(l, r', k, before, pool) {
      assert KeyUndoes(l, r, k, before, pool);
      if r.Has(k) {
        var j :| 0 <= j < |r.keys| && r.keys[j] == k;
        PackedSlice(l, r, |r.keys|, r.used, j);
        SameInFront(r.bytes, arena, r.used, r.offsets[k], r.offsets[k] + Size(l, k));
      }
    }
  }

  lemma SameInFront(a: Image, b: Image, n: nat, from: nat, to: nat)
    requires from <= to <= n <= |a| && n <= |b| && a[..n] == b[..n]
    ensures a[from..to] == b[from..to]
  {
    assert a[from..to] == a[..n][from..to] && b[from..to] == b[..n][from..to];
  }

  // ---------------------------------------------------------------- planning many keys, copying once

  ghost predicate KeysOk(l: Layout, keys: seq<nat>) {
    forall i :: 0 <= i < |keys| ==> keys[i] < l.Keys()
  }

  datatype Planned = Planned(record: Record, plan: seq<CopyRegion>)

  function PlanKey(l: Layout, p: Planned, key: nat): (q: Planned)
    requires l.parts != [] && key < |p.record.offsets|
    ensures |q.record.offsets| == |p.record.offsets| && q.record.bytes == p.record.bytes
      && p.record.used <= q.record.used
  {
    if p.record.Has(key) then p else Planned(Entered(l, p.record, key), PlanCopy(p.plan, RegionFor(l, p.record, key)))
  }

  function PlanKeys(l: Layout, r: Record, keys: seq<nat>): (p: Planned)
    requires l.parts != [] && KeysOk(l, keys) && |r.offsets| == l.Keys()
    ensures |p.record.offsets| == l.Keys() && p.record.bytes == r.bytes && r.used <= p.record.used
  {
    if keys == [] then Planned(r, []) else PlanKey(l, PlanKeys(l, r, keys[..|keys| - 1]), keys[|keys| - 1])
  }

  /** The plan, executed on this arena, makes the record undo to `before`. */
  ghost predicate Delivers(l: Layout, p: Planned, before: Image, pool: Image, arena: Image) {
    PlanFits(p.plan, |arena|, |pool|) && Undoes(l, p.record.(bytes := Executed(arena, pool, p.plan)), before, pool)
  }

  lemma PlanKeyDelivers(l: Layout, p: Planned, key: nat, before: Image, pool: Image, arena: Image)
    requires Delivers(l, p, before, pool, arena) && l.parts != [] && key < l.Keys() && key < |p.record.offsets|
    requires PlanKey(l, p, key).record.used <= |arena|
    ensures Delivers(l, PlanKey(l, p, key), before, pool, arena)
  {
    if !p.record.Has(key) {
      var q := p.record.(bytes := Executed(arena, pool, p.plan));
      Opened(l, q, before, pool);
      RangeFits(l, key, l.Keys());
      PlannedCopy(arena, pool, p.plan, RegionFor(l, p.record, key));
      TouchKeeps(l, q, key, before, pool);
      assert Touched(l, q, key, pool) ==
        PlanKey(l, p, key).record.(bytes := Executed(arena, pool, PlanKey(l, p, key).plan));
    }
  }

  /** Planning all keys and then copying once gives the record that copies every key as it is touched. */
  lemma {:induction false} PlanKeeps(l: Layout, r: Record, keys: seq<nat>, before: Image, pool: Image, arena: Image)
    requires Undoes(l, r.(bytes := arena), before, pool) && l.parts != [] && |r.offsets| == l.Keys()
    requires KeysOk(l, keys) && PlanKeys(l, r, keys).record.used <= |arena|
    ensures Delivers(l, PlanKeys(l, r, keys), before, pool, arena)
  {
    if keys != [] {
      var front := keys[..|keys| - 1];
      PlanKeeps(l, r, front, before, pool, arena);
      PlanKeyDelivers(l, PlanKeys(l, r, front), keys[|keys| - 1], before, pool, arena);
    }
  }

  /** Afterwards exactly the old keys and the planned ones are saved. */
  lemma {:induction false} PlanHas(l: Layout, r: Record, keys: seq<nat>, key: nat)
    requires l.parts != [] && KeysOk(l, keys) && |r.offsets| == l.Keys() && key < l.Keys()
    ensures var p := PlanKeys(l, r, keys).record;
      p.first == r.first && p.last == r.last && (p.Has(key) <==> r.Has(key) || key in keys)
  {
    if keys != [] {
      PlanHas(l, r, keys[..|keys| - 1], key);
      assert keys == keys[..|keys| - 1] + [keys[|keys| - 1]];
    }
  }

  /** Each key is saved at most once, so a checkpoint never needs more room than the pool. */
  lemma {:induction false} PlanFitsPool(l: Layout, r: Record, keys: seq<nat>)
    requires l.parts != [] && KeysOk(l, keys) && |r.offsets| == l.Keys() && r.used == Saved(l, r, l.Keys())
    ensures PlanKeys(l, r, keys).record.used == Saved(l, PlanKeys(l, r, keys).record, l.Keys()) <= Start(l, l.Keys())
  {
    SavedFits(l, PlanKeys(l, r, keys).record, l.Keys());
    if keys != [] {
      var front := keys[..|keys| - 1];
      PlanFitsPool(l, r, front);
      var p := PlanKeys(l, r, front);
      if !p.record.Has(keys[|keys| - 1]) { SavedAfter(l, p.record, keys[|keys| - 1], l.Keys()); }
    }
  }

  /** The key of part `i` of an item: after all parts of the items before it. */
  function KeyOf(l: Layout, slot: nat, i: nat): nat {
    if slot == 0 then i else KeyOf(l, slot - 1, i) + |l.parts|
  }

  /** The keys of the parts below `i` of one item that a mask names. */
  function WantedParts(l: Layout, slot: nat, mask: set<nat>, i: nat): seq<nat>
    requires i <= |l.parts|
  {
    if i == 0 then []
    else WantedParts(l, slot, mask, i - 1) + if i - 1 in mask then [KeyOf(l, slot, i - 1)] else []
  }

  function WantedItems(l: Layout, masks: seq<set<nat>>, slot: nat): seq<nat>
    requires slot <= |masks|
  {
    if slot == 0 then [] else WantedItems(l, masks, slot - 1) + WantedParts(l, slot - 1, masks[slot - 1], |l.parts|)
  }

  lemma {:induction false} KeyIsPosition(l: Layout, slot: nat, i: nat)
    ensures KeyOf(l, slot, i) == slot * |l.parts| + i
  {
    if slot > 0 { KeyIsPosition(l, slot - 1, i); }
  }

  lemma ItemsFit(slot: nat, count: nat, parts: nat)
    requires slot < count
    ensures slot * parts + parts <= count * parts
  {
    assert (slot + 1) * parts <= count * parts;
  }

  lemma KeyBound(l: Layout, slot: nat, i: nat)
    requires slot < l.count && i < |l.parts|
    ensures KeyOf(l, slot, i) < l.Keys()
  {
    KeyIsPosition(l, slot, i);
    ItemsFit(slot, l.count, |l.parts|);
  }

  lemma {:induction false} KeysDistinct(l: Layout, slot: nat, i: nat, j: nat)
    ensures KeyOf(l, slot, i) == KeyOf(l, slot, j) <==> i == j
  {
    if slot > 0 { KeysDistinct(l, slot - 1, i, j); }
  }

  /** Exactly the parts in the mask are wanted. */
  lemma {:induction false} WantedExactly(l: Layout, slot: nat, mask: set<nat>, i: nat, part: nat)
    requires i <= |l.parts|
    ensures KeyOf(l, slot, part) in WantedParts(l, slot, mask, i) <==> part < i && part in mask
  {
    if i > 0 {
      WantedExactly(l, slot, mask, i - 1, part);
      KeysDistinct(l, slot, part, i - 1);
    }
  }

  lemma {:induction false} KeysAscend(l: Layout, slot: nat, later: nat, i: nat, j: nat)
    requires slot < later && i < |l.parts|
    ensures KeyOf(l, slot, i) < KeyOf(l, later, j)
    decreases later
  {
    if slot + 1 < later {
      KeysAscend(l, slot, later - 1, i, j);
    } else {
      KeyIsPosition(l, slot, i);
      KeyIsPosition(l, slot, j);
    }
  }

  /** A key wanted of an item is that of one of its own parts. */
  lemma {:induction false} WantedOwn(l: Layout, slot: nat, mask: set<nat>, i: nat, other: nat, part: nat)
    requires i <= |l.parts| && part < |l.parts| && other != slot
    ensures KeyOf(l, other, part) !in WantedParts(l, slot, mask, i)
  {
    if i > 0 {
      WantedOwn(l, slot, mask, i - 1, other, part);
      if other < slot { KeysAscend(l, other, slot, part, i - 1); } else { KeysAscend(l, slot, other, i - 1, part); }
    }
  }

  /** Of all the items exactly the parts in each one's own mask are wanted. */
  lemma {:induction false} AllWantedExactly(l: Layout, masks: seq<set<nat>>, n: nat, slot: nat, part: nat)
    requires n <= |masks| && slot < |masks| && part < |l.parts|
    ensures KeyOf(l, slot, part) in WantedItems(l, masks, n) <==> slot < n && part in masks[slot]
  {
    if n > 0 {
      AllWantedExactly(l, masks, n - 1, slot, part);
      if slot == n - 1 {
        WantedExactly(l, slot, masks[slot], |l.parts|, part);
      } else {
        WantedOwn(l, n - 1, masks[n - 1], |l.parts|, slot, part);
      }
    }
  }
}
