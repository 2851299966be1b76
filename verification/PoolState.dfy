/** Runs of pool checkpoints: what a chain of them remembers, and two ways of undoing it. */
module PoolState {
  import opened Folding
  import opened Memory
  import opened PoolRecord
  import Ring

  // ---------------------------------------------------------------- a chain of checkpoints

  /** `history[i]` is the pool when checkpoint `i` began, and its last entry the pool now. */
  ghost predicate Chain(l: Layout, rs: seq<Record>, history: seq<Image>) {
    && |history| == |rs| + 1
    && (forall i :: 0 <= i < |rs| ==> Undoes(l, rs[i], history[i], history[i + 1]) && rs[i].first <= rs[i].last)
    && (forall i :: 0 < i < |rs| ==> rs[i - 1].last < rs[i].first)
  }

  lemma FreshUndoes(l: Layout, r: Record, pool: Image)
    requires l.parts != [] && |pool| == Start(l, l.Keys()) && r.keys == [] && r.used == 0 && |r.offsets| == l.Keys()
    requires forall k :: 0 <= k < |r.offsets| ==> r.offsets[k] == MISSING
    ensures Undoes(l, r, pool, pool)
  {
    NothingSaved(l, r, l.Keys());
    forall k: nat | k < l.Keys() ensures KeyUndoes(l, r, k, pool, pool) { RangeFits(l, k, l.Keys()); }
  }

  lemma {:induction false} NothingSaved(l: Layout, r: Record, k: nat)
    requires l.parts != [] && k <= |r.offsets| && forall j :: 0 <= j < |r.offsets| ==> r.offsets[j] == MISSING
    ensures Saved(l, r, k) == 0
  {
    if k > 0 { NothingSaved(l, r, k - 1); }
  }

  lemma ChainBegins(l: Layout, rs: seq<Record>, history: seq<Image>, r: Record)
    requires Chain(l, rs, history) && Undoes(l, r, history[|rs|], history[|rs|]) && r.first <= r.last
    requires rs != [] ==> rs[|rs| - 1].last < r.first
    ensures Chain(l, rs + [r], history + [history[|rs|]])
  {}

  lemma ChainDrops(l: Layout, rs: seq<Record>, history: seq<Image>, k: nat)
    requires Chain(l, rs, history) && k <= |rs|
    ensures Chain(l, rs[k..], history[k..])
  {}

  lemma ChainTakes(l: Layout, rs: seq<Record>, history: seq<Image>, k: nat)
    requires Chain(l, rs, history) && k <= |rs|
    ensures Chain(l, rs[..k], history[..k + 1])
  {}

  lemma ChainSetLast(l: Layout, rs: seq<Record>, history: seq<Image>, r: Record, now: Image)
    requires Chain(l, rs, history) && rs != [] && Undoes(l, r, history[|rs| - 1], now)
    requires r.first == rs[|rs| - 1].first && rs[|rs| - 1].last <= r.last
    ensures Chain(l, rs[..|rs| - 1] + [r], history[..|rs|] + [now])
  {}

  lemma RangeBeside(l: Layout, key: nat, now: Image, now': Image, a: nat)
    requires l.parts != [] && |now| == |now'| && Start(l, key) + Size(l, key) <= |now|
    requires a < Start(l, key) || Start(l, key) + Size(l, key) <= a
    requires forall i :: 0 <= i < |now| && i != a ==> now[i] == now'[i]
    ensures Range(l, key, now) == Range(l, key, now')
  {}

  /** The program's own write, to a part that the newest checkpoint has saved. */
  lemma WriteUndoes(l: Layout, r: Record, before: Image, now: Image, key: nat, a: nat, now': Image)
    requires Undoes(l, r, before, now) && l.parts != [] && key < l.Keys() && key < |r.offsets| && r.Has(key)
    requires Start(l, key) <= a < Start(l, key) + Size(l, key) && |now'| == |now|
    requires forall i :: 0 <= i < |now| && i != a ==> now[i] == now'[i]
    ensures Undoes(l, r, before, now')
  {
    Opened(l, r, before, now);
    forall k: nat | k < l.Keys() ensures KeyUndoes(l, r, k, before, now') {
      assert KeyUndoes(l, r, k, before, now);
      RangeFits(l, k, l.Keys());
      if k < key { StartsAscend(l, k, key); }
      if key < k { StartsAscend(l, key, k); }
      if k != key { RangeBeside(l, k, now, now', a); }
    }
  }

  lemma ExtendUndoes(l: Layout, r: Record, before: Image, now: Image, frame: nat)
    requires Undoes(l, r, before, now)
    ensures Undoes(l, r.(last := frame), before, now)
  {
    Opened(l, r, before, now);
    var r' := r.(last := frame);
    SavedSame(l, r, r', l.Keys());
    PackedAfter(l, r, r', |r.keys|, r.used);
    forall k: nat | k < l.Keys() ensures KeyUndoes(l, r', k, before, now) { assert KeyUndoes(l, r, k, before, now); }
  }

  // ---------------------------------------------------------------- restoring one checkpoint

  function UndoRegion(l: Layout, r: Record, key: nat): CopyRegion
    requires l.parts != [] && key < |r.offsets|
  {
    CopyRegion(if r.offsets[key] < 0 then 0 else r.offsets[key], Start(l, key), Size(l, key))
  }

  ghost predicate Restorable(l: Layout, r: Record, pool: nat) {
    && l.parts != [] && |r.offsets| == l.Keys() && Start(l, l.Keys()) == pool
    && forall j :: 0 <= j < |r.keys| ==>
         r.keys[j] < l.Keys() && RegionFits(UndoRegion(l, r, r.keys[j]), pool, |r.bytes|)
  }

  lemma UndoesRestorable(l: Layout, r: Record, before: Image, now: Image)
    requires Undoes(l, r, before, now)
    ensures Restorable(l, r, |now|)
  {
    Opened(l, r, before, now);
    forall j | 0 <= j < |r.keys|
      ensures r.keys[j] < l.Keys() && RegionFits(UndoRegion(l, r, r.keys[j]), |now|, |r.bytes|)
    {
      PackedSlice(l, r, |r.keys|, r.used, j);
      RangeFits(l, r.keys[j], l.Keys());
    }
  }

  /** The first `n` keys of the checkpoint put back, except those already covered. */
  function Restored(l: Layout, pool: Image, r: Record, covered: seq<bool>, n: nat): (p: Image)
    requires n <= |r.keys| && |covered| == l.Keys() && Restorable(l, r, |pool|)
    ensures |p| == |pool|
  {
    if n == 0 then pool else
      var p := Restored(l, pool, r, covered, n - 1);
      if covered[r.keys[n - 1]] then p else Copied(p, r.bytes, UndoRegion(l, r, r.keys[n - 1]))
  }

  function UndoPlan(l: Layout, r: Record, covered: seq<bool>, n: nat): seq<CopyRegion>
    requires l.parts != [] && n <= |r.keys| && |covered| == |r.offsets|
  {
    if n == 0 then [] else
      var plan := UndoPlan(l, r, covered, n - 1);
      if r.keys[n - 1] >= |covered| || covered[r.keys[n - 1]] then plan
      else PlanCopy(plan, UndoRegion(l, r, r.keys[n - 1]))
  }

  lemma {:induction false} UndoPlanRestores(l: Layout, pool: Image, r: Record, covered: seq<bool>, n: nat)
    requires n <= |r.keys| && |covered| == l.Keys() && Restorable(l, r, |pool|)
    ensures PlanFits(UndoPlan(l, r, covered, n), |pool|, |r.bytes|)
    ensures Executed(pool, r.bytes, UndoPlan(l, r, covered, n)) == Restored(l, pool, r, covered, n)
  {
    if n > 0 {
      UndoPlanRestores(l, pool, r, covered, n - 1);
      PlannedCopy(pool, r.bytes, UndoPlan(l, r, covered, n - 1), UndoRegion(l, r, r.keys[n - 1]));
    }
  }

  lemma SplicedElsewhere(bytes: Image, at: nat, source: Image, from: nat, to: nat)
    requires at + |source| <= |bytes| && from <= to <= |bytes| && (to <= at || at + |source| <= from)
    ensures Splice(bytes, at, source)[from..to] == bytes[from..to]
  {
    forall i | from <= i < to ensures Splice(bytes, at, source)[i] == bytes[i] {}
  }

  lemma SplicedHere(bytes: Image, at: nat, source: Image, to: nat)
    requires at + |source| == to <= |bytes|
    ensures Splice(bytes, at, source)[at..to] == source
  {}

  lemma CopiedElsewhere(pool: Image, source: Image, region: CopyRegion, at: nat, size: nat)
    requires RegionFits(region, |pool|, |source|) && at + size <= |pool|
      && (at + size <= region.to || region.to + region.bytes <= at)
    ensures Slice(Copied(pool, source, region), at, size) == Slice(pool, at, size)
  {
    SplicedElsewhere(pool, region.to, source[region.from..region.from + region.bytes], at, at + size);
  }

  lemma CopiedHere(pool: Image, source: Image, region: CopyRegion)
    requires RegionFits(region, |pool|, |source|)
    ensures Slice(Copied(pool, source, region), region.to, region.bytes) ==
      source[region.from..region.from + region.bytes]
  {
    SplicedHere(pool, region.to, source[region.from..region.from + region.bytes], region.to + region.bytes);
  }

  lemma CopiedOwnRange(l: Layout, pool: Image, r: Record, key: nat)
    requires l.parts != [] && key < |r.offsets| && 0 <= r.offsets[key]
      && RegionFits(UndoRegion(l, r, key), |pool|, |r.bytes|)
    ensures Range(l, key, Copied(pool, r.bytes, UndoRegion(l, r, key))) == SavedBytes(l, r, key)
  {
    CopiedHere(pool, r.bytes, UndoRegion(l, r, key));
  }

  lemma KeysApart(l: Layout, j: nat, k: nat)
    requires l.parts != [] && j != k
    ensures Start(l, j) + Size(l, j) <= Start(l, k) || Start(l, k) + Size(l, k) <= Start(l, j)
  {
    if j < k { StartsAscend(l, j, k); } else { StartsAscend(l, k, j); }
  }

  lemma CopiedOtherRange(l: Layout, pool: Image, source: Image, region: CopyRegion, key: nat)
    requires l.parts != [] && RegionFits(region, |pool|, |source|) && Start(l, key) + Size(l, key) <= |pool|
    requires Start(l, key) + Size(l, key) <= region.to || region.to + region.bytes <= Start(l, key)
    ensures Range(l, key, Copied(pool, source, region)) == Range(l, key, pool)
  {
    CopiedElsewhere(pool, source, region, Start(l, key), Size(l, key));
  }

  /** What one key holds after a restore. */
  ghost predicate Holds(l: Layout, r: Record, covered: bool, restored: bool, key: nat, pool: Image, result: Image)
    requires l.parts != [] && key < |r.offsets|
  {
    if restored && !covered then Fits(l, r, key, |result|) && Range(l, key, result) == SavedBytes(l, r, key)
    else SameRange(l, key, result, pool)
  }

  lemma HoldsStep(l: Layout, r: Record, covered: seq<bool>, restored: bool, key: nat, last: nat, pool: Image, p: Image,
      q: Image)
    requires l.parts != [] && key < |r.offsets| == |covered| && last < |r.offsets| && 0 <= r.offsets[last]
    requires Holds(l, r, covered[key], restored, key, pool, p) && Start(l, key) + Size(l, key) <= |p| == |pool|
    requires RegionFits(UndoRegion(l, r, last), |p|, |r.bytes|)
    requires q == if covered[last] then p else Copied(p, r.bytes, UndoRegion(l, r, last))
    ensures Holds(l, r, covered[key], restored || key == last, key, pool, q)
  {
    if !covered[last] {
      if key == last { CopiedOwnRange(l, p, r, key); } else {
        KeysApart(l, last, key);
        CopiedOtherRange(l, p, r.bytes, UndoRegion(l, r, last), key);
      }
    }
  }

  lemma {:induction false} RestoredRange(l: Layout, pool: Image, r: Record, covered: seq<bool>, n: nat, key: nat)
    requires Filed(l, r) && n <= |r.keys| && |covered| == l.Keys() && Restorable(l, r, |pool|) && key < l.Keys()
    ensures Holds(l, r, covered[key], key in r.keys[..n], key, pool, Restored(l, pool, r, covered, n))
  {
    RangeFits(l, key, l.Keys());
    if n > 0 {
      RestoredRange(l, pool, r, covered, n - 1, key);
      var last := r.keys[n - 1];
      assert r.keys[..n] == r.keys[..n - 1] + [last];
      PackedSlice(l, r, |r.keys|, r.used, n - 1);
      HoldsStep(l, r, covered, key in r.keys[..n - 1], key, last, pool,
                Restored(l, pool, r, covered, n - 1), Restored(l, pool, r, covered, n));
    }
  }

  // ---------------------------------------------------------------- oldest first, with coverage

  /** Checkpoints `t` to `i - 1` have been restored, oldest first: a covered key is as it was when
      checkpoint `t` began, and any other is untouched so far and did not change before checkpoint `i`. */
  ghost predicate CoverOk(l: Layout, history: seq<Image>, t: nat, i: nat, covered: bool, key: nat, pool: Image)
    requires l.parts != [] && t <= i < |history|
  {
    if covered then SameRange(l, key, pool, history[t])
    else SameRange(l, key, pool, history[|history| - 1]) && SameRange(l, key, history[t], history[i])
  }

  ghost predicate OldestFirst(l: Layout, history: seq<Image>, t: nat, i: nat, covered: seq<bool>, pool: Image) {
    && l.parts != [] && t <= i < |history| && |covered| == l.Keys() && |pool| == Start(l, l.Keys())
    && forall u: int :: Folded(AgeMark, u) ==>
         forall key: nat :: key < l.Keys() ==> CoverOk(l, history, t, i, covered[key], key, pool)
  }

  lemma OldestFirstStarts(l: Layout, rs: seq<Record>, history: seq<Image>, t: nat, covered: seq<bool>)
    requires Chain(l, rs, history) && t < |rs| && l.parts != [] && |covered| == l.Keys()
    requires forall k :: 0 <= k < |covered| ==> !covered[k]
    ensures OldestFirst(l, history, t, t, covered, history[|rs|])
  {
    Opened(l, rs[|rs| - 1], history[|rs| - 1], history[|rs|]);
    Opened(l, rs[t], history[t], history[t + 1]);
    forall key: nat | key < l.Keys() ensures CoverOk(l, history, t, t, covered[key], key, history[|rs|]) {
      RangeFits(l, key, l.Keys());
    }
  }

  predicate Covers(r: Record, covered: seq<bool>, covered': seq<bool>)
    requires |covered| == |covered'| == |r.offsets|
  {
    forall k: nat :: k < |covered| ==> covered'[k] == (covered[k] || r.Has(k))
  }

  lemma OldestFirstStep(l: Layout, rs: seq<Record>, history: seq<Image>, t: nat, i: nat, covered: seq<bool>,
      covered': seq<bool>, pool: Image)
    requires Chain(l, rs, history) && t <= i < |rs| && OldestFirst(l, history, t, i, covered, pool)
    requires Restorable(l, rs[i], |pool|) && |covered'| == |covered| && Covers(rs[i], covered, covered')
    ensures OldestFirst(l, history, t, i + 1, covered', Restored(l, pool, rs[i], covered, |rs[i].keys|))
  {
    var r := rs[i];
    assert Folded(AgeMark, 0);
    Opened(l, r, history[i], history[i + 1]);
    assert r.keys[..|r.keys|] == r.keys;
    forall key: nat | key < l.Keys()
      ensures CoverOk(l, history, t, i + 1, covered'[key], key, Restored(l, pool, r, covered, |r.keys|))
    {
      assert CoverOk(l, history, t, i, covered[key], key, pool) && KeyUndoes(l, r, key, history[i], history[i + 1]);
      RestoredRange(l, pool, r, covered, |r.keys|, key);
    }
  }

  lemma OldestFirstEnds(l: Layout, rs: seq<Record>, history: seq<Image>, t: nat, covered: seq<bool>, pool: Image)
    requires Chain(l, rs, history) && t < |rs| && OldestFirst(l, history, t, |rs|, covered, pool)
    ensures pool == history[t]
  {
    Opened(l, rs[t], history[t], history[t + 1]);
    assert Folded(AgeMark, 0);
    forall key: nat | key < l.Keys() ensures SameRange(l, key, pool, history[t]) {
      assert CoverOk(l, history, t, |rs|, covered[key], key, pool);
    }
    SamePools(l, pool, history[t]);
  }

  // ---------------------------------------------------------------- newest first

  function Uncovered(l: Layout): (c: seq<bool>)
    ensures |c| == l.Keys() && forall k :: 0 <= k < |c| ==> !c[k]
  {
    seq(l.Keys(), _ => false)
  }

  ghost predicate AllRestorable(l: Layout, rs: seq<Record>, pool: nat) {
    forall i :: 0 <= i < |rs| ==> Restorable(l, rs[i], pool)
  }

  /** The plain way: every checkpoint from the newest down to `t`, each one whole. */
  function NewestFirst(l: Layout, rs: seq<Record>, t: nat, pool: Image): Image
    requires t <= |rs| && AllRestorable(l, rs, |pool|)
  {
    if |rs| == t then pool else
      var r := rs[|rs| - 1];
      NewestFirst(l, rs[..|rs| - 1], t, Restored(l, pool, r, Uncovered(l), |r.keys|))
  }

  lemma RestoredUndoes(l: Layout, r: Record, before: Image, now: Image)
    requires Undoes(l, r, before, now) && Restorable(l, r, |now|)
    ensures Restored(l, now, r, Uncovered(l), |r.keys|) == before
  {
    Opened(l, r, before, now);
    assert r.keys[..|r.keys|] == r.keys;
    var restored := Restored(l, now, r, Uncovered(l), |r.keys|);
    forall key: nat | key < l.Keys() ensures SameRange(l, key, restored, before) {
      assert KeyUndoes(l, r, key, before, now);
      RestoredRange(l, now, r, Uncovered(l), |r.keys|, key);
    }
    SamePools(l, restored, before);
  }

  lemma ChainRestorable(l: Layout, rs: seq<Record>, history: seq<Image>)
    requires Chain(l, rs, history)
    ensures AllRestorable(l, rs, |history[|rs|]|)
    ensures forall i :: 0 <= i < |rs| ==> |history[i]| == |history[|rs|]|
  {
    if rs != [] { Opened(l, rs[|rs| - 1], history[|rs| - 1], history[|rs|]); }
    forall i | 0 <= i < |rs| ensures Restorable(l, rs[i], |history[|rs|]|) && |history[i]| == |history[|rs|]| {
      Opened(l, rs[i], history[i], history[i + 1]);
      UndoesRestorable(l, rs[i], history[i], history[i + 1]);
    }
  }

  /** Restoring newest first also gives the pool as it was when checkpoint `t` began. */
  lemma {:induction false} NewestFirstUndoes(l: Layout, rs: seq<Record>, history: seq<Image>, t: nat)
    requires Chain(l, rs, history) && t <= |rs| && AllRestorable(l, rs, |history[|rs|]|)
    ensures NewestFirst(l, rs, t, history[|rs|]) == history[t]
    decreases |rs|
  {
    if t < |rs| {
      var n := |rs| - 1;
      ChainRestorable(l, rs, history);
      RestoredUndoes(l, rs[n], history[n], history[n + 1]);
      ChainTakes(l, rs, history, n);
      ChainRestorable(l, rs[..n], history[..n + 1]);
      NewestFirstUndoes(l, rs[..n], history[..n + 1], t);
    }
  }

  function KeysSize(l: Layout, keys: seq<nat>, n: nat): nat
    requires l.parts != [] && n <= |keys|
  {
    if n == 0 then 0 else KeysSize(l, keys, n - 1) + Size(l, keys[n - 1])
  }

  lemma {:induction false} PackedSize(l: Layout, r: Record, n: nat, end: nat)
    requires l.parts != [] && n <= |r.keys| && Packed(l, r, n, end)
    ensures KeysSize(l, r.keys, n) == end
  {
    if n > 0 { PackedSize(l, r, n - 1, r.offsets[r.keys[n - 1]]); }
  }

  /** No key is listed twice. */
  lemma {:induction false} KeysDiffer(l: Layout, r: Record, n: nat, end: nat, i: nat, j: nat)
    requires l.Exhaustive() && i < j < n <= |r.keys| && Packed(l, r, n, end)
    ensures r.keys[i] != r.keys[j]
  {
    if j == n - 1 { PackedSlice(l, r, n - 1, r.offsets[r.keys[n - 1]], i); assert Size(l, r.keys[i]) > 0; }
    else { KeysDiffer(l, r, n - 1, r.offsets[r.keys[n - 1]], i, j); }
  }
}
