/** The array and object operations of the ECMAScript standard library that
    the sources rely on: `Array.prototype.filter`, `find` and `findIndex`,
    and plain objects used as string-keyed records (`obj[k]`, `obj[k] = v`,
    `{ ...a, ...b }`, `Object.entries`). */
module JsCollections {
  import opened JsValues

  // ---------------------------------------------------------------------------
  // Arrays

  /** `s.filter(keep)`. */
  function Filter<T>(s: seq<T>, keep: T -> bool): (r: seq<T>)
    ensures |r| <= |s|
    ensures forall i :: 0 <= i < |r| ==> keep(r[i]) && r[i] in s
    ensures forall i :: 0 <= i < |s| && keep(s[i]) ==> s[i] in r
  {
    if s == [] then []
    else (if keep(s[0]) then [s[0]] else []) + Filter(s[1..], keep)
  }

  /** Filtering keeps the relative order: it distributes over concatenation. */
  lemma {:induction false} FilterConcat<T>(a: seq<T>, b: seq<T>, keep: T -> bool)
    ensures Filter(a + b, keep) == Filter(a, keep) + Filter(b, keep)
  {
    if a == [] {
      assert a + b == b;
    } else {
      assert (a + b)[1..] == a[1..] + b;
      FilterConcat(a[1..], b, keep);
    }
  }

  /** Filtering an array whose elements all pass returns it unchanged. */
  lemma {:induction false} FilterAllKept<T>(s: seq<T>, keep: T -> bool)
    requires forall i :: 0 <= i < |s| ==> keep(s[i])
    ensures Filter(s, keep) == s
  {
    if s != [] {
      FilterAllKept(s[1..], keep);
    }
  }

  /** Filtering twice with the same predicate is filtering once. */
  lemma FilterIdempotent<T>(s: seq<T>, keep: T -> bool)
    ensures Filter(Filter(s, keep), keep) == Filter(s, keep)
  {
    var r := Filter(s, keep);
    FilterAllKept(r, keep);
  }

  /** `s.findIndex(p)`: the first index whose element passes, or -1. */
  function FindIndex<T>(s: seq<T>, p: T -> bool): (r: int)
    ensures -1 <= r < |s|
    ensures r == -1 <==> forall i :: 0 <= i < |s| ==> !p(s[i])
    ensures r != -1 ==> p(s[r]) && forall i :: 0 <= i < r ==> !p(s[i])
  {
    if s == [] then -1
    else if p(s[0]) then 0
    else
      var j := FindIndex(s[1..], p);
      if j == -1 then -1 else j + 1
  }

  /** `s.find(p)`: the first element that passes, if any. */
  function Find<T>(s: seq<T>, p: T -> bool): (r: Option<T>)
    ensures r.None? <==> forall i :: 0 <= i < |s| ==> !p(s[i])
    ensures r.Some? ==> exists i :: 0 <= i < |s| && s[i] == r.value && p(s[i]) && FindIndex(s, p) == i
  {
    var i := FindIndex(s, p);
    if i == -1 then None else Some(s[i])
  }

  /** `findIndex` only looks at what the predicate says of each element. */
  lemma {:induction false} FindIndexCongruent<T, U>(s: seq<T>, p: T -> bool, t: seq<U>, q: U -> bool)
    requires |s| == |t|
    requires forall i :: 0 <= i < |s| ==> p(s[i]) == q(t[i])
    ensures FindIndex(s, p) == FindIndex(t, q)
  {
    if s != [] {
      FindIndexCongruent(s[1..], p, t[1..], q);
    }
  }

  /** `findIndex` on an array with one more element at the end. */
  lemma FindIndexAppend<T>(s: seq<T>, x: T, p: T -> bool)
    ensures FindIndex(s + [x], p) ==
      if FindIndex(s, p) != -1 then FindIndex(s, p) else if p(x) then |s| else -1
  {
    assert (s + [x])[|s|] == x;
    assert forall i :: 0 <= i < |s| ==> (s + [x])[i] == s[i];
  }

  // ---------------------------------------------------------------------------
  // Plain objects

  /** A plain object: its own string keys with their values, in the order in
      which `Object.entries` lists them (insertion order). */
  type Record<V> = seq<(string, V)>

  /** A record whose keys are pairwise distinct, as every JavaScript object's are. */
  predicate IsObject<V>(r: Record<V>) {
    forall i, j :: 0 <= i < j < |r| ==> r[i].0 != r[j].0
  }

  function HasKey<V>(k: string): ((string, V)) -> bool {
    (e: (string, V)) => e.0 == k
  }

  /** Where `k` sits in the record, or -1. */
  function IndexOf<V>(r: Record<V>, k: string): (i: int)
    ensures -1 <= i < |r|
    ensures i == -1 <==> forall j :: 0 <= j < |r| ==> r[j].0 != k
    ensures i != -1 ==> r[i].0 == k
    ensures IsObject(r) ==> forall j :: 0 <= j < |r| && r[j].0 == k ==> j == i
  {
    FindIndex(r, HasKey(k))
  }

  /** `r[k]`, with `undefined` as `None`. */
  function Get<V>(r: Record<V>, k: string): (v: Option<V>)
    ensures v.None? <==> forall j :: 0 <= j < |r| ==> r[j].0 != k
  {
    var i := IndexOf(r, k);
    if i == -1 then None else Some(r[i].1)
  }

  /** `r[k] = v` on a copy: overwrites the value in place when `k` is
      already a key, and appends a new last entry otherwise. */
  function Put<V>(r: Record<V>, k: string, v: V): (r': Record<V>)
    ensures |r'| == |r| || r' == r + [(k, v)]
  {
    var i := IndexOf(r, k);
    if i == -1 then r + [(k, v)] else r[i := (k, v)]
  }

  /** After `r[k] = v`, reading `k` gives `v`, every other key reads as
      before, no key moves, and an object stays an object. */
  lemma PutProperties<V>(r: Record<V>, k: string, v: V, k': string)
    ensures Get(Put(r, k, v), k) == Some(v)
    ensures k' != k ==> Get(Put(r, k, v), k') == Get(r, k')
    ensures forall j :: 0 <= j < |r| ==> Put(r, k, v)[j].0 == r[j].0
    ensures forall j :: 0 <= j < |Put(r, k, v)| ==>
      Put(r, k, v)[j] == (k, v) || (j < |r| && Put(r, k, v)[j] == r[j])
    ensures IsObject(r) ==> IsObject(Put(r, k, v))
  {
    PutGet(r, k, v, k);
    PutGet(r, k, v, k');
    PutShape(r, k, v);
  }

  lemma PutGet<V>(r: Record<V>, k: string, v: V, k': string)
    ensures Get(Put(r, k, v), k') == if k' == k then Some(v) else Get(r, k')
  {
    var i := IndexOf(r, k);
    if i == -1 {
      FindIndexAppend(r, (k, v), HasKey(k'));
    } else {
      PutInPlaceGet(r, i, k, v, k');
    }
  }

  lemma PutInPlaceGet<V>(r: Record<V>, i: nat, k: string, v: V, k': string)
    requires i < |r| && r[i].0 == k
    ensures Get(r[i := (k, v)], k') == if k' == k && IndexOf(r, k') == i then Some(v) else Get(r, k')
  {
    var r' := r[i := (k, v)];
    assert forall j :: 0 <= j < |r| ==> r'[j].0 == r[j].0;
    FindIndexCongruent(r', HasKey(k'), r, HasKey(k'));
    assert IndexOf(r', k') == IndexOf(r, k');
  }

  lemma PutShape<V>(r: Record<V>, k: string, v: V)
    ensures forall j :: 0 <= j < |r| ==> Put(r, k, v)[j].0 == r[j].0
    ensures forall j :: 0 <= j < |Put(r, k, v)| ==>
      Put(r, k, v)[j] == (k, v) || (j < |r| && Put(r, k, v)[j] == r[j])
    ensures IsObject(r) ==> IsObject(Put(r, k, v))
  {
  }

  /** Reading a record that has one more entry at the end. */
  lemma GetAppend<V>(r: Record<V>, k: string, v: V, k': string)
    ensures Get(r + [(k, v)], k') ==
      if Get(r, k').Some? then Get(r, k') else if k == k' then Some(v) else None
  {
    FindIndexAppend(r, (k, v), HasKey(k'));
  }

  /** Assigns every entry of `s` into `r`, in order (what a spread does). */
  function PutAll<V>(r: Record<V>, s: Record<V>): Record<V>
    decreases |s|
  {
    if s == [] then r else PutAll(Put(r, s[0].0, s[0].1), s[1..])
  }

  /** `{ ...a, ...b }`. */
  function Spread<V>(a: Record<V>, b: Record<V>): Record<V> {
    PutAll(PutAll([], a), b)
  }

  /** A later entry of an object is never shadowed by an earlier one. */
  lemma {:induction false} PutAllGet<V>(r: Record<V>, s: Record<V>, k: string)
    requires IsObject(s)
    ensures Get(PutAll(r, s), k) == if Get(s, k).Some? then Get(s, k) else Get(r, k)
    ensures IsObject(r) ==> IsObject(PutAll(r, s))
    decreases |s|
  {
    if s != [] {
      var r1 := Put(r, s[0].0, s[0].1);
      PutProperties(r, s[0].0, s[0].1, k);
      assert IsObject(s[1..]);
      FindIndexCongruent(s[1..], HasKey(k), s[1..], HasKey(k));
      if s[0].0 != k {
        assert Get(s, k) == Get(s[1..], k) by {
          var j := IndexOf(s[1..], k);
          assert j != -1 ==> IndexOf(s, k) == j + 1;
        }
      } else {
        assert Get(s[1..], k).None?;
      }
      PutAllGet(r1, s[1..], k);
    }
  }

  /** The keys of `r` keep their positions in `PutAll(r, s)`. */
  lemma {:induction false} PutAllKeepsPositions<V>(r: Record<V>, s: Record<V>)
    ensures |r| <= |PutAll(r, s)|
    ensures forall i :: 0 <= i < |r| ==> PutAll(r, s)[i].0 == r[i].0
    decreases |s|
  {
    if s != [] {
      PutProperties(r, s[0].0, s[0].1, s[0].0);
      PutAllKeepsPositions(Put(r, s[0].0, s[0].1), s[1..]);
    }
  }

  /** Spreading an object into the empty object copies it. */
  lemma PutAllIntoEmpty<V>(s: Record<V>)
    requires IsObject(s)
    ensures PutAll([], s) == s
  {
    PutAllFromPrefix(s, 0);
  }

  lemma {:induction false} PutAllFromPrefix<V>(s: Record<V>, i: nat)
    requires IsObject(s) && i <= |s|
    ensures PutAll(s[..i], s[i..]) == s
    decreases |s| - i
  {
    if i < |s| {
      assert IndexOf(s[..i], s[i].0) == -1;
      assert Put(s[..i], s[i].0, s[i].1) == s[..i + 1];
      assert s[i..][1..] == s[i + 1..];
      PutAllFromPrefix(s, i + 1);
    } else {
      assert s[..i] == s;
    }
  }

  /** `{ ...a, ...b }` of two objects: `b` wins whole-entry on a shared key,
      `a`'s keys keep their order at the front, and the result is an object. */
  lemma SpreadProperties<V>(a: Record<V>, b: Record<V>, k: string)
    requires IsObject(a) && IsObject(b)
    ensures Get(Spread(a, b), k) == if Get(b, k).Some? then Get(b, k) else Get(a, k)
    ensures IsObject(Spread(a, b))
    ensures |a| <= |Spread(a, b)| && forall i :: 0 <= i < |a| ==> Spread(a, b)[i].0 == a[i].0
  {
    PutAllIntoEmpty(a);
    PutAllGet(a, b, k);
    PutAllKeepsPositions(a, b);
  }
}
