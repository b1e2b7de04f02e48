/** `_RingStorage` of include/Util/RingBuffer.h: the bounded tail of what was written since the last key frame. */
module RingStorage {
  const RING_MIN_SIZE := 32

  /** A frame as it is cached: `pair<bool, T>`. */
  datatype Entry<T> = Entry(isKey: bool, data: T)

  /** `_RingStorage::write` on the cache. */
  function Put<T>(cache: seq<Entry<T>>, max: nat, e: Entry<T>): seq<Entry<T>> {
    var c := (if e.isKey then [] else cache) + [e];
    if |c| > max then c[1..] else c
  }

  function PutAll<T>(cache: seq<Entry<T>>, max: nat, es: seq<Entry<T>>): seq<Entry<T>>
    decreases |es|
  {
    if es == [] then cache else Put(PutAll(cache, max, es[..|es| - 1]), max, es[|es| - 1])
  }

  class Storage<T> {
    var dataCache: seq<Entry<T>>
    var size: int
    const maxSize: int

    ghost predicate Valid()
      reads this
    {
      size == |dataCache| && RING_MIN_SIZE <= maxSize && size <= maxSize
    }

    constructor (max: int)
      ensures Valid() && dataCache == [] && maxSize == if max < 32 then 32 else max
    {
      maxSize := if max < RING_MIN_SIZE then RING_MIN_SIZE else max;
      dataCache, size := [], 0;
    }

    constructor Copy(cache: seq<Entry<T>>, max: int)
      requires |cache| <= max && RING_MIN_SIZE <= max
      ensures Valid() && dataCache == cache && maxSize == max
    {
      maxSize := max;
      dataCache, size := cache, |cache|;
    }

    method Write(data: T, isKey: bool)
      requires Valid()
      modifies this
      ensures Valid() && dataCache == Put(old(dataCache), maxSize, Entry(isKey, data))
    {
      if isKey {
        dataCache := [];
        size := 0;
      }
      dataCache := dataCache + [Entry(isKey, data)];
      size := size + 1;
      if size > maxSize {
        dataCache := dataCache[1..];
        size := size - 1;
      }
    }

    method Clone() returns (other: Storage<T>)
      requires Valid()
      ensures fresh(other) && other.Valid() && other.dataCache == dataCache && other.maxSize == maxSize
    {
      other := new Storage<T>.Copy(dataCache, maxSize);
    }
  }

  // What the cache is, in terms of everything written.

  /** The frames from the last key frame on, or all of them when there is none. */
  function SinceKey<T>(h: seq<Entry<T>>): seq<Entry<T>>
    decreases |h|
  {
    if h == [] then []
    else if h[|h| - 1].isKey then [h[|h| - 1]]
    else SinceKey(h[..|h| - 1]) + [h[|h| - 1]]
  }

  function Last<T>(s: seq<Entry<T>>, n: nat): seq<Entry<T>> {
    if |s| <= n then s else s[|s| - n..]
  }

  /** The cache after any writes is the bounded tail since the last key frame. */
  lemma {:induction false} CacheIsTail<T>(h: seq<Entry<T>>, max: nat)
    requires max > 0
    ensures PutAll([], max, h) == Last(SinceKey(h), max)
    decreases |h|
  {
    if h != [] {
      CacheIsTail(h[..|h| - 1], max);
    }
  }

  lemma {:induction false} SinceKeyIsSuffix<T>(h: seq<Entry<T>>)
    ensures |SinceKey(h)| <= |h| && SinceKey(h) == h[|h| - |SinceKey(h)|..]
    decreases |h|
  {
    if h != [] && !h[|h| - 1].isKey {
      SinceKeyIsSuffix(h[..|h| - 1]);
    }
  }

  /** The cache is a contiguous end of the history, at most `max` long. */
  lemma CacheEndsHistory<T>(h: seq<Entry<T>>, max: nat)
    requires max > 0
    ensures var c := PutAll([], max, h);
      |c| <= max && |c| <= |h| && c == h[|h| - |c|..]
  {
    CacheIsTail(h, max);
    SinceKeyIsSuffix(h);
  }

  /** The first frame of the last run since a key frame is that key frame, and no other is a key frame. */
  lemma {:induction false} SinceKeyStarts<T>(h: seq<Entry<T>>)
    ensures forall i :: 0 < i < |SinceKey(h)| ==> !SinceKey(h)[i].isKey
    ensures SinceKey(h) != [] ==> SinceKey(h)[0].isKey || |SinceKey(h)| == |h|
    decreases |h|
  {
    if h != [] && !h[|h| - 1].isKey {
      SinceKeyStarts(h[..|h| - 1]);
    }
  }

  lemma {:induction false} PutAllAppend<T>(cache: seq<Entry<T>>, max: nat, a: seq<Entry<T>>, b: seq<Entry<T>>)
    ensures PutAll(cache, max, a + b) == PutAll(PutAll(cache, max, a), max, b)
    decreases |b|
  {
    if b == [] {
      assert a + b == a;
    } else {
      assert (a + b)[..|a + b| - 1] == a + b[..|b| - 1];
      PutAllAppend(cache, max, a, b[..|b| - 1]);
    }
  }
}
