/** The BLOCKHASH lookup: a closure that walks parent links from a reference header and keeps every hash
    it has seen. */
module BlockHash {
  import opened Common
  import opened HeaderStore
  import opened HeaderChain

  /** What an uncached walk from the reference header answers for height n. */
  function UncachedHash(hs: Store, ref: Header, n: nat): Hash {
    if ref.number <= n then ZERO_HASH
    else match WalkHash(hs, ref.parent, ref.number - 1, ref.number - 1 - n)
      case None => ZERO_HASH
      case Some(h) => h
  }

  /** The walk from the reference header reaches height n exactly if the header above it is there. */
  lemma {:induction false} WalkReaches(hs: Store, ref: Header, n: nat)
    requires n < ref.number
    ensures WalkHash(hs, ref.parent, ref.number - 1, ref.number - 1 - n)
         == match AncestorAt(hs, ref, n + 1) case None => None case Some(h) => Some(h.parent)
    decreases ref.number
  {
    if n + 1 < ref.number && Parent(hs, ref).Some? { WalkReaches(hs, Parent(hs, ref).value, n); }
  }

  /** Slot k holds the hash reached from the reference header by k + 1 parent links. */
  ghost predicate Cached(hs: Store, ref: Header, cache: seq<Hash>) {
    |cache| <= ref.number
      && forall k: nat :: k < |cache| ==> WalkHash(hs, ref.parent, ref.number - 1, k) == Some(cache[k])
  }

  lemma {:induction false} WalkGrows(hs: Store, hs': Store, hash: Hash, number: nat, k: nat)
    requires k <= number && Grows(hs, hs')
    requires WalkHash(hs, hash, number, k).Some?
    ensures WalkHash(hs', hash, number, k) == WalkHash(hs, hash, number, k)
    decreases k
  {
    if k > 0 { WalkGrows(hs, hs', GetHeader(hs, hash, number).value.parent, number - 1, k - 1); }
  }

  /** Hashes cached against one state of the database stay right as further headers are stored. */
  lemma CacheGrows(hs: Store, hs': Store, ref: Header, cache: seq<Hash>)
    requires Cached(hs, ref, cache) && Grows(hs, hs')
    ensures Cached(hs', ref, cache)
  {
    forall k: nat | k < |cache| ensures WalkHash(hs', ref.parent, ref.number - 1, k) == Some(cache[k]) {
      assert WalkHash(hs, ref.parent, ref.number - 1, k) == Some(cache[k]);
      WalkGrows(hs, hs', ref.parent, ref.number - 1, k);
    }
  }

  lemma CachedFirst(hs: Store, ref: Header)
    requires ref.number > 0
    ensures Cached(hs, ref, [ref.parent])
  {
  }

  lemma CachedAt(hs: Store, ref: Header, cache: seq<Hash>, k: nat)
    requires Cached(hs, ref, cache) && k < |cache|
    ensures |cache| <= ref.number && WalkHash(hs, ref.parent, ref.number - 1, k) == Some(cache[k])
  {
  }

  lemma CachedMore(hs: Store, ref: Header, cache: seq<Hash>, h: Header)
    requires Cached(hs, ref, cache) && 0 < |cache| < ref.number
    requires GetHeader(hs, cache[|cache| - 1], ref.number - |cache|) == Some(h)
    ensures Cached(hs, ref, cache + [h.parent])
  {
    hide WalkHash;
    WalkOne(hs, ref.parent, ref.number - 1, |cache| - 1);
  }

  /** Where the header behind the last slot is missing, nothing further down is reached. */
  lemma WalkStops(hs: Store, ref: Header, cache: seq<Hash>, k: nat)
    requires Cached(hs, ref, cache) && 0 < |cache| <= k < ref.number
    requires GetHeader(hs, cache[|cache| - 1], ref.number - |cache|).None?
    ensures WalkHash(hs, ref.parent, ref.number - 1, k).None?
  {
    CachedAt(hs, ref, cache, |cache| - 1);
    WalkAdd(hs, ref.parent, ref.number - 1, |cache| - 1, k - (|cache| - 1));
  }

  class HashFn {
    const ref: Header
    var cache: seq<Hash>

    constructor (ref: Header)
      ensures this.ref == ref && cache == []
    {
      this.ref := ref;
      cache := [];
    }

    method GetHash(hs: Store, n: nat) returns (hash: Hash)
      requires Cached(hs, ref, cache)
      modifies this
      ensures Cached(hs, ref, cache) && old(cache) <= cache
      ensures hash == UncachedHash(hs, ref, n)
      ensures hash == if n < ref.number && AncestorAt(hs, ref, n + 1).Some?
                      then AncestorAt(hs, ref, n + 1).value.parent else ZERO_HASH
    {
      hide AncestorAt, GetHeader, WalkHash, Cached;
      if n < ref.number { WalkReaches(hs, ref, n); }
      if ref.number <= n { return ZERO_HASH; }
      if |cache| == 0 {
        CachedFirst(hs, ref);
        cache := cache + [ref.parent];
        assert cache == [ref.parent];
      }
      var idx := ref.number - n - 1;
      if idx < |cache| {
        CachedAt(hs, ref, cache, idx);
        return cache[idx];
      }
      var lastKnownHash, lastKnownNumber := cache[|cache| - 1], ref.number - |cache|;
      while true
        invariant 0 < |cache| && lastKnownNumber == ref.number - |cache| && n < lastKnownNumber
                  && lastKnownHash == cache[|cache| - 1]
        invariant Cached(hs, ref, cache) && old(cache) <= cache
        decreases lastKnownNumber - n
      {
        var header := GetHeader(hs, lastKnownHash, lastKnownNumber);
        if header.None? {
          WalkStops(hs, ref, cache, idx);
          break;
        }
        CachedMore(hs, ref, cache, header.value);
        cache := cache + [header.value.parent];
        lastKnownHash := header.value.parent;
        lastKnownNumber := header.value.number - 1;
        if n == lastKnownNumber {
          CachedAt(hs, ref, cache, idx);
          return lastKnownHash;
        }
      }
      hash := ZERO_HASH;
    }
  }
}
