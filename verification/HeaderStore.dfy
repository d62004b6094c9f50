/** Block headers linked by parent hash, and everything that is defined by walking those links.
    Hashes are opaque identifiers: a store holds at most one header under a hash, which is the
    collision freedom the rest of the project relies on. */
module HeaderStore {
  import opened Common

  type Hash = int

  /** The all-zero hash, which names no block. */
  const ZERO_HASH: Hash := 0

  const BLOOM_BYTES := 256

  /** The bloom filter of a block's logs, most significant byte first. */
  type Bloom = b: seq<bv8> | |b| == BLOOM_BYTES witness seq(BLOOM_BYTES, _ => 0)

  datatype Header = Header(hash: Hash, parent: Hash, number: nat, difficulty: nat, root: Hash, bloom: Bloom)

  /** A header database files every header under its own hash. */
  ghost predicate Keyed(hs: map<Hash, Header>) {
    forall h :: h in hs ==> hs[h].hash == h && h != ZERO_HASH
  }

  type Store = hs: map<Hash, Header> | Keyed(hs) ghost witness map[]

  function GetHeader(hs: Store, hash: Hash, number: int): (r: Option<Header>)
    ensures r.Some? ==> r.value.hash == hash && r.value.number == number && hash in hs
  {
    if hash in hs && hs[hash].number == number then Some(hs[hash]) else None
  }

  function ReadCanonicalHash(canon: map<nat, Hash>, n: nat): Hash { if n in canon then canon[n] else ZERO_HASH }

  function Parent(hs: Store, h: Header): (r: Option<Header>)
    ensures r.Some? ==> r.value.number + 1 == h.number && r.value.hash == h.parent && r.value.hash in hs
  {
    GetHeader(hs, h.parent, h.number - 1)
  }

  /** Every header of hs is still there in hs'. */
  ghost predicate Grows(hs: Store, hs': Store) {
    hs.Keys <= hs'.Keys && forall x :: x in hs ==> hs'[x] == hs[x]
  }

  /** The hashes of the first k headers. */
  ghost function Hashes(chain: seq<Header>, k: nat): set<Hash>
    requires k <= |chain|
  {
    if k == 0 then {} else Hashes(chain, k - 1) + {chain[k - 1].hash}
  }

  lemma {:induction false} HashesAre(chain: seq<Header>, k: nat)
    requires k <= |chain|
    ensures Hashes(chain, k) == set i | 0 <= i < k :: chain[i].hash
  {
    if k > 0 { HashesAre(chain, k - 1); }
  }

  ghost predicate Stored(hs: Store, h: Header) {
    h.hash in hs && hs[h.hash] == h
  }

  /** The ancestor of h (or h itself) at height n. */
  function AncestorAt(hs: Store, h: Header, n: nat): (r: Option<Header>)
    ensures r.Some? ==> r.value.number == n <= h.number
    decreases h.number
  {
    if h.number < n then None
    else if h.number == n then Some(h)
    else match Parent(hs, h)
      case None => None
      case Some(p) => AncestorAt(hs, p, n)
  }

  /** Every ancestor down to height zero is stored. */
  ghost predicate Rooted(hs: Store, h: Header) {
    Stored(hs, h) && AncestorAt(hs, h, 0).Some?
  }

  /** The number-to-hash map of h and its ancestors. */
  function PathMap(hs: Store, h: Header): (m: map<nat, Hash>)
    decreases h.number
  {
    (match Parent(hs, h) case None => map[] case Some(p) => PathMap(hs, p))[h.number := h.hash]
  }

  /** The sum of difficulties of h and its ancestors. */
  function PathDifficulty(hs: Store, h: Header): (d: nat)
    decreases h.number
  {
    h.difficulty + match Parent(hs, h) case None => 0 case Some(p) => PathDifficulty(hs, p)
  }

  /** The height of the highest common ancestor of a and b among heights up to n. */
  function ForkAt(hs: Store, a: Header, b: Header, n: nat): (r: Option<nat>)
    ensures r.Some?
            ==> r.value <= n && AncestorAt(hs, a, r.value).Some?
                && AncestorAt(hs, a, r.value) == AncestorAt(hs, b, r.value)
    ensures forall k: nat :: k <= n && (r.Some? ==> r.value < k) ==>
                               AncestorAt(hs, a, k).None? || AncestorAt(hs, a, k) != AncestorAt(hs, b, k)
  {
    if AncestorAt(hs, a, n).Some? && AncestorAt(hs, a, n) == AncestorAt(hs, b, n) then Some(n)
    else if n == 0 then None
    else ForkAt(hs, a, b, n - 1)
  }

  function Fork(hs: Store, a: Header, b: Header): (r: Option<nat>) {
    ForkAt(hs, a, b, if a.number < b.number then a.number else b.number)
  }

  /** Only genesis is at height zero, and any other header has its parent stored. */
  ghost predicate HasParent(hs: Store, genesis: Hash, h: Hash)
    requires h in hs
  {
    if hs[h].number == 0 then h == genesis else Parent(hs, hs[h]).Some?
  }

  ghost predicate ParentClosed(hs: Store, genesis: Hash) {
    && genesis in hs && hs[genesis].number == 0 && hs[genesis].parent == ZERO_HASH
    && forall h {:trigger HasParent(hs, genesis, h)} :: h in hs ==> HasParent(hs, genesis, h)
  }

  lemma {:induction false} AncestorStored(hs: Store, h: Header, n: nat)
    requires Stored(hs, h) && AncestorAt(hs, h, n).Some?
    ensures Stored(hs, AncestorAt(hs, h, n).value)
    decreases h.number
  {
    if n < h.number { AncestorStored(hs, Parent(hs, h).value, n); }
  }

  /** An ancestor of an ancestor is an ancestor. */
  lemma {:induction false} AncestorOfAncestor(hs: Store, h: Header, m: nat, n: nat)
    requires n <= m && AncestorAt(hs, h, m).Some?
    ensures AncestorAt(hs, h, n) == AncestorAt(hs, AncestorAt(hs, h, m).value, n)
    decreases h.number
  {
    if m < h.number { AncestorOfAncestor(hs, Parent(hs, h).value, m, n); }
  }

  /** The parent of the ancestor at height n + 1 is the ancestor at height n. */
  lemma ParentOfAncestor(hs: Store, h: Header, n: nat)
    requires AncestorAt(hs, h, n + 1).Some?
    ensures AncestorAt(hs, h, n) == Parent(hs, AncestorAt(hs, h, n + 1).value)
  {
    AncestorOfAncestor(hs, h, n + 1, n);
  }

  lemma AncestorsAbove(hs: Store, h: Header, n: nat, m: nat)
    requires n <= m <= h.number && AncestorAt(hs, h, n).Some?
    ensures AncestorAt(hs, h, m).Some?
    decreases h.number
  {
    if m < h.number { AncestorsAbove(hs, Parent(hs, h).value, n, m); }
  }

  /** PathMap is the graph of AncestorAt. */
  lemma {:induction false} PathMapAt(hs: Store, h: Header, n: nat)
    ensures n in PathMap(hs, h) <==> AncestorAt(hs, h, n).Some?
    ensures n in PathMap(hs, h) ==> PathMap(hs, h)[n] == AncestorAt(hs, h, n).value.hash
    decreases h.number
  {
    match Parent(hs, h)
    case None =>
    case Some(p) => PathMapAt(hs, p, n);
  }

  lemma PathMapRooted(hs: Store, h: Header, n: nat)
    requires Rooted(hs, h)
    ensures n in PathMap(hs, h) <==> n <= h.number
  {
    PathMapAt(hs, h, n);
    if n <= h.number { AncestorsAbove(hs, h, 0, n); }
  }

  /** Cutting a path map at height n gives the path map of the ancestor at height n. */
  lemma {:induction false} PathMapPrefix(hs: Store, h: Header, n: nat)
    requires AncestorAt(hs, h, n).Some?
    ensures PathMap(hs, AncestorAt(hs, h, n).value) == map k | k in PathMap(hs, h) && k <= n :: PathMap(hs, h)[k]
  {
    var a := AncestorAt(hs, h, n).value;
    var cut := map k | k in PathMap(hs, h) && k <= n :: PathMap(hs, h)[k];
    forall k: nat
      ensures k in PathMap(hs, a) <==> k in cut
      ensures k in PathMap(hs, a) ==> PathMap(hs, a)[k] == cut[k]
    {
      PathMapAt(hs, h, k);
      PathMapAt(hs, a, k);
      if k <= n { AncestorOfAncestor(hs, h, n, k); }
    }
  }

  /** Two headers on the same path map at the same height are the same header. */
  lemma OnPath(hs: Store, h: Header, x: Header)
    requires Stored(hs, h) && Stored(hs, x) && x.number in PathMap(hs, h) && PathMap(hs, h)[x.number] == x.hash
    ensures AncestorAt(hs, h, x.number) == Some(x)
  {
    PathMapAt(hs, h, x.number);
    AncestorStored(hs, h, x.number);
  }

  lemma {:induction false} ClosedRooted(hs: Store, genesis: Hash, h: Header)
    requires ParentClosed(hs, genesis) && Stored(hs, h)
    ensures Rooted(hs, h) && AncestorAt(hs, h, 0) == Some(hs[genesis])
    decreases h.number
  {
    assert HasParent(hs, genesis, h.hash);
    if h.number > 0 { ClosedRooted(hs, genesis, Parent(hs, h).value); }
  }

  /** Growing the store changes nothing about a header whose ancestors are all stored. */
  lemma {:induction false} RootedFrame(hs: Store, hs': Store, h: Header)
    requires Grows(hs, hs') && Rooted(hs, h)
    ensures Rooted(hs', h) && PathMap(hs', h) == PathMap(hs, h)
    ensures h.number > 0 ==> Parent(hs', h) == Parent(hs, h)
    ensures h.number == 0 ==> Parent(hs', h) == Parent(hs, h) == None
    ensures PathDifficulty(hs', h) == PathDifficulty(hs, h)
    ensures forall n: nat :: n <= h.number ==> AncestorAt(hs', h, n) == AncestorAt(hs, h, n)
    decreases h.number
  {
    if h.number > 0 { RootedFrame(hs, hs', Parent(hs, h).value); }
  }

  /** Two stored headers of a parent-closed store always have a common ancestor. */
  lemma ClosedFork(hs: Store, genesis: Hash, a: Header, b: Header)
    requires ParentClosed(hs, genesis) && Stored(hs, a) && Stored(hs, b)
    ensures Fork(hs, a, b).Some?
  {
    ClosedRooted(hs, genesis, a);
    ClosedRooted(hs, genesis, b);
    assert AncestorAt(hs, a, 0) == AncestorAt(hs, b, 0);
  }

  /** A header whose parent is stored can be added to a parent-closed store. */
  lemma AddHeader(hs: Store, genesis: Hash, h: Header)
    requires ParentClosed(hs, genesis) && Parent(hs, h).Some?
    requires h.hash != ZERO_HASH && (h.hash in hs ==> hs[h.hash] == h)
    ensures ParentClosed(hs[h.hash := h], genesis)
    ensures PathDifficulty(hs[h.hash := h], h) == PathDifficulty(hs, Parent(hs, h).value) + h.difficulty
  {
    var hs' := hs[h.hash := h];
    var p := Parent(hs, h).value;
    ClosedRooted(hs, genesis, p);
    RootedFrame(hs, hs', p);
    assert Parent(hs', h) == Some(p);
    forall x | x in hs' ensures HasParent(hs', genesis, x) {
      if x in hs { assert HasParent(hs, genesis, x); }
    }
  }

  /** The total difficulty read for a stored header. */
  function GetTd(hs: Store, td: map<Hash, nat>, hash: Hash, number: int): Option<nat> {
    if GetHeader(hs, hash, number).Some? && hash in td then Some(td[hash]) else None
  }

  ghost predicate TdIs(hs: Store, td: map<Hash, nat>, h: Hash)
    requires h in hs
  {
    h in td && td[h] == PathDifficulty(hs, hs[h])
  }

  /** Every stored total difficulty is the sum of difficulties along the ancestor path. */
  ghost predicate TdExact(hs: Store, td: map<Hash, nat>) {
    forall h {:trigger TdIs(hs, td, h)} :: h in hs ==> TdIs(hs, td, h)
  }

  lemma GetTdExact(hs: Store, td: map<Hash, nat>, hash: Hash, number: int)
    requires TdExact(hs, td)
    ensures GetTd(hs, td, hash, number) ==
            match GetHeader(hs, hash, number) case None => None case Some(h) => Some(PathDifficulty(hs, h))
  {
    if hash in hs { assert TdIs(hs, td, hash); }
  }

  lemma ClosedFrame(hs: Store, hs': Store, genesis: Hash, x: Hash)
    requires ParentClosed(hs, genesis) && x in hs
    requires Grows(hs, hs')
    ensures PathDifficulty(hs', hs[x]) == PathDifficulty(hs, hs[x])
  {
    ClosedRooted(hs, genesis, hs[x]);
    RootedFrame(hs, hs', hs[x]);
  }

  /** Writing the parent's total difficulty plus the own difficulty keeps every total difficulty exact. */
  lemma AddTd(hs: Store, hs': Store, genesis: Hash, td: map<Hash, nat>, h: Header)
    requires ParentClosed(hs, genesis) && TdExact(hs, td) && Parent(hs, h).Some?
    requires h.hash != ZERO_HASH && (h.hash in hs ==> hs[h.hash] == h) && hs' == hs[h.hash := h]
    ensures TdExact(hs', td[h.hash := PathDifficulty(hs, Parent(hs, h).value) + h.difficulty])
  {
    AddHeader(hs, genesis, h);
    var td' := td[h.hash := PathDifficulty(hs, Parent(hs, h).value) + h.difficulty];
    hide PathDifficulty, ParentClosed, Parent;
    forall x | x in hs' ensures TdIs(hs', td', x) {
      if x in hs {
        assert TdIs(hs, td, x);
        ClosedFrame(hs, hs', genesis, x);
      }
    }
  }
}
