/** Rewinding the chain to a lower head: what is on disk, what survives a crash, and what block the rewind
    settles on. */
module RewindSpec {
  import opened Common
  import opened HeaderStore

  /** How far below the target a state is looked for when there is no pivot. */
  const FULL_IMMUTABILITY: nat := 90000

  /** The headers of the key-value store, the frozen canonical headers by number, the canonical numbers of the
      key-value store and the three head markers. */
  datatype Disk = Disk(kv: Store, ancient: seq<Header>, canon: map<nat, Hash>, header: Hash, block: Hash, snap: Hash)

  ghost predicate Held(d: Disk, hash: Hash) {
    hash in d.kv || exists i :: 0 <= i < |d.ancient| && d.ancient[i].hash == hash
  }

  /** Every head marker names a block whose header is still stored. */
  ghost predicate Safe(d: Disk) {
    Held(d, d.header) && Held(d, d.block) && Held(d, d.snap)
  }

  ghost predicate Filed(ancient: seq<Header>) {
    forall i :: 0 <= i < |ancient| ==> ancient[i].number == i
  }

  /** The freezer is asked first; it knows only one block per number. */
  function ReadHeader(kv: Store, ancient: seq<Header>, hash: Hash, number: int): (r: Option<Header>)
    ensures r.Some? && Filed(ancient) ==> r.value.number == number && r.value.hash == hash
  {
    if 0 <= number < |ancient| && ancient[number].hash == hash then Some(ancient[number])
    else GetHeader(kv, hash, number)
  }

  /** A header is found exactly if it is frozen at its number or stored with it. */
  lemma FoundExactly(kv: Store, ancient: seq<Header>, hash: Hash, number: nat)
    requires Filed(ancient)
    ensures ReadHeader(kv, ancient, hash, number).Some?
       <==> (exists h :: h in ancient && h.hash == hash && h.number == number)
            || (hash in kv && kv[hash].number == number)
  {
    forall h | h in ancient && h.number == number ensures number < |ancient| && ancient[number] == h {}
  }

  ghost predicate Readable(kv: Store, ancient: seq<Header>, h: Header) {
    ReadHeader(kv, ancient, h.hash, h.number) == Some(h)
  }

  lemma ReadableHeld(d: Disk, h: Header)
    requires Readable(d.kv, d.ancient, h)
    ensures Held(d, h.hash)
  {
  }

  /** Cutting the freezer above a block leaves the block readable. */
  lemma TruncateReadable(kv: Store, ancient: seq<Header>, n: nat, h: Header)
    requires Readable(kv, ancient, h) && h.number < n <= |ancient|
    ensures Readable(kv, ancient[..n], h)
  {
  }

  /** The doomed headers leave the key-value store. */
  function Flushed(kv: Store, doomed: set<(nat, Hash)>): Store {
    map x | x in kv && (kv[x].number, x) !in doomed :: kv[x]
  }

  lemma FlushReadable(kv: Store, ancient: seq<Header>, doomed: set<(nat, Hash)>, h: Header)
    requires Readable(kv, ancient, h) && (h.number, h.hash) !in doomed
    ensures Readable(Flushed(kv, doomed), ancient, h)
  {
  }

  /** The oldest block in which a state is looked for, starting from block n. */
  function Limit(pivot: Option<nat>, n: nat): nat {
    if pivot.Some? then pivot.value else if n > FULL_IMMUTABILITY then n - FULL_IMMUTABILITY else 0
  }

  /** The search for a block with state, from h downwards. */
  function Rewound(kv: Store, ancient: seq<Header>, states: set<Hash>, genesis: Header, limit: nat,
                   h: Header): (r: Header)
    requires Filed(ancient)
    ensures r == genesis || r.number <= h.number
    ensures r.root in states || r == genesis || r.number == 0
    decreases h.number
  {
    if h.number < limit then genesis
    else if h.root in states then h
    else match ReadHeader(kv, ancient, h.parent, h.number - 1)
      case None => genesis
      case Some(p) => if p.number == 0 then p else Rewound(kv, ancient, states, genesis, limit, p)
  }

  lemma {:induction false} RewoundReadable(kv: Store, ancient: seq<Header>, states: set<Hash>, genesis: Header,
                                           limit: nat, h: Header)
    requires Filed(ancient) && Readable(kv, ancient, genesis) && Readable(kv, ancient, h)
    ensures Readable(kv, ancient, Rewound(kv, ancient, states, genesis, limit, h))
    decreases h.number
  {
    if h.number >= limit && h.root !in states {
      match ReadHeader(kv, ancient, h.parent, h.number - 1)
      case None =>
      case Some(p) => if p.number > 0 { RewoundReadable(kv, ancient, states, genesis, limit, p); }
    }
  }

  /** The ancestor of h at height n as far as headers can be read. */
  function AncestorRead(kv: Store, ancient: seq<Header>, h: Header, n: nat): Option<Header>
    requires Filed(ancient)
    decreases h.number
  {
    if h.number <= n then if h.number == n then Some(h) else None
    else match ReadHeader(kv, ancient, h.parent, h.number - 1)
      case None => None
      case Some(p) => AncestorRead(kv, ancient, p, n)
  }

  ghost predicate StateRead(kv: Store, ancient: seq<Header>, states: set<Hash>, h: Header, n: nat)
    requires Filed(ancient)
  {
    AncestorRead(kv, ancient, h, n).Some? && AncestorRead(kv, ancient, h, n).value.root in states
  }

  /** Block b is the nearest ancestor of h that can be read and has state. */
  ghost predicate NearestRead(kv: Store, ancient: seq<Header>, states: set<Hash>, h: Header, b: nat)
    requires Filed(ancient)
  {
    b <= h.number && StateRead(kv, ancient, states, h, b)
    && forall k: nat :: b < k <= h.number ==> !StateRead(kv, ancient, states, h, k)
  }

  /** Whatever is frozen, the search ends above genesis exactly at the nearest block with state, if that is not below
      the limit. */
  lemma {:induction false} SearchFinds(kv: Store, ancient: seq<Header>, states: set<Hash>, genesis: Header, limit: nat,
                                       h: Header, b: nat)
    requires Filed(ancient) && genesis.number == 0 && b > 0
    ensures var r := Rewound(kv, ancient, states, genesis, limit, h);
            && (r.number == b <==> NearestRead(kv, ancient, states, h, b) && limit <= b)
            && (r.number == b ==> AncestorRead(kv, ancient, h, b) == Some(r))
    decreases h.number
  {
    if h.number < limit {
    } else if h.root in states {
      assert AncestorRead(kv, ancient, h, h.number) == Some(h);
      assert StateRead(kv, ancient, states, h, h.number);
    } else {
      match ReadHeader(kv, ancient, h.parent, h.number - 1)
      case None =>
      case Some(p) =>
        if p.number > 0 { SearchFinds(kv, ancient, states, genesis, limit, p, b); }
        forall k: nat | k < h.number
          ensures AncestorRead(kv, ancient, h, k) == AncestorRead(kv, ancient, p, k)
                  && StateRead(kv, ancient, states, h, k) == StateRead(kv, ancient, states, p, k)
        {
        }
        assert !StateRead(kv, ancient, states, h, h.number);
    }
  }

  /** The nearest ancestor with state, or the root of the chain. */
  function Best(kv: Store, states: set<Hash>, h: Header): (r: Header)
    ensures r.number <= h.number
    decreases h.number
  {
    if h.root in states then h
    else match Parent(kv, h)
      case None => h
      case Some(p) => Best(kv, states, p)
  }

  /** The search gives up on a state it would have to go past the limit for. */
  ghost predicate Hit(kv: Store, states: set<Hash>, pivot: Option<nat>, h: Header) {
    0 < Best(kv, states, h).number < Limit(pivot, h.number)
  }

  /** Without a freezer the search finds the nearest ancestor with state, unless the limit stops it. */
  lemma {:induction false} RewoundIs(kv: Store, states: set<Hash>, genesis: Header, limit: nat, h: Header)
    requires ParentClosed(kv, genesis.hash) && Stored(kv, genesis) && Stored(kv, h)
    ensures var b := Best(kv, states, h);
            (b.number == 0 ==> b == genesis)
            && Rewound(kv, [], states, genesis, limit, h) == if b.number == 0 || b.number >= limit then b else genesis
    decreases h.number
  {
    hide ParentClosed;
    RootIs(kv, genesis, h);
    match Parent(kv, h)
    case None =>
    case Some(p) =>
      RootIs(kv, genesis, p);
      RewoundIs(kv, states, genesis, limit, p);
  }

  lemma RootIs(kv: Store, genesis: Header, h: Header)
    requires ParentClosed(kv, genesis.hash) && Stored(kv, genesis) && Stored(kv, h)
    ensures if h.number == 0 then h == genesis else Parent(kv, h).Some? && Stored(kv, Parent(kv, h).value)
  {
    assert HasParent(kv, genesis.hash, h.hash);
  }

  /** Whether the limit stops the search from some canonical block between lo and hi. */
  ghost predicate AnyHit(kv: Store, states: set<Hash>, pivot: Option<nat>, head: Header, lo: nat, hi: int) {
    exists k: nat :: lo <= k <= hi && HitAt(kv, states, pivot, head, k)
  }

  ghost predicate HitAt(kv: Store, states: set<Hash>, pivot: Option<nat>, head: Header, k: nat) {
    AncestorAt(kv, head, k).Some? && Hit(kv, states, pivot, AncestorAt(kv, head, k).value)
  }

  function Lower(a: int, b: int): int { if a < b then a else b }

  /** The head block once the chain that ended in head is rewound to its block number k, the head block having
      been at height top. */
  ghost function SettledBlock(kv: Store, states: set<Hash>, pivot: Option<nat>, genesis: Header, head: Header,
                              top: nat, k: nat): Header
    requires AncestorAt(kv, head, k).Some?
  {
    if AnyHit(kv, states, pivot, head, k, Lower(head.number - 1, top)) then genesis
    else Best(kv, states, AncestorAt(kv, head, k).value)
  }

  /** The head block after the rewind has come down to block k: untouched while above its own height. */
  ghost function BlockAt(kv: Store, states: set<Hash>, pivot: Option<nat>, genesis: Header, head: Header,
                         block: Header, k: nat): Header
    requires AncestorAt(kv, head, k).Some?
  {
    if k == head.number || k > block.number then block
    else SettledBlock(kv, states, pivot, genesis, head, block.number, k)
  }

  lemma BestBelow(kv: Store, states: set<Hash>, h: Header, p: Header)
    requires Parent(kv, h) == Some(p) && Best(kv, states, h).number < h.number
    ensures Best(kv, states, p) == Best(kv, states, h)
  {
  }

  /** One block further down: search again only if the head block is not below already. */
  lemma BlockStep(kv: Store, states: set<Hash>, pivot: Option<nat>, genesis: Header, head: Header, block: Header,
                  j: nat)
    requires ParentClosed(kv, genesis.hash) && Stored(kv, genesis) && Stored(kv, head)
    requires AncestorAt(kv, head, j + 1).Some? && AncestorAt(kv, head, j).Some? && genesis.number == 0
    ensures var b := BlockAt(kv, states, pivot, genesis, head, block, j + 1);
            BlockAt(kv, states, pivot, genesis, head, block, j)
            == if j <= b.number then Rewound(kv, [], states, genesis, Limit(pivot, j), AncestorAt(kv, head, j).value)
                else b
  {
    var p, h := AncestorAt(kv, head, j).value, AncestorAt(kv, head, j + 1).value;
    AncestorStored(kv, head, j);
    ParentOfAncestor(kv, head, j);
    RewoundIs(kv, states, genesis, Limit(pivot, j), p);
    hide ParentClosed, Rewound, AncestorAt, Parent;
    if j <= block.number {
      var top := Lower(head.number - 1, block.number);
      if j < top {
        AnyHitStep(kv, states, pivot, head, j, top);
        if Best(kv, states, h).number < j {
          BestBelow(kv, states, h, p);
          assert HitAt(kv, states, pivot, head, j) ==> HitAt(kv, states, pivot, head, j + 1);
        }
      } else {
        AnyHitOne(kv, states, pivot, head, j);
      }
    }
  }

  lemma AnyHitStep(kv: Store, states: set<Hash>, pivot: Option<nat>, head: Header, j: nat, top: int)
    requires j < top
    ensures AnyHit(kv, states, pivot, head, j, top)
            <==> AnyHit(kv, states, pivot, head, j + 1, top) || HitAt(kv, states, pivot, head, j)
  {
    hide HitAt;
    if AnyHit(kv, states, pivot, head, j, top) {
      var k: nat :| j <= k <= top && HitAt(kv, states, pivot, head, k);
      assert k == j || j + 1 <= k;
    }
  }

  lemma AnyHitOne(kv: Store, states: set<Hash>, pivot: Option<nat>, head: Header, j: nat)
    ensures AnyHit(kv, states, pivot, head, j, j) <==> HitAt(kv, states, pivot, head, j)
  {
    hide HitAt;
  }

  /** Some canonical block between lo and hi has no body. */
  ghost predicate AnyBare(kv: Store, contents: set<(nat, Hash)>, head: Header, lo: nat, hi: int) {
    exists k: nat :: lo <= k <= hi && BareAt(kv, contents, head, k)
  }

  ghost predicate BareAt(kv: Store, contents: set<(nat, Hash)>, head: Header, k: nat) {
    AncestorAt(kv, head, k).Some? && (k, AncestorAt(kv, head, k).value.hash) !in contents
  }

  /** The snap head after the rewind has come down to block k: it follows the rewind once passed, and falls to
      genesis for good at a block without body. */
  ghost function SnapAt(kv: Store, contents: set<(nat, Hash)>, genesis: Header, head: Header, snap: Header,
                        k: nat): Header
    requires AncestorAt(kv, head, k).Some?
  {
    if k == head.number || k >= snap.number then snap
    else if AnyBare(kv, contents, head, k, Lower(head.number, snap.number) - 1) then genesis
    else AncestorAt(kv, head, k).value
  }

  lemma SnapStep(kv: Store, contents: set<(nat, Hash)>, genesis: Header, head: Header, snap: Header, j: nat)
    requires AncestorAt(kv, head, j + 1).Some? && AncestorAt(kv, head, j).Some? && genesis.number == 0
    ensures var s, p := SnapAt(kv, contents, genesis, head, snap, j + 1), AncestorAt(kv, head, j).value;
            SnapAt(kv, contents, genesis, head, snap, j)
                == if j < s.number then (if (j, p.hash) in contents then p else genesis) else s
  {
    hide AncestorAt;
    var top := Lower(head.number, snap.number) - 1;
    if j < snap.number {
      if AnyBare(kv, contents, head, j, top) {
        var k: nat :| j <= k <= top && BareAt(kv, contents, head, k);
        assert k == j || j + 1 <= k;
      }
      assert (j, AncestorAt(kv, head, j).value.hash) !in contents ==> BareAt(kv, contents, head, j);
    }
  }

  /** What the head block is when the limit does not interfere: it has state or is genesis, and no canonical block
      between it and the target has state. */
  lemma {:induction false} BestIs(kv: Store, states: set<Hash>, genesis: Header, h: Header)
    requires ParentClosed(kv, genesis.hash) && Stored(kv, genesis) && Stored(kv, h)
    ensures var b := Best(kv, states, h);
            && AncestorAt(kv, h, b.number) == Some(b) && (b.root in states || b == genesis)
            && forall k: nat :: b.number < k <= h.number
                ==> AncestorAt(kv, h, k).Some? && AncestorAt(kv, h, k).value.root !in states
    decreases h.number
  {
    hide ParentClosed;
    RootIs(kv, genesis, h);
    if h.root !in states && h.number > 0 { BestIs(kv, states, genesis, Parent(kv, h).value); }
  }
}
