/** What the canonical chain should look like, defined from the block tree alone: the transaction
    index and the logs of a head, and the effect of making a block the head. */
module ChainSpec {
  import opened Common
  import opened HeaderStore

  type TxHash = int

  /** A log as announced to subscribers; removed logs carry the flag. */
  datatype Log = Log(id: nat, removed: bool)

  datatype Body = Body(txs: seq<TxHash>, logs: seq<nat>)

  /** Blocks: every stored header has its body. */
  datatype BlockDb = BlockDb(headers: Store, bodies: map<Hash, Body>) {
    ghost predicate Complete() { headers.Keys == bodies.Keys }

    function Txs(h: Header): seq<TxHash> { if h.hash in bodies then bodies[h.hash].txs else [] }

    function Logs(h: Header): seq<nat> { if h.hash in bodies then bodies[h.hash].logs else [] }

    ghost predicate Extends(old_: BlockDb) {
      && Grows(old_.headers, headers)
      && old_.bodies.Keys <= bodies.Keys && (forall x :: x in old_.bodies ==> bodies[x] == old_.bodies[x])
    }
  }

  function Marked(ids: seq<nat>, removed: bool): (logs: seq<Log>)
    ensures |logs| == |ids|
  {
    seq(|ids|, i requires 0 <= i < |ids| => Log(ids[i], removed))
  }

  /** The lookup entries of one block. */
  function BlockLookup(txs: seq<TxHash>, number: nat): map<TxHash, nat> {
    map t | t in txs :: number
  }

  /** The lookup entries of h and its ancestors. */
  function LookupOf(db: BlockDb, h: Header): map<TxHash, nat>
    decreases h.number
  {
    (match Parent(db.headers, h) case None => map[] case Some(p) => LookupOf(db, p)) + BlockLookup(db.Txs(h), h.number)
  }

  /** No transaction occurs in two blocks of the path ending in h. */
  ghost predicate UniqueTxs(db: BlockDb, h: Header)
    decreases h.number
  {
    match Parent(db.headers, h)
    case None => true
    case Some(p) => UniqueTxs(db, p) && forall t :: t in db.Txs(h) ==> t !in LookupOf(db, p)
  }

  /** Logs of the ancestors of h numbered above n, oldest block first. */
  function LogsAbove(db: BlockDb, h: Header, n: int): seq<nat>
    decreases h.number
  {
    if h.number <= n then []
    else (match Parent(db.headers, h) case None => [] case Some(p) => LogsAbove(db, p, n)) + db.Logs(h)
  }

  function LogsOf(db: BlockDb, h: Header): seq<nat> { LogsAbove(db, h, -1) }

  /** Transactions of the ancestors of h numbered above n. */
  ghost function TxsAbove(db: BlockDb, h: Header, n: nat): set<TxHash>
    decreases h.number
  {
    if h.number <= n then {}
    else (match Parent(db.headers, h) case None => {} case Some(p) => TxsAbove(db, p, n)) + (set t | t in db.Txs(h))
  }

  /** The lookup entries of the ancestors of h numbered above n; the newest block wins. */
  function LookupAbove(db: BlockDb, h: Header, n: nat): map<TxHash, nat>
    decreases h.number
  {
    if h.number <= n then map[]
    else (match Parent(db.headers, h) case None => map[] case Some(p) => LookupAbove(db, p, n))
         + BlockLookup(db.Txs(h), h.number)
  }

  /** The block the canonical chain ends in after `reorg`, which leaves the new head to its caller. */
  function ReorgTip(hs: Store, head: Header, fork: nat): Header
    requires fork < head.number ==> Parent(hs, head).Some?
  {
    if fork < head.number then Parent(hs, head).value else head
  }

  lemma {:induction false} LookupOfBelow(db: BlockDb, h: Header, t: TxHash)
    requires t in LookupOf(db, h)
    ensures LookupOf(db, h)[t] <= h.number
    decreases h.number
  {
    if t !in db.Txs(h) { LookupOfBelow(db, Parent(db.headers, h).value, t); }
  }

  /** The lookup map of a path splits at any ancestor. */
  lemma {:induction false} LookupSplit(db: BlockDb, h: Header, n: nat)
    requires AncestorAt(db.headers, h, n).Some?
    ensures LookupOf(db, h) == LookupOf(db, AncestorAt(db.headers, h, n).value) + LookupAbove(db, h, n)
    decreases h.number
  {
    if n < h.number {
      var p := Parent(db.headers, h).value;
      LookupSplit(db, p, n);
      AddAssoc(LookupOf(db, AncestorAt(db.headers, h, n).value), LookupAbove(db, p, n),
          BlockLookup(db.Txs(h), h.number));
    }
  }

  lemma AddAssoc(a: map<TxHash, nat>, b: map<TxHash, nat>, c: map<TxHash, nat>)
    ensures (a + b) + c == a + (b + c)
  {
  }

  lemma {:induction false} LookupKeys(db: BlockDb, h: Header, n: nat)
    ensures LookupAbove(db, h, n).Keys == TxsAbove(db, h, n)
    decreases h.number
  {
    if n < h.number && Parent(db.headers, h).Some? { LookupKeys(db, Parent(db.headers, h).value, n); }
  }

  /** On a path without repeated transactions, an ancestor's entries survive unchanged. */
  lemma {:induction false} LookupUnique(db: BlockDb, h: Header, n: nat)
    requires AncestorAt(db.headers, h, n).Some? && UniqueTxs(db, h)
    ensures var a := AncestorAt(db.headers, h, n).value;
            && (forall t :: t in LookupOf(db, a) ==> t in LookupOf(db, h) && LookupOf(db, h)[t] == LookupOf(db, a)[t])
            && (forall t :: t in TxsAbove(db, h, n) ==> t !in LookupOf(db, a))
    decreases h.number
  {
    if n < h.number { LookupUnique(db, Parent(db.headers, h).value, n); }
  }

  /** A lookup entry exists exactly for the transactions of canonical blocks, and names their block. */
  lemma {:induction false} LookupExact(db: BlockDb, h: Header, t: TxHash, n: nat)
    requires UniqueTxs(db, h)
    ensures (t in LookupOf(db, h) && LookupOf(db, h)[t] == n)
       <==> (AncestorAt(db.headers, h, n).Some? && t in db.Txs(AncestorAt(db.headers, h, n).value))
    decreases h.number
  {
    match Parent(db.headers, h)
    case None =>
    case Some(p) =>
      LookupExact(db, p, t, n);
      if t in LookupOf(db, p) { LookupOfBelow(db, p, t); }
      if n <= p.number && AncestorAt(db.headers, p, n).Some? && t in db.Txs(AncestorAt(db.headers, p, n).value) {
        assert t in LookupOf(db, p);
      }
  }

  /** The logs of a path split at any ancestor. */
  lemma {:induction false} LogsSplit(db: BlockDb, h: Header, n: nat, k: int)
    requires AncestorAt(db.headers, h, n).Some? && k <= n
    ensures LogsAbove(db, h, k) == LogsAbove(db, AncestorAt(db.headers, h, n).value, k) + LogsAbove(db, h, n)
    decreases h.number
  {
    if n < h.number { LogsSplit(db, Parent(db.headers, h).value, n, k); }
  }

  /** The logs of the blocks that path names at heights from lo up to hi, as stored, lowest block first. */
  ghost function RangeLogs(bodies: map<Hash, Body>, path: map<nat, Hash>, lo: nat, hi: nat): seq<nat>
    requires Covered(bodies, path, lo, hi)
    decreases hi
  {
    if hi <= lo then [] else RangeLogs(bodies, path, lo, hi - 1) + bodies[path[hi - 1]].logs
  }

  ghost predicate Covered(bodies: map<Hash, Body>, path: map<nat, Hash>, lo: nat, hi: nat) {
    forall n: nat :: lo <= n < hi ==> n in path && path[n] in bodies
  }

  lemma {:induction false} RangeFrame(bodies: map<Hash, Body>, path: map<nat, Hash>, path': map<nat, Hash>, lo: nat,
                                      hi: nat)
    requires Covered(bodies, path, lo, hi) && forall n: nat :: lo <= n < hi ==> n in path' && path'[n] == path[n]
    ensures Covered(bodies, path', lo, hi) && RangeLogs(bodies, path', lo, hi) == RangeLogs(bodies, path, lo, hi)
    decreases hi
  {
    if lo < hi { RangeFrame(bodies, path, path', lo, hi - 1); }
  }

  lemma PathCovered(db: BlockDb, h: Header)
    requires db.Complete() && Rooted(db.headers, h)
    ensures Covered(db.bodies, PathMap(db.headers, h), 0, h.number + 1)
  {
    forall n: nat | n <= h.number
      ensures n in PathMap(db.headers, h) && PathMap(db.headers, h)[n] in db.bodies
    {
      PathMapRooted(db.headers, h, n);
      PathMapAt(db.headers, h, n);
      AncestorStored(db.headers, h, n);
    }
  }

  /** The logs of the ancestors above a height are the logs stored with the blocks on the path, all of them and in
      order. */
  lemma {:induction false} LogsAre(db: BlockDb, h: Header, lo: nat)
    requires db.Complete() && Rooted(db.headers, h) && lo <= h.number + 1
    ensures Covered(db.bodies, PathMap(db.headers, h), 0, h.number + 1)
    ensures LogsAbove(db, h, lo - 1) == RangeLogs(db.bodies, PathMap(db.headers, h), lo, h.number + 1)
    decreases h.number
  {
    PathCovered(db, h);
    var path := PathMap(db.headers, h);
    if lo <= h.number {
      assert path[h.number] == h.hash;
      if h.number > 0 {
        var p := Parent(db.headers, h).value;
        LogsAre(db, p, lo);
        RangeFrame(db.bodies, PathMap(db.headers, p), path, lo, h.number);
      }
    }
  }

  /** Storing further blocks changes nothing about a rooted head. */
  lemma {:induction false} SpecFrame(db: BlockDb, db': BlockDb, h: Header)
    requires db'.Extends(db) && db.Complete() && Rooted(db.headers, h)
    ensures Rooted(db'.headers, h) && PathMap(db'.headers, h) == PathMap(db.headers, h)
    ensures LookupOf(db', h) == LookupOf(db, h)
    ensures UniqueTxs(db', h) == UniqueTxs(db, h)
    ensures LogsOf(db', h) == LogsOf(db, h)
    decreases h.number
  {
    RootedFrame(db.headers, db'.headers, h);
    if h.number > 0 { SpecFrame(db, db', Parent(db.headers, h).value); }
  }

  /** What a head change makes of the index: the adopted blocks' entries are written, the dropped transactions that
      were not adopted go, and the head's own entries come last. */
  ghost function SwitchLookup(db: BlockDb, lookup: map<TxHash, nat>, old_: Header, head: Header,
                              fork: nat): map<TxHash, nat>
    requires fork < head.number ==> Parent(db.headers, head).Some?
  {
    var tip := ReorgTip(db.headers, head, fork);
    ((lookup + LookupAbove(db, tip, fork)) - (TxsAbove(db, old_, fork) - TxsAbove(db, tip, fork)))
    + BlockLookup(db.Txs(head), head.number)
  }

  /** A transaction of both the dropped blocks and the shared ones is adopted again. */
  ghost predicate Readopted(db: BlockDb, old_: Header, head: Header, fork: nat)
    requires fork < head.number ==> Parent(db.headers, head).Some?
    requires AncestorAt(db.headers, head, fork).Some?
  {
    forall t :: t in TxsAbove(db, old_, fork) && t in LookupOf(db, AncestorAt(db.headers, head, fork).value)
                ==> t in TxsAbove(db, ReorgTip(db.headers, head, fork), fork) || t in db.Txs(head)
  }

  /** An exact index is exact again after a head change, if and only if every transaction that was both shared and
      dropped is adopted again. */
  lemma SwitchExact(db: BlockDb, old_: Header, head: Header, fork: nat)
    requires AncestorAt(db.headers, head, fork).Some?
    requires AncestorAt(db.headers, old_, fork) == AncestorAt(db.headers, head, fork)
    ensures fork < head.number ==> Parent(db.headers, head).Some?
    ensures SwitchLookup(db, LookupOf(db, old_), old_, head, fork) == LookupOf(db, head)
            <==> Readopted(db, old_, head, fork)
  {
    hide LookupOf, LookupAbove, TxsAbove, BlockLookup, UniqueTxs;
    var tip := ReorgTip(db.headers, head, fork);
    var common := LookupOf(db, AncestorAt(db.headers, head, fork).value);
    var dropped, added := LookupAbove(db, old_, fork), LookupAbove(db, tip, fork);
    var last := BlockLookup(db.Txs(head), head.number);
    LookupSplit(db, old_, fork);
    LookupSplit(db, tip, fork);
    LookupKeys(db, old_, fork);
    LookupKeys(db, tip, fork);
    LastBlock(db, head, tip);
    SwitchMaps(common, dropped, added, last);
    LastTxs(db, head);
  }

  lemma LastTxs(db: BlockDb, head: Header)
    ensures forall t :: t in BlockLookup(db.Txs(head), head.number) <==> t in db.Txs(head)
  {
  }

  lemma LastBlock(db: BlockDb, head: Header, tip: Header)
    requires tip == head || Parent(db.headers, head) == Some(tip)
    ensures LookupOf(db, tip) + BlockLookup(db.Txs(head), head.number) == LookupOf(db, head)
  {
  }

  lemma SwitchMaps(c: map<TxHash, nat>, dropped: map<TxHash, nat>, added: map<TxHash, nat>, last: map<TxHash, nat>)
    ensures ((c + dropped + added) - (dropped.Keys - added.Keys)) + last == c + added + last
       <==> forall t :: t in dropped && t in c ==> t in added || t in last
  {
    var m, n := ((c + dropped + added) - (dropped.Keys - added.Keys)) + last, c + added + last;
    if forall t :: t in dropped && t in c ==> t in added || t in last {
      forall t ensures t in m <==> t in n {}
      assert m == n;
    } else {
      var t :| t in dropped && t in c && t !in added && t !in last;
      assert t in n && t !in m;
    }
  }

  /** Where no transaction is repeated on the old path, that is always so. */
  lemma UniqueReadopted(db: BlockDb, old_: Header, head: Header, fork: nat)
    requires UniqueTxs(db, old_) && AncestorAt(db.headers, head, fork).Some?
    requires AncestorAt(db.headers, old_, fork) == AncestorAt(db.headers, head, fork)
    ensures (fork < head.number ==> Parent(db.headers, head).Some?) && Readopted(db, old_, head, fork)
  {
    LookupUnique(db, old_, fork);
  }

  /** Three blocks, the first and the last holding transaction 5. */
  ghost function RepeatDb(bloom: Bloom): BlockDb {
    var hs := map[1 := Header(1, ZERO_HASH, 0, 0, 0, bloom), 2 := Header(2, 1, 1, 0, 0, bloom),
                  3 := Header(3, 2, 2, 0, 0, bloom)];
    BlockDb(hs, map[1 := Body([5], []), 2 := Body([], []), 3 := Body([5], [])])
  }

  /** Going back from the last of them to the second drops the transaction from the index, although the first still
      holds it. */
  lemma {:induction false} RepeatLost(bloom: Bloom)
    ensures var db := RepeatDb(bloom);
            && var old_, head := db.headers[3], db.headers[2];
            && Fork(db.headers, old_, head) == Some(1)
            && 5 in LookupOf(db, head) && 5 !in SwitchLookup(db, LookupOf(db, old_), old_, head, 1)
  {
    var db := RepeatDb(bloom);
    var first, head, old_ := db.headers[1], db.headers[2], db.headers[3];
    assert Parent(db.headers, old_) == Some(head) && Parent(db.headers, head) == Some(first);
    assert AncestorAt(db.headers, old_, 1) == AncestorAt(db.headers, head, 1) == Some(head);
    assert 5 in db.Txs(first) && 5 in db.Txs(old_) && db.Txs(head) == [];
    assert 5 in TxsAbove(db, old_, 1) && TxsAbove(db, head, 1) == {};
  }

  /** What `SetCanonical` announces: the dropped logs, then the adopted ones. A head that is already
      canonical adopts nothing but has its own logs announced once more. */
  function Announcement(db: BlockDb, old_: Header, head: Header): seq<Log>
    requires Fork(db.headers, old_, head).Some?
  {
    var fork := Fork(db.headers, old_, head).value;
    Marked(LogsAbove(db, old_, fork), true) +
    Marked(if fork < head.number then LogsAbove(db, head, fork) else db.Logs(head), false)
  }

  /** The announcement in terms of what is stored: the logs of all dropped blocks marked as removed, then those of
      all adopted blocks, lowest block first; a head that is already canonical has its own logs announced. */
  lemma Announced(db: BlockDb, old_: Header, head: Header, i: nat)
    requires db.Complete() && Rooted(db.headers, old_) && Rooted(db.headers, head)
    requires Fork(db.headers, old_, head).Some?
    ensures Covered(db.bodies, PathMap(db.headers, old_), 0, old_.number + 1)
            && Covered(db.bodies, PathMap(db.headers, head), 0, head.number + 1)
    ensures var fork, a := Fork(db.headers, old_, head).value, Announcement(db, old_, head);
            var gone := RangeLogs(db.bodies, PathMap(db.headers, old_), fork + 1, old_.number + 1);
            var lo := if fork < head.number then fork + 1 else head.number;
            var added := RangeLogs(db.bodies, PathMap(db.headers, head), lo, head.number + 1);
            && |a| == |gone| + |added|
            && (i < |gone| ==> a[i] == Log(gone[i], true))
            && (|gone| <= i < |a| ==> a[i] == Log(added[i - |gone|], false))
  {
    hide LogsAbove, PathMap, AncestorAt, Fork;
    var fork := Fork(db.headers, old_, head).value;
    ForkBelow(db, old_, head);
    LogsAre(db, old_, fork + 1);
    if fork < head.number { LogsAre(db, head, fork + 1); } else { HeadLogs(db, head); }
  }

  lemma ForkBelow(db: BlockDb, old_: Header, head: Header)
    requires Fork(db.headers, old_, head).Some?
    ensures Fork(db.headers, old_, head).value <= old_.number && Fork(db.headers, old_, head).value <= head.number
  {
  }

  lemma HeadLogs(db: BlockDb, head: Header)
    requires db.Complete() && Rooted(db.headers, head)
    ensures Covered(db.bodies, PathMap(db.headers, head), 0, head.number + 1)
    ensures db.Logs(head) == RangeLogs(db.bodies, PathMap(db.headers, head), head.number, head.number + 1)
  {
    PathCovered(db, head);
    assert RangeLogs(db.bodies, PathMap(db.headers, head), head.number, head.number) == [];
  }

  datatype ChainState = ChainState(db: BlockDb, canon: map<nat, Hash>, lookup: map<TxHash, nat>, td: map<Hash, nat>,
                                   head: Header, announced: seq<Log>)

  /** Storing a block whose parent's total difficulty is known; any other block is refused. */
  function AddBlock(s: ChainState, h: Header, body: Body): ChainState
    requires h.hash != ZERO_HASH
  {
    match GetTd(s.db.headers, s.td, h.parent, h.number - 1)
    case None => s
    case Some(ptd) => s.(db := BlockDb(s.db.headers[h.hash := h], s.db.bodies[h.hash := body]),
        td := s.td[h.hash := ptd + h.difficulty])
  }

  /** Making a block the head. */
  ghost function MakeHead(s: ChainState, head: Header): ChainState {
    if Fork(s.db.headers, s.head, head).None? then s
    else s.(canon := PathMap(s.db.headers, head),
            lookup := SwitchLookup(s.db, s.lookup, s.head, head, Fork(s.db.headers, s.head, head).value),
            head := head,
            announced := s.announced + Announcement(s.db, s.head, head))
  }

  /** The block collides with nothing that is stored. */
  ghost predicate NoClash(db: BlockDb, h: Header, body: Body) {
    h.hash in db.headers ==> db.headers[h.hash] == h && h.hash in db.bodies && db.bodies[h.hash] == body
  }

  function CanonicalHeader(hs: Store, canon: map<nat, Hash>, number: nat): Option<Header> {
    GetHeader(hs, ReadCanonicalHash(canon, number), number)
  }

  /** The block claims the state root of the canonical block at its height without being that block. */
  ghost predicate GhostState(hs: Store, canon: map<nat, Hash>, current: Header, block: Header) {
    var canonical := CanonicalHeader(hs, canon, block.number);
    && block.number <= current.number && canonical.Some?
    && canonical.value.hash != block.hash && canonical.value.root == block.root
  }

  /** Storing side blocks up to the first one that claims the state of another canonical block. */
  ghost function AddSide(s: ChainState, blocks: seq<Header>, bodies: seq<Body>): ChainState
    requires |bodies| == |blocks| && forall i :: 0 <= i < |blocks| ==> blocks[i].hash != ZERO_HASH
    decreases |blocks|
  {
    if blocks == [] || GhostState(s.db.headers, s.canon, s.head, blocks[0]) then s
    else AddSide(if blocks[0].hash in s.db.headers then s else AddBlock(s, blocks[0], bodies[0]), blocks[1..],
        bodies[1..])
  }

  /** Linked blocks on top of a stored one that collide with nothing. */
  ghost predicate SideChain(hs: Store, blocks: seq<Header>) {
    && (blocks != [] ==> Parent(hs, blocks[0]).Some?)
    && (forall i, j :: 0 <= i < j < |blocks| && j == i + 1
                       ==> blocks[j].parent == blocks[i].hash && blocks[j].number == blocks[i].number + 1)
    && (forall i :: 0 <= i < |blocks|
          ==> blocks[i].hash != ZERO_HASH && (blocks[i].hash in hs ==> hs[blocks[i].hash] == blocks[i]))
    && (forall i, j :: 0 <= i < j < |blocks| ==> blocks[i].hash != blocks[j].hash)
  }
}
