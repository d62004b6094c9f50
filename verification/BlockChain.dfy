/** The canonical-chain part of the block chain: `reorg`, `writeHeadBlock` and `SetCanonical` edit the
    canonical number map, the transaction lookup index and the head markers in place, and announce
    removed and added logs in batches. */
module BlockChain {
  import opened Common
  import opened HeaderStore
  import opened ChainSpec

  datatype ChainError = InvalidOldChain | InvalidNewChain | UnknownAncestor | SidechainGhostState

  datatype Outcome = Ok | Err(error: ChainError)

  /** One send on the removed-logs feed or on the logs feed. */
  datatype Emission = RemovedLogs(logs: seq<Log>) | NewLogs(logs: seq<Log>)

  /** Batches are never empty and only removed logs carry the removed flag. */
  ghost predicate WellFed(e: Emission) {
    e.logs != [] && forall l :: l in e.logs ==> (l.removed <==> e.RemovedLogs?)
  }

  const LOG_BATCH: nat := 512

  ghost function Flatten(es: seq<Emission>): seq<Log> {
    if es == [] then [] else Flatten(es[..|es| - 1]) + es[|es| - 1].logs
  }

  function CollectLogs(db: BlockDb, h: Header, removed: bool): seq<Log> { Marked(db.Logs(h), removed) }

  function HashDifference(a: seq<TxHash>, b: seq<TxHash>): (r: seq<TxHash>)
    ensures forall t :: t in r <==> t in a && t !in b
  {
    if a == [] then []
    else (if a[0] in b then [] else [a[0]]) + HashDifference(a[1..], b)
  }

  /** seg holds, newest first, the blocks from top down to just above bottom. */
  ghost predicate Walked(hs: Store, top: Header, seg: seq<Header>, bottom: Header) {
    && AncestorAt(hs, top, bottom.number) == Some(bottom)
    && |seg| == top.number - bottom.number
    && forall i :: 0 <= i < |seg| ==> AncestorAt(hs, top, top.number - i) == Some(seg[i])
  }

  /** No block at height n or above is an ancestor of both a and b. */
  ghost predicate NoCommonFrom(hs: Store, a: Header, b: Header, n: nat) {
    forall k: nat :: n <= k && AncestorAt(hs, a, k).Some? ==> AncestorAt(hs, a, k) != AncestorAt(hs, b, k)
  }

  lemma WalkedStep(hs: Store, top: Header, seg: seq<Header>, bottom: Header)
    requires Walked(hs, top, seg, bottom)
    ensures Parent(hs, bottom).Some? ==> Walked(hs, top, seg + [bottom], Parent(hs, bottom).value)
    ensures Parent(hs, bottom).None? ==> forall n: nat :: n < bottom.number ==> AncestorAt(hs, top, n).None?
  {
    if bottom.number > 0 {
      ParentOfAncestor(hs, top, bottom.number - 1);
    }
    if Parent(hs, bottom).None? {
      forall n: nat | n < bottom.number ensures AncestorAt(hs, top, n).None? {
        AncestorOfAncestor(hs, top, bottom.number, n);
      }
    }
  }

  /** The i-th walked block, and the bottom after the last one. */
  function At(seg: seq<Header>, bottom: Header, i: nat): Header
    requires i <= |seg|
  {
    if i < |seg| then seg[i] else bottom
  }

  lemma WalkedParent(hs: Store, top: Header, seg: seq<Header>, bottom: Header, i: nat)
    requires Walked(hs, top, seg, bottom) && i < |seg|
    ensures Parent(hs, seg[i]) == Some(At(seg, bottom, i + 1)) && seg[i].number == top.number - i
  {
    ParentOfAncestor(hs, top, seg[i].number - 1);
  }

  lemma MarkedConcat(a: seq<nat>, b: seq<nat>, removed: bool)
    ensures Marked(a + b, removed) == Marked(a, removed) + Marked(b, removed)
  {
  }

  lemma FlattenPush(es: seq<Emission>, e: Emission)
    ensures Flatten(es + [e]) == Flatten(es) + e.logs
  {
    assert (es + [e])[..|es|] == es;
  }

  lemma PathMapNonZero(hs: Store, h: Header)
    requires Stored(hs, h)
    ensures forall n :: n in PathMap(hs, h) ==> PathMap(hs, h)[n] != ZERO_HASH
  {
    forall n | n in PathMap(hs, h) ensures PathMap(hs, h)[n] != ZERO_HASH {
      PathMapAt(hs, h, n);
      AncestorStored(hs, h, n);
    }
  }

  /** Writing the path of an ancestor over the path of a descendant changes nothing. */
  lemma AncestorAbsorbed(hs: Store, h: Header, a: Header)
    requires AncestorAt(hs, h, a.number) == Some(a)
    ensures PathMap(hs, h) + PathMap(hs, a) == PathMap(hs, h)
  {
    PathMapPrefix(hs, h, a.number);
  }

  /** A header that shares an ancestor with a rooted one is rooted, and so is the tip `reorg` ends in. */
  lemma {:induction false} ForkRooted(hs: Store, old_: Header, head: Header, fork: nat)
    requires Rooted(hs, old_) && Stored(hs, head)
    requires AncestorAt(hs, head, fork).Some? && AncestorAt(hs, old_, fork) == AncestorAt(hs, head, fork)
    ensures Rooted(hs, head)
    ensures var tip := ReorgTip(hs, head, fork);
            Rooted(hs, tip) && AncestorAt(hs, tip, fork) == AncestorAt(hs, head, fork)
  {
    AncestorOfAncestor(hs, head, fork, 0);
    AncestorOfAncestor(hs, old_, fork, 0);
    if fork < head.number { assert AncestorAt(hs, head, 0) == AncestorAt(hs, Parent(hs, head).value, 0); }
  }

  /** After the new chain was written over the old one, cutting above the tip leaves the tip's path. */
  lemma CutAboveTip(hs: Store, old_: Header, tip: Header)
    requires Rooted(hs, old_) && Rooted(hs, tip)
    ensures var mid := PathMap(hs, old_) + PathMap(hs, tip);
            && (forall n :: n in mid ==> mid[n] != ZERO_HASH)
            && (forall n: nat :: n in mid <==> n <= old_.number || n <= tip.number)
            && PathMap(hs, tip) == map n | n in mid && n <= tip.number :: mid[n]
  {
    PathMapNonZero(hs, old_);
    PathMapNonZero(hs, tip);
    forall n: nat
      ensures n in PathMap(hs, old_) <==> n <= old_.number
      ensures n in PathMap(hs, tip) <==> n <= tip.number
    {
      PathMapRooted(hs, old_, n);
      PathMapRooted(hs, tip, n);
    }
  }

  /** A child of the head forks off at the head. */
  lemma ExtendFork(hs: Store, old_: Header, head: Header)
    requires Stored(hs, old_) && Parent(hs, head) == Some(old_)
    ensures Fork(hs, old_, head) == Some(old_.number)
  {
    assert AncestorAt(hs, head, old_.number) == AncestorAt(hs, old_, old_.number) == Some(old_);
  }

  /** Writing the head onto the tip gives the head's path and logs. */
  lemma WriteTip(db: BlockDb, head: Header, fork: nat)
    requires Rooted(db.headers, head) && AncestorAt(db.headers, head, fork).Some?
    ensures var tip := ReorgTip(db.headers, head, fork);
            && PathMap(db.headers, tip)[head.number := head.hash] == PathMap(db.headers, head)
            && Marked(LogsAbove(db, tip, fork), false) + Marked(db.Logs(head), false)
               == Marked(if fork < head.number then LogsAbove(db, head, fork) else db.Logs(head), false)
  {
    var tip := ReorgTip(db.headers, head, fork);
    MarkedConcat(LogsAbove(db, tip, fork), db.Logs(head), false);
  }

  lemma NothingAbove(db: BlockDb, h: Header)
    ensures LogsAbove(db, h, h.number) == [] && TxsAbove(db, h, h.number) == {} && LookupAbove(db, h, h.number) == map[]
  {
  }

  /** A block's logs come after those of its parent. */
  lemma LogsStep(db: BlockDb, p: Header, h: Header, n: nat, removed: bool)
    requires Parent(db.headers, h) == Some(p) && n < h.number
    ensures TxsAbove(db, h, n) == TxsAbove(db, p, n) + (set t | t in db.Txs(h))
    ensures Marked(LogsAbove(db, h, n), removed) == Marked(LogsAbove(db, p, n), removed) + CollectLogs(db, h, removed)
  {
    MarkedConcat(LogsAbove(db, p, n), db.Logs(h), removed);
  }

  /** Writing a child over a map that holds its parent's path gives a map that holds its own path. */
  lemma {:induction false} AdoptNumber(hs: Store, canon: map<nat, Hash>, p: Header, h: Header)
    requires Parent(hs, h) == Some(p)
    ensures (canon + PathMap(hs, p))[h.number := h.hash] == canon + PathMap(hs, h)
  {
  }

  lemma {:induction false} AdoptTxs(db: BlockDb, lookup: map<TxHash, nat>, p: Header, h: Header, n: nat)
    requires Parent(db.headers, h) == Some(p) && n < h.number
    ensures (lookup + LookupAbove(db, p, n)) + BlockLookup(db.Txs(h), h.number) == lookup + LookupAbove(db, h, n)
  {
    AddAssoc(lookup, LookupAbove(db, p, n), BlockLookup(db.Txs(h), h.number));
  }

  lemma Regroup(base: seq<Log>, a: seq<Log>, b: seq<Log>, c: seq<Log>)
    ensures base + a + b + c == base + (a + (b + c))
  {
  }

  class Chain {
    var db: BlockDb
    var canon: map<nat, Hash>
    var lookup: map<TxHash, nat>
    var td: map<Hash, nat>
    var currentHeader: Header
    var currentSnapBlock: Header
    var currentBlock: Header
    var emitted: seq<Emission>

    ghost predicate Valid()
      reads this
    {
      && db.Complete()
      && Rooted(db.headers, currentBlock)
      && currentHeader == currentSnapBlock == currentBlock
      && canon == PathMap(db.headers, currentBlock)
      && forall e :: e in emitted ==> WellFed(e)
    }

    /** The index holds exactly the transactions of the canonical chain. */
    ghost predicate Indexed()
      reads this
    {
      lookup == LookupOf(db, currentBlock)
    }

    ghost function State(): ChainState
      reads this
    {
      ChainState(db, canon, lookup, td, currentBlock, Flatten(emitted))
    }

    /** A database holding the genesis block only. */
    constructor (genesis: Header, body: Body)
      requires genesis.number == 0 && genesis.hash != ZERO_HASH && genesis.parent == ZERO_HASH
      ensures Valid() && Indexed() && currentBlock == genesis && emitted == []
      ensures db == BlockDb(map[genesis.hash := genesis], map[genesis.hash := body])
      ensures td == map[genesis.hash := genesis.difficulty]
    {
      db := BlockDb(map[genesis.hash := genesis], map[genesis.hash := body]);
      canon := map[0 := genesis.hash];
      lookup := BlockLookup(body.txs, 0);
      td := map[genesis.hash := genesis.difficulty];
      currentHeader, currentSnapBlock, currentBlock := genesis, genesis, genesis;
      emitted := [];
    }

    method WriteHeadBlock(h: Header)
      modifies this`canon, this`lookup, this`currentHeader, this`currentSnapBlock, this`currentBlock
      ensures canon == old(canon)[h.number := h.hash]
      ensures lookup == old(lookup) + BlockLookup(db.Txs(h), h.number)
      ensures currentHeader == currentSnapBlock == currentBlock == h
    {
      var txs := db.Txs(h);
      var entries: map<TxHash, nat> := map[];
      for i := 0 to |txs|
        invariant entries == BlockLookup(txs[..i], h.number)
      {
        entries := entries[txs[i] := h.number];
      }
      assert txs[..|txs|] == txs;
      // one atomic batch
      canon, lookup := canon[h.number := h.hash], lookup + entries;
      currentHeader := h;
      currentSnapBlock := h;
      currentBlock := h;
    }

    method Send(e: Emission)
      requires WellFed(e) && forall x :: x in emitted ==> WellFed(x)
      modifies this`emitted
      ensures emitted == old(emitted) + [e] && Flatten(emitted) == old(Flatten(emitted)) + e.logs
      ensures forall x :: x in emitted ==> WellFed(x)
    {
      FlattenPush(emitted, e);
      emitted := emitted + [e];
    }

    /** Queue the logs of one more block, sending the queue once it holds more than LOG_BATCH logs. */
    method Enqueue(pending: seq<Log>, logs: seq<Log>, removed: bool) returns (rest: seq<Log>)
      requires forall x :: x in emitted ==> WellFed(x)
      requires (forall l :: l in pending ==> l.removed == removed) && (forall l :: l in logs ==> l.removed == removed)
      modifies this`emitted
      ensures Flatten(emitted) + rest == old(Flatten(emitted)) + pending + logs
      ensures forall l :: l in rest ==> l.removed == removed
      ensures forall x :: x in emitted ==> WellFed(x)
      ensures var all := pending + logs;
              var batch := if removed then RemovedLogs(all) else NewLogs(all);
              if |all| > 512 then emitted == old(emitted) + [batch] && rest == []
              else emitted == old(emitted) && rest == all
    {
      rest := pending;
      if |logs| > 0 { rest := rest + logs; }
      assert rest == pending + logs;
      if |rest| > LOG_BATCH {
        Send(if removed then RemovedLogs(rest) else NewLogs(rest));
        rest := [];
      }
    }

    /** The first half of `reorg`: walk both heads back to their common ancestor. */
    method FindCommonBlock(head: Header)
      returns (r: Outcome, oldChain: seq<Header>, newChain: seq<Header>, common: Header)
      requires Rooted(db.headers, currentBlock) && Stored(db.headers, head)
      ensures r.Ok? <==> Fork(db.headers, currentBlock, head).Some?
      ensures r.Ok? ==> && Fork(db.headers, currentBlock, head) == Some(common.number)
                        && Walked(db.headers, currentBlock, oldChain, common)
                        && Walked(db.headers, head, newChain, common)
    {
      var hs := db.headers;
      common := head;
      var level;
      r, oldChain, newChain, level := LevelChains(head);
      if r.Err? { return; }
      var oldHead, newHead := Some(level.0), Some(level.1);
      while true
        invariant oldHead.Some? && newHead.Some? && oldHead.value.number == newHead.value.number
        invariant Walked(hs, currentBlock, oldChain, oldHead.value) && Walked(hs, head, newChain, newHead.value)
        invariant NoCommonFrom(hs, currentBlock, head, oldHead.value.number + 1)
        decreases oldHead.value.number
      {
        AncestorStored(hs, currentBlock, oldHead.value.number);
        AncestorStored(hs, head, newHead.value.number);
        if oldHead.value.hash == newHead.value.hash {
          common := oldHead.value;
          break;
        }
        WalkedStep(hs, currentBlock, oldChain, oldHead.value);
        WalkedStep(hs, head, newChain, newHead.value);
        oldChain := oldChain + [oldHead.value];
        newChain := newChain + [newHead.value];
        oldHead := Parent(hs, oldHead.value);
        if oldHead.None? { return Err(InvalidOldChain), oldChain, newChain, common; }
        newHead := Parent(hs, newHead.value);
        if newHead.None? { return Err(InvalidNewChain), oldChain, newChain, common; }
      }
      r := Ok;
    }

    /** Bring the longer of the two chains down to the height of the other. */
    method LevelChains(head: Header)
      returns (r: Outcome, oldChain: seq<Header>, newChain: seq<Header>, level: (Header, Header))
      requires Rooted(db.headers, currentBlock) && Stored(db.headers, head)
      ensures r.Err? ==> Fork(db.headers, currentBlock, head).None?
      ensures r.Ok?
              ==> && level.0.number == level.1.number
                  && NoCommonFrom(db.headers, currentBlock, head, level.0.number + 1)
                  && Walked(db.headers, currentBlock, oldChain, level.0)
                  && Walked(db.headers, head, newChain, level.1)
    {
      var hs := db.headers;
      oldChain, newChain, level := [], [], (currentBlock, head);
      var oldHead, newHead := Some(currentBlock), Some(head);
      if currentBlock.number > head.number {
        while oldHead.Some? && oldHead.value.number != head.number
          invariant oldHead.Some?
                    ==> Walked(hs, currentBlock, oldChain, oldHead.value) && oldHead.value.number >= head.number
          invariant oldHead.None? ==> AncestorAt(hs, currentBlock, head.number).None?
          decreases if oldHead.Some? then oldHead.value.number + 1 else 0
        {
          WalkedStep(hs, currentBlock, oldChain, oldHead.value);
          oldChain := oldChain + [oldHead.value];
          oldHead := Parent(hs, oldHead.value);
        }
      } else {
        while newHead.Some? && newHead.value.number != currentBlock.number
          invariant newHead.Some?
                    ==> Walked(hs, head, newChain, newHead.value) && newHead.value.number >= currentBlock.number
          invariant newHead.None? ==> forall n: nat :: n <= currentBlock.number ==> AncestorAt(hs, head, n).None?
          decreases if newHead.Some? then newHead.value.number + 1 else 0
        {
          WalkedStep(hs, head, newChain, newHead.value);
          newChain := newChain + [newHead.value];
          newHead := Parent(hs, newHead.value);
        }
      }
      if oldHead.None? {
        AncestorsAbove(hs, currentBlock, 0, head.number);
        assert false;
      }
      if newHead.None? {
        return Err(InvalidNewChain), oldChain, newChain, level;
      }
      r, level := Ok, (oldHead.value, newHead.value);
    }

    /** Announce the logs of the dropped blocks, oldest block first. */
    method EmitRemoved(oldChain: seq<Header>, common: Header)
      requires Walked(db.headers, currentBlock, oldChain, common)
      requires forall e :: e in emitted ==> WellFed(e)
      modifies this`emitted
      ensures Flatten(emitted) == old(Flatten(emitted)) + Marked(LogsAbove(db, currentBlock, common.number), true)
      ensures forall e :: e in emitted ==> WellFed(e)
    {
      hide LogsAbove, Flatten, WellFed, TxsAbove;
      NothingAbove(db, common);
      var deletedLogs: seq<Log> := [];
      var i := |oldChain|;
      while i > 0
        invariant 0 <= i <= |oldChain|
        invariant Flatten(emitted) + deletedLogs
                  == old(Flatten(emitted)) + Marked(LogsAbove(db, At(oldChain, common, i), common.number), true)
        invariant forall e :: e in emitted ==> WellFed(e)
        invariant forall l :: l in deletedLogs ==> l.removed
      {
        i := i - 1;
        WalkedParent(db.headers, currentBlock, oldChain, common, i);
        LogsStep(db, At(oldChain, common, i + 1), oldChain[i], common.number, true);
        deletedLogs := Enqueue(deletedLogs, CollectLogs(db, oldChain[i], true), true);
      }
      assert At(oldChain, common, 0) == currentBlock;
      if |deletedLogs| > 0 { Send(RemovedLogs(deletedLogs)); }
    }

    /** The transactions of the dropped blocks, newest block first. */
    method CollectDeleted(oldChain: seq<Header>, common: Header) returns (deletedTxs: seq<TxHash>)
      requires Walked(db.headers, currentBlock, oldChain, common)
      ensures (set t | t in deletedTxs) == TxsAbove(db, currentBlock, common.number)
    {
      deletedTxs := [];
      for i := 0 to |oldChain|
        invariant (set t | t in deletedTxs) + TxsAbove(db, At(oldChain, common, i), common.number)
                  == TxsAbove(db, currentBlock, common.number)
      {
        WalkedParent(db.headers, currentBlock, oldChain, common, i);
        deletedTxs := deletedTxs + db.Txs(oldChain[i]);
      }
    }

    /** Make the new chain canonical block by block, except for its head. */
    method Adopt(head: Header, newChain: seq<Header>, common: Header) returns (rebirthTxs: seq<TxHash>)
      requires Walked(db.headers, head, newChain, common)
      requires canon + PathMap(db.headers, common) == canon
      requires forall e :: e in emitted ==> WellFed(e)
      modifies this`emitted, this`canon, this`lookup, this`currentHeader, this`currentSnapBlock, this`currentBlock
      ensures var tip := if newChain == [] then common else At(newChain, common, 1);
              && canon == old(canon) + PathMap(db.headers, tip)
              && lookup == old(lookup) + LookupAbove(db, tip, common.number)
              && (set t | t in rebirthTxs) == TxsAbove(db, tip, common.number)
              && Flatten(emitted) == old(Flatten(emitted)) + Marked(LogsAbove(db, tip, common.number), false)
      ensures forall e :: e in emitted ==> WellFed(e)
    {
      hide PathMap, LookupAbove, LogsAbove, TxsAbove, Flatten, BlockLookup;
      NothingAbove(db, common);
      rebirthTxs := [];
      var rebirthLogs: seq<Log> := [];
      var i := |newChain|;
      while i > 1
        invariant if newChain == [] then i == 0 else 1 <= i <= |newChain|
        invariant canon == old(canon) + PathMap(db.headers, At(newChain, common, i))
        invariant lookup == old(lookup) + LookupAbove(db, At(newChain, common, i), common.number)
        invariant (set t | t in rebirthTxs) == TxsAbove(db, At(newChain, common, i), common.number)
        invariant Flatten(emitted) + rebirthLogs
                  == old(Flatten(emitted)) + Marked(LogsAbove(db, At(newChain, common, i), common.number), false)
        invariant forall e :: e in emitted ==> WellFed(e)
        invariant forall l :: l in rebirthLogs ==> !l.removed
      {
        i := i - 1;
        WalkedParent(db.headers, head, newChain, common, i);
        LogsStep(db, At(newChain, common, i + 1), newChain[i], common.number, false);
        AdoptNumber(db.headers, old(canon), At(newChain, common, i + 1), newChain[i]);
        AdoptTxs(db, old(lookup), At(newChain, common, i + 1), newChain[i], common.number);
        rebirthTxs := rebirthTxs + db.Txs(newChain[i]);
        rebirthLogs := Enqueue(rebirthLogs, CollectLogs(db, newChain[i], false), false);
        WriteHeadBlock(newChain[i]);
      }
      if |rebirthLogs| > 0 { Send(NewLogs(rebirthLogs)); }
    }

    /** Delete the lookup entries of transactions that are gone and every number marker above `number`,
        up to the first gap. */
    method DropStale(deletedTxs: seq<TxHash>, rebirthTxs: seq<TxHash>, number: nat, ghost top: nat)
      requires forall n :: n in canon ==> canon[n] != ZERO_HASH
      requires number <= top && forall n: nat :: number < n ==> (n in canon <==> n <= top)
      modifies this`canon, this`lookup
      ensures lookup == old(lookup) - ((set t | t in deletedTxs) - (set t | t in rebirthTxs))
      ensures canon == map n | n in old(canon) && n <= number :: old(canon)[n]
    {
      var gone := HashDifference(deletedTxs, rebirthTxs);
      assert (set t | t in gone) == (set t | t in deletedTxs) - (set t | t in rebirthTxs);
      var newLookup := WithoutTxs(lookup, gone);
      var newCanon := WithoutNumbers(canon, number, top);
      canon, lookup := newCanon, newLookup;
    }

    static method WithoutTxs(lookup: map<TxHash, nat>, gone: seq<TxHash>) returns (r: map<TxHash, nat>)
      ensures r == lookup - (set t | t in gone)
    {
      r := lookup;
      for k := 0 to |gone|
        invariant r == lookup - (set t | t in gone[..k])
      {
        r := r - {gone[k]};
      }
      assert gone[..|gone|] == gone;
    }

    static method WithoutNumbers(canon: map<nat, Hash>, number: nat, ghost top: nat) returns (r: map<nat, Hash>)
      requires forall n :: n in canon ==> canon[n] != ZERO_HASH
      requires number <= top && forall n: nat :: number < n ==> (n in canon <==> n <= top)
      ensures r == map n | n in canon && n <= number :: canon[n]
    {
      r := canon;
      var i := number + 1;
      while true
        invariant number < i <= top + 1
        invariant r == map n | n in canon && !(number < n < i) :: canon[n]
        decreases top + 1 - i
      {
        var hash := ReadCanonicalHash(canon, i);
        if hash == ZERO_HASH { break; }
        r := r - {i};
        i := i + 1;
      }
    }

    method Reorg(head: Header) returns (r: Outcome)
      requires Valid() && Stored(db.headers, head)
      modifies this`emitted, this`canon, this`lookup, this`currentHeader, this`currentSnapBlock, this`currentBlock
      ensures r.Ok? <==> Fork(db.headers, old(currentBlock), head).Some?
      ensures r.Err? ==> Valid() && State() == old(State())
      ensures r.Ok? ==> var fork := Fork(db.headers, old(currentBlock), head).value;
                        var tip := ReorgTip(db.headers, head, fork);
                        && canon == PathMap(db.headers, tip)
                        && lookup == (old(lookup) + LookupAbove(db, tip, fork))
                                     - (TxsAbove(db, old(currentBlock), fork) - TxsAbove(db, tip, fork))
                        && Flatten(emitted)
                            == old(Flatten(emitted)) + Marked(LogsAbove(db, old(currentBlock), fork), true)
                                               + Marked(LogsAbove(db, tip, fork), false)
      ensures forall e :: e in emitted ==> WellFed(e)
    {
      hide PathMap, LookupAbove, LogsAbove, TxsAbove, Flatten, WellFed;
      var oldChain, newChain, common;
      r, oldChain, newChain, common := FindCommonBlock(head);
      if r.Err? { return; }
      ghost var old_ := currentBlock;
      ghost var tip := if newChain == [] then common else At(newChain, common, 1);
      EmitRemoved(oldChain, common);
      var deletedTxs := CollectDeleted(oldChain, common);
      AncestorAbsorbed(db.headers, old_, common);
      var rebirthTxs := Adopt(head, newChain, common);
      var number := common.number;
      if |newChain| > 1 { number := newChain[1].number; }
      if newChain != [] { WalkedParent(db.headers, head, newChain, common, 0); }
      assert tip == ReorgTip(db.headers, head, common.number) && number == tip.number;
      ForkRooted(db.headers, old_, head, common.number);
      CutAboveTip(db.headers, old_, tip);
      DropStale(deletedTxs, rebirthTxs, number, if old_.number > tip.number then old_.number else tip.number);
    }

    method SetCanonical(head: Header) returns (r: Outcome)
      requires Valid() && Stored(db.headers, head)
      requires head.parent == currentBlock.hash ==> Parent(db.headers, head).Some?
      modifies this`emitted, this`canon, this`lookup, this`currentHeader, this`currentSnapBlock, this`currentBlock
      ensures Valid()
      ensures r.Ok? <==> Fork(db.headers, old(currentBlock), head).Some?
      ensures State() == MakeHead(old(State()), head)
    {
      hide PathMap, LookupAbove, TxsAbove, LogsAbove, Flatten, WellFed, BlockLookup;
      ghost var old_ := currentBlock;
      if head.parent != currentBlock.hash {
        r := Reorg(head);
        if r.Err? { return; }
      } else {
        ExtendFork(db.headers, old_, head);
        NothingAbove(db, old_);
        r := Ok;
      }
      ghost var fork := Fork(db.headers, old_, head).value;
      ForkRooted(db.headers, old_, head, fork);
      WriteHeadBlock(head);
      WriteTip(db, head, fork);
      var logs := CollectLogs(db, head, false);
      Regroup(old(Flatten(emitted)), Marked(LogsAbove(db, old_, fork), true),
              Marked(LogsAbove(db, ReorgTip(db.headers, head, fork), fork), false), logs);
      if |logs| > 0 { Send(NewLogs(logs)); }
    }

    /** The database part of `writeBlockWithState`. */
    method WriteBlock(h: Header, body: Body) returns (r: Outcome)
      requires h.hash != ZERO_HASH
      modifies this`db, this`td
      ensures r == if GetTd(old(db.headers), old(td), h.parent, h.number - 1).Some? then Ok else Err(UnknownAncestor)
      ensures State() == AddBlock(old(State()), h, body)
      ensures old(Valid()) && NoClash(old(db), h, body) ==> Valid() && (old(Indexed()) ==> Indexed())
    {
      hide PathMap, LookupOf, AncestorAt, UniqueTxs, LogsAbove, WellFed, Flatten;
      var ptd := GetTd(db.headers, td, h.parent, h.number - 1);
      if ptd.None? { return Err(UnknownAncestor); }
      var externTd := h.difficulty + ptd.value;
      // one atomic batch
      td, db := td[h.hash := externTd], BlockDb(db.headers[h.hash := h], db.bodies[h.hash := body]);
      if old(Valid()) && NoClash(old(db), h, body) { SpecFrame(old(db), db, currentBlock); }
      r := Ok;
    }

    function GetHeaderByNumber(number: nat): Option<Header>
      reads this
    {
      CanonicalHeader(db.headers, canon, number)
    }

    /** One turn of the storing loop of `insertSideChain`; externTd is the parent's total difficulty once known. */
    method StoreSideBlock(block: Header, body: Body, externTd: Option<nat>, ghost genesis: Hash)
      returns (r: Outcome, newTd: Option<nat>)
      requires db.Complete() && ParentClosed(db.headers, genesis) && TdExact(db.headers, td)
      requires Parent(db.headers, block).Some? && block.hash != ZERO_HASH
      requires block.hash in db.headers ==> db.headers[block.hash] == block
      requires externTd.Some? ==> externTd.value == PathDifficulty(db.headers, Parent(db.headers, block).value)
      modifies this`db, this`td
      ensures db.Complete() && ParentClosed(db.headers, genesis) && TdExact(db.headers, td) && db.Extends(old(db))
      ensures r == if GhostState(old(db.headers), canon, currentBlock, block) then Err(SidechainGhostState) else Ok
      ensures r.Ok?
              ==> db.headers == old(db.headers)[block.hash := block] && newTd == Some(PathDifficulty(db.headers, block))
      ensures State() == if r.Err? || block.hash in old(db.headers) then old(State())
                         else AddBlock(old(State()), block, body)
    {
      hide PathDifficulty, ParentClosed, TdExact, Flatten;
      newTd := externTd;
      GetTdExact(db.headers, td, block.hash, block.number);
      GetTdExact(db.headers, td, block.parent, block.number - 1);
      if currentBlock.number >= block.number {
        var canonical := GetHeaderByNumber(block.number);
        if canonical.Some? && canonical.value.hash == block.hash {
          assert db.headers[block.hash := block] == db.headers;
          return Ok, GetTd(db.headers, td, block.hash, block.number);
        }
        if canonical.Some? && canonical.value.root == block.root { return Err(SidechainGhostState), newTd; }
      }
      if newTd.None? { newTd := GetTd(db.headers, td, block.parent, block.number - 1); }
      newTd := Some(newTd.value + block.difficulty);
      AddHeader(db.headers, genesis, block);
      if GetHeader(db.headers, block.hash, block.number).None? {
        AddTd(db.headers, db.headers[block.hash := block], genesis, td, block);
        td := td[block.hash := newTd.value];
        db := BlockDb(db.headers[block.hash := block], db.bodies[block.hash := body]);
      } else {
        assert db.headers[block.hash := block] == db.headers;
      }
      r := Ok;
    }

    /** The storing loop of `insertSideChain` over the linked blocks whose ancestor state is pruned. It stops at the
        first block that claims the state of another canonical block. */
    method InsertSideBlocks(blocks: seq<Header>, bodies: seq<Body>, ghost genesis: Hash) returns (r: Outcome, done: nat)
      requires Valid() && ParentClosed(db.headers, genesis) && TdExact(db.headers, td)
      requires |bodies| == |blocks| && SideChain(db.headers, blocks)
      modifies this`db, this`td
      ensures Valid() && (old(Indexed()) ==> Indexed())
      ensures ParentClosed(db.headers, genesis) && TdExact(db.headers, td) && db.Extends(old(db))
      ensures State() == AddSide(old(State()), blocks, bodies)
      ensures done <= |blocks| && db.headers.Keys == old(db.headers).Keys + Hashes(blocks, done)
      ensures forall i :: 0 <= i < done ==> SideStored(old(State()), db, blocks[i], bodies[i])
      ensures r == if done == |blocks| then Ok else Err(SidechainGhostState)
      ensures done < |blocks| ==> GhostState(old(db.headers), canon, currentBlock, blocks[done])
      ensures forall n: nat :: n <= currentBlock.number ==> n in canon && canon[n] in db.headers
      ensures forall i :: 0 <= i < |blocks| && i <= done
                ==> (i < done <==>
                     blocks[i].number > currentBlock.number || canon[blocks[i].number] == blocks[i].hash
                     || db.headers[canon[blocks[i].number]].root != blocks[i].root)
    {
      hide PathDifficulty, ParentClosed, TdExact, GhostState, AddSide, AddBlock, PathMap, LookupOf, AncestorAt,
        LogsAbove, UniqueTxs, Flatten, WellFed, SideInv, SideStored, Hashes, SideChain;
      ghost var s := State();
      CanonicalStored(db.headers, currentBlock);
      var externTd: Option<nat> := None;
      r, done := Ok, 0;
      SideStart(s, genesis, blocks, bodies);
      while done < |blocks|
        invariant done <= |blocks| && r == Ok && SideInv(s, State(), genesis, blocks, bodies, done, externTd)
      {
        ghost var was, wasTd := State(), externTd;
        SideReady(s, was, genesis, blocks, bodies, done, externTd);
        r, externTd := StoreSideBlock(blocks[done], bodies[done], externTd, genesis);
        if r.Err? {
          GhostFrame(s, was, blocks[done]);
          SideEnd(s, was, genesis, blocks, bodies, done, wasTd);
          SpecFrame(s.db, db, currentBlock);
          ClaimsAre(s, db, blocks, bodies, done);
          return;
        }
        GhostFrame(s, was, blocks[done]);
        SideTurn(s, was, State(), genesis, blocks, bodies, done, wasTd, externTd);
        done := done + 1;
      }
      SideEnd(s, State(), genesis, blocks, bodies, done, externTd);
      SpecFrame(s.db, db, currentBlock);
      ClaimsAre(s, db, blocks, bodies, done);
    }
  }

  /** The blocks before done do not claim the state of another canonical block, in terms of what is stored. */
  lemma ClaimsAre(s: ChainState, db: BlockDb, blocks: seq<Header>, bodies: seq<Body>, done: nat)
    requires Rooted(s.db.headers, s.head) && s.canon == PathMap(s.db.headers, s.head) && db.Extends(s.db)
    requires done <= |blocks| == |bodies|
             && forall i :: 0 <= i < done ==> SideStored(s, db, blocks[i], bodies[i])
    requires done < |blocks| ==> GhostState(s.db.headers, s.canon, s.head, blocks[done])
    ensures forall n: nat :: n <= s.head.number ==> n in s.canon && s.canon[n] in db.headers
    ensures forall i :: 0 <= i < |blocks| && i <= done
              ==> (i < done <==>
                   blocks[i].number > s.head.number || s.canon[blocks[i].number] == blocks[i].hash
                   || db.headers[s.canon[blocks[i].number]].root != blocks[i].root)
  {
    hide PathMap;
    forall n: nat | n <= s.head.number
      ensures n in s.canon && s.canon[n] in s.db.headers && s.db.headers[s.canon[n]].number == n
              && s.canon[n] in db.headers && db.headers[s.canon[n]] == s.db.headers[s.canon[n]]
    {
      PathMapRooted(s.db.headers, s.head, n);
      PathMapAt(s.db.headers, s.head, n);
      AncestorStored(s.db.headers, s.head, n);
    }
    forall i | 0 <= i < |blocks| && i <= done
      ensures i < done <==> !GhostState(s.db.headers, s.canon, s.head, blocks[i])
    {
      if i < done { assert SideStored(s, db, blocks[i], bodies[i]); }
    }
  }

  /** Where the import of side blocks stands after the first done of them: they are stored on top of what was there,
      with exact difficulties, and what is left to do is the rest. */
  ghost predicate SideInv(s: ChainState, c: ChainState, genesis: Hash, blocks: seq<Header>, bodies: seq<Body>,
                          done: nat,
                          externTd: Option<nat>)
  {
    && |bodies| == |blocks| && done <= |blocks| && SideChain(s.db.headers, blocks)
    && c == s.(db := c.db, td := c.td)
    && c.db.Complete() && ParentClosed(c.db.headers, genesis) && TdExact(c.db.headers, c.td) && c.db.Extends(s.db)
    && c.db.headers.Keys == s.db.headers.Keys + Hashes(blocks, done)
    && (forall k :: 0 <= k < done ==> SideStored(s, c.db, blocks[k], bodies[k]))
    && (done > 0 ==> Stored(c.db.headers, blocks[done - 1]))
    && (forall k :: done <= k < |blocks| ==> (blocks[k].hash in c.db.headers <==> blocks[k].hash in s.db.headers))
    && (if done == 0 then externTd.None? else externTd == Some(PathDifficulty(c.db.headers, blocks[done - 1])))
    && AddSide(c, blocks[done..], bodies[done..]) == AddSide(s, blocks, bodies)
  }

  /** The block claims no other block's state, and is stored with the given body unless it was there before. */
  ghost predicate SideStored(s: ChainState, db: BlockDb, block: Header, body: Body) {
    && !GhostState(s.db.headers, s.canon, s.head, block) && Stored(db.headers, block)
    && (block.hash !in s.db.headers ==> block.hash in db.bodies && db.bodies[block.hash] == body)
  }

  lemma AddBlockFrame(c: ChainState, h: Header, body: Body)
    requires h.hash != ZERO_HASH
    ensures AddBlock(c, h, body) == c.(db := AddBlock(c, h, body).db, td := AddBlock(c, h, body).td)
  {
  }

  lemma AddSideStep(c: ChainState, blocks: seq<Header>, bodies: seq<Body>)
    requires |bodies| == |blocks| > 0 && forall i :: 0 <= i < |blocks| ==> blocks[i].hash != ZERO_HASH
    requires !GhostState(c.db.headers, c.canon, c.head, blocks[0])
    ensures AddSide(c, blocks, bodies)
         == AddSide(if blocks[0].hash in c.db.headers then c else AddBlock(c, blocks[0], bodies[0]), blocks[1..],
             bodies[1..])
  {
  }

  lemma SideKept(s: ChainState, c: ChainState, c': ChainState, blocks: seq<Header>, bodies: seq<Body>, done: nat,
                 k: nat)
    requires |bodies| == |blocks| && k <= done < |blocks| && blocks[done].hash != ZERO_HASH
    requires k < done ==> SideStored(s, c.db, blocks[k], bodies[k]) && blocks[k].hash != blocks[done].hash
    requires !GhostState(s.db.headers, s.canon, s.head, blocks[done])
    requires blocks[done].hash in c.db.headers ==> blocks[done].hash in s.db.headers
    requires c' == if blocks[done].hash in c.db.headers then c else AddBlock(c, blocks[done], bodies[done])
    requires c'.db.headers == c.db.headers[blocks[done].hash := blocks[done]]
    ensures SideStored(s, c'.db, blocks[k], bodies[k])
  {
    hide GhostState;
  }

  lemma CanonicalStored(hs: Store, head: Header)
    requires Stored(hs, head)
    ensures forall n :: n in PathMap(hs, head) ==> PathMap(hs, head)[n] in hs
  {
    forall n | n in PathMap(hs, head) ensures PathMap(hs, head)[n] in hs {
      PathMapAt(hs, head, n);
      AncestorStored(hs, head, n);
    }
  }

  /** Storing more blocks changes no canonical block. */
  lemma GhostFrame(s: ChainState, c: ChainState, block: Header)
    requires c.db.Extends(s.db) && c.canon == s.canon && c.head == s.head
             && forall n :: n in s.canon ==> s.canon[n] in s.db.headers
    ensures GhostState(c.db.headers, c.canon, c.head, block) == GhostState(s.db.headers, s.canon, s.head, block)
  {
  }

  lemma SideStart(s: ChainState, genesis: Hash, blocks: seq<Header>, bodies: seq<Body>)
    requires s.db.Complete() && ParentClosed(s.db.headers, genesis) && TdExact(s.db.headers, s.td)
    requires |bodies| == |blocks| && SideChain(s.db.headers, blocks)
    ensures SideInv(s, s, genesis, blocks, bodies, 0, None)
  {
    assert blocks[0..] == blocks && bodies[0..] == bodies;
  }

  lemma SideReady(s: ChainState, c: ChainState, genesis: Hash, blocks: seq<Header>, bodies: seq<Body>, done: nat,
                  externTd: Option<nat>)
    requires SideInv(s, c, genesis, blocks, bodies, done, externTd) && done < |blocks|
    ensures c.db.Complete() && ParentClosed(c.db.headers, genesis) && TdExact(c.db.headers, c.td)
    ensures Parent(c.db.headers, blocks[done]).Some? && blocks[done].hash != ZERO_HASH
    ensures blocks[done].hash in c.db.headers ==> c.db.headers[blocks[done].hash] == blocks[done]
    ensures externTd.Some? ==> externTd.value == PathDifficulty(c.db.headers, Parent(c.db.headers, blocks[done]).value)
    ensures c.db.Extends(s.db) && c.canon == s.canon && c.head == s.head
  {
    hide PathDifficulty, ParentClosed, TdExact, AddSide, Hashes, SideStored;
    if done > 0 { assert Parent(c.db.headers, blocks[done]) == Some(blocks[done - 1]); }
  }

  lemma SideTurn(s: ChainState, c: ChainState, c': ChainState, genesis: Hash, blocks: seq<Header>, bodies: seq<Body>,
                 done: nat,
                 externTd: Option<nat>, newTd: Option<nat>)
    requires SideInv(s, c, genesis, blocks, bodies, done, externTd) && done < |blocks| && blocks[done].hash != ZERO_HASH
    requires !GhostState(c.db.headers, c.canon, c.head, blocks[done])
             && !GhostState(s.db.headers, s.canon, s.head, blocks[done])
    requires c' == if blocks[done].hash in c.db.headers then c else AddBlock(c, blocks[done], bodies[done])
    requires c'.db.headers == c.db.headers[blocks[done].hash := blocks[done]] && c'.db.Extends(c.db)
    requires c'.db.Complete() && ParentClosed(c'.db.headers, genesis) && TdExact(c'.db.headers, c'.td)
    requires newTd == Some(PathDifficulty(c'.db.headers, blocks[done]))
    ensures SideInv(s, c', genesis, blocks, bodies, done + 1, newTd)
  {
    hide PathDifficulty, ParentClosed, TdExact, GhostState, SideStored, AddSide, AddBlock;
    AddSideStep(c, blocks[done..], bodies[done..]);
    AddBlockFrame(c, blocks[done], bodies[done]);
    forall k | 0 <= k <= done ensures SideStored(s, c'.db, blocks[k], bodies[k]) {
      SideKept(s, c, c', blocks, bodies, done, k);
    }
    assert blocks[done..][1..] == blocks[done + 1..] && bodies[done..][1..] == bodies[done + 1..];
  }

  lemma SideEnd(s: ChainState, c: ChainState, genesis: Hash, blocks: seq<Header>, bodies: seq<Body>, done: nat,
                externTd: Option<nat>)
    requires SideInv(s, c, genesis, blocks, bodies, done, externTd)
    requires done == |blocks| || GhostState(c.db.headers, c.canon, c.head, blocks[done])
    ensures c == AddSide(s, blocks, bodies) && c == s.(db := c.db, td := c.td)
    ensures c.db.Complete() && ParentClosed(c.db.headers, genesis) && TdExact(c.db.headers, c.td) && c.db.Extends(s.db)
    ensures c.db.headers.Keys == s.db.headers.Keys + Hashes(blocks, done)
    ensures forall k :: 0 <= k < done ==> SideStored(s, c.db, blocks[k], bodies[k])
  {
    hide PathDifficulty, ParentClosed, TdExact, GhostState, AddBlock, Hashes, SideStored;
  }
}
