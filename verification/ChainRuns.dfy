/** Every run of block writes, side chain imports and `SetCanonical` calls, on the specification that the methods of
    BlockChain.Chain are proved against, and the methods carrying such a run out. */
module ChainRuns {
  import opened Common
  import opened HeaderStore
  import opened ChainSpec
  import BlockChain

  datatype Op =
    | WriteBlock(header: Header, body: Body)
    | ImportSide(blocks: seq<Header>, bodies: seq<Body>)
    | SetCanonical(hash: Hash)

  /** Hashes do not collide, and side blocks are linked onto a stored block. */
  ghost predicate LegalOp(s: ChainState, op: Op) {
    match op
    case WriteBlock(h, body) => h.hash != ZERO_HASH && NoClash(s.db, h, body)
    case ImportSide(blocks, bodies) => |bodies| == |blocks| && SideChain(s.db.headers, blocks)
    case SetCanonical(_) => true
  }

  ghost function Apply(s: ChainState, op: Op): ChainState
    requires LegalOp(s, op)
  {
    match op
    case WriteBlock(h, body) => AddBlock(s, h, body)
    case ImportSide(blocks, bodies) => AddSide(s, blocks, bodies)
    case SetCanonical(hash) => if hash in s.db.headers then MakeHead(s, s.db.headers[hash]) else s
  }

  ghost predicate LegalRun(s: ChainState, ops: seq<Op>)
    decreases |ops|
  {
    ops != [] ==> LegalOp(s, ops[0]) && LegalRun(Apply(s, ops[0]), ops[1..])
  }

  ghost function Run(s: ChainState, ops: seq<Op>): ChainState
    requires LegalRun(s, ops)
    decreases |ops|
  {
    if ops == [] then s else Run(Apply(s, ops[0]), ops[1..])
  }

  ghost predicate StoreOk(s: ChainState, genesis: Hash) {
    s.db.Complete() && ParentClosed(s.db.headers, genesis) && TdExact(s.db.headers, s.td)
  }

  /** The store is parent-closed with exact total difficulties, and the canonical map is exactly that of the head. */
  ghost predicate Inv(s: ChainState, genesis: Hash) {
    StoreOk(s, genesis) && Stored(s.db.headers, s.head) && s.canon == PathMap(s.db.headers, s.head)
  }

  /** The index holds exactly the transactions of the canonical chain. */
  ghost predicate Indexed(s: ChainState) {
    s.lookup == LookupOf(s.db, s.head)
  }

  /** The same chain over a store that only grew. */
  ghost predicate Grown(s: ChainState, c: ChainState) {
    c == s.(db := c.db, td := c.td) && c.db.Extends(s.db)
  }

  lemma GrownKeeps(s: ChainState, c: ChainState, genesis: Hash)
    requires Inv(s, genesis) && Grown(s, c) && StoreOk(c, genesis)
    ensures Inv(c, genesis) && LogsOf(c.db, c.head) == LogsOf(s.db, s.head) && (Indexed(s) ==> Indexed(c))
  {
    hide ParentClosed, TdExact, PathMap, LookupOf, LogsAbove, UniqueTxs;
    ClosedRooted(s.db.headers, genesis, s.head);
    SpecFrame(s.db, c.db, s.head);
  }

  lemma AddBlockKeeps(s: ChainState, genesis: Hash, h: Header, body: Body)
    requires StoreOk(s, genesis) && h.hash != ZERO_HASH && NoClash(s.db, h, body)
    ensures StoreOk(AddBlock(s, h, body), genesis) && Grown(s, AddBlock(s, h, body))
    ensures Parent(s.db.headers, h).Some?
            ==> AddBlock(s, h, body).db == BlockDb(s.db.headers[h.hash := h], s.db.bodies[h.hash := body])
    ensures Parent(s.db.headers, h).None? ==> AddBlock(s, h, body) == s
  {
    hide PathDifficulty, ParentClosed;
    GetTdExact(s.db.headers, s.td, h.parent, h.number - 1);
    if Parent(s.db.headers, h).Some? {
      AddHeader(s.db.headers, genesis, h);
      AddTd(s.db.headers, s.db.headers[h.hash := h], genesis, s.td, h);
    }
  }

  /** A block write keeps the chain, and stores the block exactly when its parent is stored. */
  lemma WriteKeeps(s: ChainState, genesis: Hash, h: Header, body: Body)
    requires Inv(s, genesis) && LegalOp(s, WriteBlock(h, body))
    ensures Inv(Apply(s, WriteBlock(h, body)), genesis)
    ensures Parent(s.db.headers, h).Some?
            ==> var db := Apply(s, WriteBlock(h, body)).db;
                Stored(db.headers, h) && h.hash in db.bodies && db.bodies[h.hash] == body
    ensures Parent(s.db.headers, h).None? ==> Apply(s, WriteBlock(h, body)) == s
  {
    hide ParentClosed, TdExact, PathMap, AddBlock;
    AddBlockKeeps(s, genesis, h, body);
    GrownKeeps(s, AddBlock(s, h, body), genesis);
  }

  lemma SideRest(s: ChainState, genesis: Hash, blocks: seq<Header>, bodies: seq<Body>)
    requires StoreOk(s, genesis) && |bodies| == |blocks| > 0 && SideChain(s.db.headers, blocks)
    ensures var c := if blocks[0].hash in s.db.headers then s else AddBlock(s, blocks[0], bodies[0]);
            StoreOk(c, genesis) && Grown(s, c) && SideChain(c.db.headers, blocks[1..])
  {
    hide ParentClosed, TdExact, AddBlock;
    if blocks[0].hash in s.db.headers {
      assert s.db.headers[blocks[0].hash := blocks[0]] == s.db.headers;
    } else {
      AddBlockKeeps(s, genesis, blocks[0], bodies[0]);
    }
  }

  /** Importing side blocks keeps the store closed and exact, and only adds to it. */
  lemma {:induction false} SideKeeps(s: ChainState, genesis: Hash, blocks: seq<Header>, bodies: seq<Body>)
    requires StoreOk(s, genesis) && |bodies| == |blocks| && SideChain(s.db.headers, blocks)
    ensures StoreOk(AddSide(s, blocks, bodies), genesis) && Grown(s, AddSide(s, blocks, bodies))
    decreases |blocks|
  {
    if blocks != [] && !GhostState(s.db.headers, s.canon, s.head, blocks[0]) {
      hide StoreOk, AddBlock, SideChain, GhostState;
      SideRest(s, genesis, blocks, bodies);
      SideKeeps(if blocks[0].hash in s.db.headers then s else AddBlock(s, blocks[0], bodies[0]), genesis,
          blocks[1..], bodies[1..]);
    }
  }

  /** Every operation keeps the chain, and only adds to the store. */
  lemma ApplyKeeps(s: ChainState, genesis: Hash, op: Op)
    requires Inv(s, genesis) && LegalOp(s, op)
    ensures Inv(Apply(s, op), genesis) && Apply(s, op).db.Extends(s.db)
  {
    hide ParentClosed, TdExact, PathMap, AddBlock, AddSide, SwitchLookup, Announcement;
    match op {
      case WriteBlock(h, body) =>
        AddBlockKeeps(s, genesis, h, body);
        GrownKeeps(s, AddBlock(s, h, body), genesis);
      case ImportSide(blocks, bodies) =>
        SideKeeps(s, genesis, blocks, bodies);
        GrownKeeps(s, AddSide(s, blocks, bodies), genesis);
      case SetCanonical(hash) =>
    }
  }

  /** Over every run the canonical map is exactly the ancestor path of the head, whatever heads were chosen, and
      the store only grows. */
  lemma {:induction false} RunKeepsChain(s: ChainState, genesis: Hash, ops: seq<Op>)
    requires Inv(s, genesis) && LegalRun(s, ops)
    ensures Inv(Run(s, ops), genesis) && Run(s, ops).db.Extends(s.db)
    decreases |ops|
  {
    hide Inv, Apply, LegalOp;
    if ops != [] {
      ApplyKeeps(s, genesis, ops[0]);
      RunKeepsChain(Apply(s, ops[0]), genesis, ops[1..]);
    }
  }

  /** Within such a run `SetCanonical` of a stored block never fails. */
  lemma SetCanonicalSucceeds(s: ChainState, genesis: Hash, hash: Hash)
    requires Inv(s, genesis) && hash in s.db.headers
    ensures Fork(s.db.headers, s.head, s.db.headers[hash]).Some?
    ensures Apply(s, SetCanonical(hash)).head == s.db.headers[hash]
  {
    ClosedFork(s.db.headers, genesis, s.head, s.db.headers[hash]);
  }

  /** After every run a number is mapped exactly up to the head, to the head's ancestor at that height. */
  lemma RunExact(s: ChainState, genesis: Hash, ops: seq<Op>, n: nat)
    requires Inv(s, genesis) && LegalRun(s, ops)
    ensures var e := Run(s, ops);
            && (n in e.canon <==> n <= e.head.number)
            && (n in e.canon
                ==> AncestorAt(e.db.headers, e.head, n).Some?
                    && e.canon[n] == AncestorAt(e.db.headers, e.head, n).value.hash)
  {
    RunKeepsChain(s, genesis, ops);
    var e := Run(s, ops);
    ClosedRooted(e.db.headers, genesis, e.head);
    PathMapAt(e.db.headers, e.head, n);
    PathMapRooted(e.db.headers, e.head, n);
  }

  /** No transaction is repeated on any stored path. */
  ghost predicate AllUnique(db: BlockDb) {
    forall x :: x in db.headers ==> UniqueTxs(db, db.headers[x])
  }

  lemma UniqueBefore(db: BlockDb, db': BlockDb, genesis: Hash)
    requires db.Complete() && ParentClosed(db.headers, genesis) && db'.Extends(db) && AllUnique(db')
    ensures AllUnique(db)
  {
    hide UniqueTxs, ParentClosed;
    forall x | x in db.headers ensures UniqueTxs(db, db.headers[x]) {
      ClosedRooted(db.headers, genesis, db.headers[x]);
      SpecFrame(db, db', db.headers[x]);
      assert UniqueTxs(db', db'.headers[x]);
    }
  }

  /** A head change keeps an exact index exact, if and only if every transaction both shared and dropped is adopted
      again. */
  lemma HeadIndexed(s: ChainState, genesis: Hash, hash: Hash)
    requires Inv(s, genesis) && Indexed(s) && hash in s.db.headers
    ensures var head := s.db.headers[hash];
            && Fork(s.db.headers, s.head, head).Some?
            && var fork := Fork(s.db.headers, s.head, head).value;
            && (fork < head.number ==> Parent(s.db.headers, head).Some?)
            && (Indexed(Apply(s, SetCanonical(hash))) <==> Readopted(s.db, s.head, head, fork))
  {
    hide ParentClosed, TdExact, PathMap, LookupOf, SwitchLookup, Announcement, Readopted;
    SetCanonicalSucceeds(s, genesis, hash);
    SwitchExact(s.db, s.head, s.db.headers[hash], Fork(s.db.headers, s.head, s.db.headers[hash]).value);
  }

  lemma ApplyIndexed(s: ChainState, genesis: Hash, op: Op)
    requires Inv(s, genesis) && LegalOp(s, op) && Indexed(s) && AllUnique(s.db)
    ensures Indexed(Apply(s, op))
  {
    hide ParentClosed, TdExact, PathMap, LookupOf, AddBlock, AddSide, UniqueTxs, MakeHead;
    match op {
      case WriteBlock(h, body) =>
        AddBlockKeeps(s, genesis, h, body);
        GrownKeeps(s, AddBlock(s, h, body), genesis);
      case ImportSide(blocks, bodies) =>
        SideKeeps(s, genesis, blocks, bodies);
        GrownKeeps(s, AddSide(s, blocks, bodies), genesis);
      case SetCanonical(hash) =>
        if hash in s.db.headers {
          HeadIndexed(s, genesis, hash);
          UniqueReadopted(s.db, s.head, s.db.headers[hash], Fork(s.db.headers, s.head, s.db.headers[hash]).value);
        }
    }
  }

  /** Over every run after which no stored path repeats a transaction, the index stays exact. */
  lemma {:induction false} RunKeepsIndex(s: ChainState, genesis: Hash, ops: seq<Op>)
    requires Inv(s, genesis) && LegalRun(s, ops) && Indexed(s) && AllUnique(Run(s, ops).db)
    ensures Indexed(Run(s, ops))
    decreases |ops|
  {
    if ops != [] {
      RunKeepsChain(s, genesis, ops);
      UniqueBefore(s.db, Run(s, ops).db, genesis);
      hide Inv, Apply, LegalOp, Indexed, AllUnique;
      ApplyKeeps(s, genesis, ops[0]);
      ApplyIndexed(s, genesis, ops[0]);
      RunKeepsIndex(Apply(s, ops[0]), genesis, ops[1..]);
    }
  }

  /** After such a run a transaction is indexed under a number exactly when the canonical block there holds it. */
  lemma RunIndexed(s: ChainState, genesis: Hash, ops: seq<Op>, n: nat, t: TxHash)
    requires Inv(s, genesis) && LegalRun(s, ops) && Indexed(s) && AllUnique(Run(s, ops).db)
    ensures var e := Run(s, ops);
            (t in e.lookup && e.lookup[t] == n)
                <==> (n in e.canon && e.canon[n] in e.db.bodies && t in e.db.bodies[e.canon[n]].txs)
  {
    var e := Run(s, ops);
    RunKeepsChain(s, genesis, ops);
    RunKeepsIndex(s, genesis, ops);
    PathMapAt(e.db.headers, e.head, n);
    LookupExact(e.db, e.head, t, n);
    if AncestorAt(e.db.headers, e.head, n).Some? { AncestorStored(e.db.headers, e.head, n); }
  }

  /** Writing a block whose transactions are new to its path repeats none on any path. */
  lemma WriteKeepsUnique(s: ChainState, genesis: Hash, h: Header, body: Body)
    requires StoreOk(s, genesis) && h.hash != ZERO_HASH && NoClash(s.db, h, body) && AllUnique(s.db)
    requires Parent(s.db.headers, h).Some?
             ==> forall t :: t in body.txs ==> t !in LookupOf(s.db, Parent(s.db.headers, h).value)
    ensures AllUnique(AddBlock(s, h, body).db)
  {
    hide UniqueTxs, ParentClosed, TdExact;
    AddBlockKeeps(s, genesis, h, body);
    var db' := AddBlock(s, h, body).db;
    forall x | x in s.db.headers ensures UniqueTxs(db', s.db.headers[x]) {
      ClosedRooted(s.db.headers, genesis, s.db.headers[x]);
      SpecFrame(s.db, db', s.db.headers[x]);
    }
    if Parent(s.db.headers, h).Some? { NewBlockUnique(s.db, db', genesis, h, body); }
  }

  lemma NewBlockUnique(db: BlockDb, db': BlockDb, genesis: Hash, h: Header, body: Body)
    requires db.Complete() && ParentClosed(db.headers, genesis) && AllUnique(db) && db'.Extends(db)
    requires Parent(db.headers, h).Some?
             && forall t :: t in body.txs ==> t !in LookupOf(db, Parent(db.headers, h).value)
    requires Stored(db'.headers, h) && h.hash in db'.bodies && db'.bodies[h.hash] == body
    ensures UniqueTxs(db', h)
  {
    var p := Parent(db.headers, h).value;
    ClosedRooted(db.headers, genesis, p);
    SpecFrame(db, db', p);
    assert Parent(db'.headers, h) == Some(p);
  }

  /** The methods carry a run out exactly: whatever the operations, their requirements are met and the state becomes
      the one of the specification. */
  method Execute(chain: BlockChain.Chain, ops: seq<Op>, ghost genesis: Hash)
    requires chain.Valid() && Inv(chain.State(), genesis) && LegalRun(chain.State(), ops)
    modifies chain
    ensures chain.Valid() && Inv(chain.State(), genesis) && chain.State() == Run(old(chain.State()), ops)
    ensures old(chain.Indexed()) && AllUnique(chain.db) ==> chain.Indexed()
  {
    hide Inv, LegalOp, Apply, AllUnique, LookupOf, BlockChain.Flatten;
    ghost var s := chain.State();
    if chain.Indexed() && AllUnique(Run(s, ops).db) {
      assert Indexed(s);
      RunKeepsIndex(s, genesis, ops);
    }
    assert ops[0..] == ops;
    for i := 0 to |ops|
      invariant chain.Valid() && Inv(chain.State(), genesis) && LegalRun(chain.State(), ops[i..])
      invariant Run(chain.State(), ops[i..]) == Run(s, ops)
    {
      assert ops[i..][0] == ops[i] && ops[i..][1..] == ops[i + 1..];
      Perform(chain, ops[i], genesis);
    }
  }

  method Perform(chain: BlockChain.Chain, op: Op, ghost genesis: Hash)
    requires chain.Valid() && Inv(chain.State(), genesis) && LegalOp(chain.State(), op)
    modifies chain
    ensures chain.Valid() && Inv(chain.State(), genesis) && chain.State() == Apply(old(chain.State()), op)
  {
    hide ParentClosed, TdExact, PathMap, AddBlock, AddSide, MakeHead, SideChain, BlockChain.Flatten, BlockChain.WellFed;
    ApplyKeeps(chain.State(), genesis, op);
    match op {
      case WriteBlock(h, body) => var _ := chain.WriteBlock(h, body);
      case ImportSide(blocks, bodies) => var _, _ := chain.InsertSideBlocks(blocks, bodies, genesis);
      case SetCanonical(hash) =>
        if hash in chain.db.headers {
          ChildHasParent(chain.db.headers, genesis, chain.currentBlock, chain.db.headers[hash]);
          var _ := chain.SetCanonical(chain.db.headers[hash]);
        }
    }
  }

  lemma ChildHasParent(hs: Store, genesis: Hash, p: Header, h: Header)
    requires ParentClosed(hs, genesis) && Stored(hs, p) && Stored(hs, h)
    ensures h.parent == p.hash ==> Parent(hs, h).Some?
  {
    assert HasParent(hs, genesis, h.hash);
  }

  /** A subscriber that drops every removed log and keeps every other one. */
  ghost function Fold(held: multiset<nat>, events: seq<Log>): multiset<nat> {
    if events == [] then held else FoldOne(Fold(held, events[..|events| - 1]), events[|events| - 1])
  }

  ghost function FoldOne(held: multiset<nat>, l: Log): multiset<nat> {
    if l.removed then held - multiset{l.id} else held + multiset{l.id}
  }

  lemma {:induction false} FoldConcat(held: multiset<nat>, a: seq<Log>, b: seq<Log>)
    ensures Fold(held, a + b) == Fold(Fold(held, a), b)
  {
    hide FoldOne;
    if b == [] {
      assert a + b == a;
    } else {
      FoldConcat(held, a, b[..|b| - 1]);
      assert (a + b)[..|a + b| - 1] == a + b[..|b| - 1];
    }
  }

  lemma {:induction false} FoldMarked(held: multiset<nat>, ids: seq<nat>, removed: bool)
    ensures Fold(held, Marked(ids, removed)) == if removed then held - multiset(ids) else held + multiset(ids)
  {
    if ids != [] {
      var rest := ids[..|ids| - 1];
      FoldMarked(held, rest, removed);
      assert Marked(ids, removed)[..|ids| - 1] == Marked(rest, removed);
      assert ids == rest + [ids[|ids| - 1]];
    }
  }

  /** The head is an ancestor of the current one, or the current one itself. */
  ghost predicate AlreadyCanonical(s: ChainState, head: Header) {
    head.number in s.canon && s.canon[head.number] == head.hash
  }

  lemma CanonicalFork(s: ChainState, genesis: Hash, head: Header)
    requires Inv(s, genesis) && Stored(s.db.headers, head)
    ensures Fork(s.db.headers, s.head, head).Some?
    ensures AlreadyCanonical(s, head) <==> Fork(s.db.headers, s.head, head).value == head.number
  {
    ClosedFork(s.db.headers, genesis, s.head, head);
    PathMapAt(s.db.headers, s.head, head.number);
    if AlreadyCanonical(s, head) { OnPath(s.db.headers, s.head, head); }
  }

  /** The old and the new head share the logs below the fork. */
  lemma LogsAtFork(db: BlockDb, old_: Header, head: Header, fork: nat)
    requires AncestorAt(db.headers, head, fork).Some?
             && AncestorAt(db.headers, old_, fork) == AncestorAt(db.headers, head, fork)
    ensures multiset(LogsOf(db, old_)) - multiset(LogsAbove(db, old_, fork)) + multiset(LogsAbove(db, head, fork))
            == multiset(LogsOf(db, head))
  {
    LogsSplit(db, old_, fork, -1);
    LogsSplit(db, head, fork, -1);
  }

  /** A subscriber in step with the canonical chain stays in step across `SetCanonical` exactly when the
      head was not canonical before or has no logs. */
  lemma SubscriberStep(s: ChainState, genesis: Hash, head: Header, held: multiset<nat>)
    requires Inv(s, genesis) && Stored(s.db.headers, head) && held == multiset(LogsOf(s.db, s.head))
    requires Fork(s.db.headers, s.head, head).Some?
    ensures Fold(held, Announcement(s.db, s.head, head)) == multiset(LogsOf(s.db, head))
       <==> (!AlreadyCanonical(s, head) || s.db.bodies[head.hash].logs == [])
  {
    hide LogsAbove, AncestorAt, PathMap, LookupOf, Fold, Marked, ParentClosed, TdExact;
    CanonicalFork(s, genesis, head);
    var fork := Fork(s.db.headers, s.head, head).value;
    var gone := LogsAbove(s.db, s.head, fork);
    var added := if fork < head.number then LogsAbove(s.db, head, fork) else s.db.Logs(head);
    FoldConcat(held, Marked(gone, true), Marked(added, false));
    FoldMarked(held, gone, true);
    FoldMarked(held - multiset(gone), added, false);
    LogsAtFork(s.db, s.head, head, fork);
    if fork == head.number { NothingAdopted(s.db, head, added); }
  }

  lemma NothingAdopted(db: BlockDb, head: Header, added: seq<nat>)
    ensures LogsAbove(db, head, head.number) == []
    ensures multiset(LogsOf(db, head)) + multiset(added) == multiset(LogsOf(db, head)) <==> added == []
  {
    assert |multiset(LogsOf(db, head)) + multiset(added)| == |multiset(LogsOf(db, head))| + |added|;
  }

  /** No step of the run makes a block the head that is canonical already. */
  ghost predicate FreshHeads(s: ChainState, ops: seq<Op>)
    requires LegalRun(s, ops)
    decreases |ops|
  {
    ops != [] ==> FreshHead(s, ops[0]) && FreshHeads(Apply(s, ops[0]), ops[1..])
  }

  ghost predicate FreshHead(s: ChainState, op: Op) {
    op.SetCanonical? && op.hash in s.db.headers ==> !AlreadyCanonical(s, s.db.headers[op.hash])
  }

  /** Over every run to fresh heads, a subscriber that folds the announcements always holds exactly the
      logs of the canonical chain. */
  lemma {:induction false} RunKeepsSubscriber(s: ChainState, genesis: Hash, ops: seq<Op>, held: multiset<nat>)
    requires Inv(s, genesis) && LegalRun(s, ops) && FreshHeads(s, ops)
    requires Fold(held, s.announced) == multiset(LogsOf(s.db, s.head))
    ensures Fold(held, Run(s, ops).announced) == multiset(LogsOf(Run(s, ops).db, Run(s, ops).head))
    decreases |ops|
  {
    hide Inv, Apply, LegalOp, FreshHead, Fold, LogsAbove;
    if ops != [] {
      ApplyKeeps(s, genesis, ops[0]);
      SubscriberOp(s, genesis, ops[0], held);
      RunKeepsSubscriber(Apply(s, ops[0]), genesis, ops[1..], held);
    }
  }

  /** The logs of all canonical blocks, as they are stored. */
  ghost function CanonicalLogs(s: ChainState): seq<nat>
    requires Covered(s.db.bodies, s.canon, 0, s.head.number + 1)
  {
    RangeLogs(s.db.bodies, s.canon, 0, s.head.number + 1)
  }

  lemma CanonicalLogsAre(s: ChainState, genesis: Hash)
    requires Inv(s, genesis)
    ensures Covered(s.db.bodies, s.canon, 0, s.head.number + 1) && CanonicalLogs(s) == LogsOf(s.db, s.head)
  {
    hide TdExact, PathMap, LogsAbove;
    ClosedRooted(s.db.headers, genesis, s.head);
    LogsAre(s.db, s.head, 0);
  }

  /** The same in terms of what is stored: whatever the run, the subscriber ends up with the logs of the blocks the
      canonical map names, each as often as it is there. */
  lemma RunLogs(s: ChainState, genesis: Hash, ops: seq<Op>, held: multiset<nat>)
    requires Inv(s, genesis) && LegalRun(s, ops) && FreshHeads(s, ops)
    requires Covered(s.db.bodies, s.canon, 0, s.head.number + 1)
    requires Fold(held, s.announced) == multiset(CanonicalLogs(s))
    ensures var e := Run(s, ops);
            && Covered(e.db.bodies, e.canon, 0, e.head.number + 1)
            && Fold(held, e.announced) == multiset(CanonicalLogs(e))
  {
    hide Inv, FreshHeads, Fold, LogsAbove, Covered, CanonicalLogs;
    CanonicalLogsAre(s, genesis);
    RunKeepsSubscriber(s, genesis, ops, held);
    RunKeepsChain(s, genesis, ops);
    CanonicalLogsAre(Run(s, ops), genesis);
  }

  lemma SubscriberOp(s: ChainState, genesis: Hash, op: Op, held: multiset<nat>)
    requires Inv(s, genesis) && LegalOp(s, op) && FreshHead(s, op)
    requires Fold(held, s.announced) == multiset(LogsOf(s.db, s.head))
    ensures var s' := Apply(s, op); Fold(held, s'.announced) == multiset(LogsOf(s'.db, s'.head))
  {
    hide LogsAbove, AncestorAt, PathMap, LookupOf, Fold, ParentClosed, TdExact, AddBlock, AddSide, SwitchLookup;
    match op {
      case WriteBlock(h, body) =>
        AddBlockKeeps(s, genesis, h, body);
        GrownKeeps(s, AddBlock(s, h, body), genesis);
      case ImportSide(blocks, bodies) =>
        SideKeeps(s, genesis, blocks, bodies);
        GrownKeeps(s, AddSide(s, blocks, bodies), genesis);
      case SetCanonical(hash) =>
        if hash in s.db.headers {
          var head := s.db.headers[hash];
          SetCanonicalSucceeds(s, genesis, hash);
          SubscriberStep(s, genesis, head, Fold(held, s.announced));
          FoldConcat(held, s.announced, Announcement(s.db, s.head, head));
        }
    }
  }

  /** A chain of one block with one log. */
  ghost function LoneBlock(bloom: Bloom): Header { Header(1, ZERO_HASH, 0, 0, 0, bloom) }

  ghost function LoneChain(bloom: Bloom): ChainState {
    ChainState(BlockDb(map[1 := LoneBlock(bloom)], map[1 := Body([], [7])]), map[0 := 1], map[], map[1 := 0],
        LoneBlock(bloom), [])
  }

  lemma {:induction false} LoneInv(bloom: Bloom)
    ensures Inv(LoneChain(bloom), 1) && Parent(LoneChain(bloom).db.headers, LoneBlock(bloom)).None?
  {
    var s := LoneChain(bloom);
    assert forall x :: x in s.db.headers ==> x == 1;
    assert HasParent(s.db.headers, 1, 1) && TdIs(s.db.headers, s.td, 1);
    assert PathMap(s.db.headers, LoneBlock(bloom)) == map[0 := 1];
  }

  /** Making the block of that chain the head again announces its log again, and a subscriber that held it once now
      holds it twice. */
  lemma {:induction false} AnnouncedTwice(bloom: Bloom)
    ensures var s, g := LoneChain(bloom), LoneBlock(bloom);
            && Inv(s, 1) && LogsOf(s.db, g) == [7] && Fork(s.db.headers, g, g).Some? && AlreadyCanonical(s, g)
            && Fold(multiset{7}, Announcement(s.db, g, g)) == multiset{7, 7}
  {
    hide Inv, Fold;
    LoneInv(bloom);
    var s, g := LoneChain(bloom), LoneBlock(bloom);
    assert AncestorAt(s.db.headers, g, 0) == Some(g);
    assert LogsAbove(s.db, g, -1) == [7] && LogsAbove(s.db, g, 0) == [];
    assert Announcement(s.db, g, g) == [] + [Log(7, false)];
    assert Announcement(s.db, g, g) == [Log(7, false)];
    FoldSingle(multiset{7}, Log(7, false));
  }

  lemma FoldSingle(held: multiset<nat>, l: Log)
    ensures Fold(held, [l]) == FoldOne(held, l)
  {
    assert [l][..0] == [];
  }
}
