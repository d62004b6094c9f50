/** The chain indexer with the bloom backend: the object whose locked methods are the steps of IndexerSpec, and
    what its bloom database says about the canonical chain. */
module ChainIndexer {
  import opened Common
  import opened HeaderStore
  import opened BloomIndexer
  import Spec = IndexerSpec
  import opened IndexerSpec

  /** What one canonical read sees: the head of the canonical chain, and whether the header itself is found. */
  datatype Sight = Sight(head: Header, present: bool)

  /** A stored vector says, for every block of the section that ends in its head, whether the bit is set in the
      bloom of that block. */
  ghost predicate Describes(c: Config, k: BloomKey, v: seq<bv8>) {
    && k.head in c.hs && c.hs[k.head].number == Last(c.size, k.section)
    && forall i: nat :: i < c.size ==> BlockBit(c, c.hs[k.head], Start(c.size, k.section), i, k.bit, VectorBit(v, i))
  }

  ghost predicate BlockBit(c: Config, head: Header, start: nat, i: nat, bit: nat, on: bool) {
    AncestorAt(c.hs, head, start + i).Some? && (on <==> BloomBit(AncestorAt(c.hs, head, start + i).value.bloom, bit))
  }

  ghost predicate DbRight(c: Config, db: map<BloomKey, seq<bv8>>) {
    forall k :: k in db ==> Describes(c, k, db[k])
  }

  /** Every section stored beyond the checkpoint has all its vectors in the database. */
  ghost predicate Backed(c: Config, s: Index, db: map<BloomKey, seq<bv8>>) {
    forall i :: i in s.heads && c.checkpoint <= i ==> AllBits(db, i, s.heads[i])
  }

  ghost predicate AllBits(db: map<BloomKey, seq<bv8>>, section: nat, head: Hash) {
    forall bit: nat :: bit < BLOOM_BITS ==> BloomKey(bit, section, head) in db
  }

  lemma BackedFewer(c: Config, s: Index, s': Index, db: map<BloomKey, seq<bv8>>)
    requires Backed(c, s, db) && Fewer(s, s')
    ensures Backed(c, s', db)
  {
  }

  lemma BackedMore(c: Config, s: Index, db: map<BloomKey, seq<bv8>>, db': map<BloomKey, seq<bv8>>)
    requires Backed(c, s, db) && db.Keys <= db'.Keys
    ensures Backed(c, s, db')
  {
    forall i | i in s.heads && c.checkpoint <= i ensures AllBits(db', i, s.heads[i]) {
      assert AllBits(db, i, s.heads[i]);
    }
  }

  /** So a query for any bit of a section that is stored and canonical is answered. */
  lemma BackedServed(c: Config, s: Index, db: map<BloomKey, seq<bv8>>, view: Header, i: nat, bit: nat)
    requires Backed(c, s, db) && c.checkpoint <= i && bit < BLOOM_BITS
    requires SectionHead(s.heads, i) == Canonical(c.hs, view, Last(c.size, i)) != ZERO_HASH
    ensures ReadBloomBits(c, db, view, bit, i).Some?
  {
    assert AllBits(db, i, s.heads[i]);
  }

  /** The first n blocks of a section are linked from old to last and their blooms are the ones added. */
  ghost predicate Prefix(c: Config, section: nat, old': Hash, last: Hash, added: seq<Bloom>) {
    if added == [] then last == old'
    else
      && last in c.hs && c.hs[last].number == Start(c.size, section) + |added| - 1
      && AncestorAt(c.hs, c.hs[last], Start(c.size, section)).Some?
      && AncestorAt(c.hs, c.hs[last], Start(c.size, section)).value.parent == old'
      && forall i: nat :: i < |added| ==> AddedIs(c, c.hs[last], Start(c.size, section), i, added[i])
  }

  ghost predicate AddedIs(c: Config, head: Header, start: nat, i: nat, bloom: Bloom) {
    AncestorAt(c.hs, head, start + i).Some? && bloom == AncestorAt(c.hs, head, start + i).value.bloom
  }

  lemma PrefixStep(c: Config, section: nat, old': Hash, last: Hash, added: seq<Bloom>, h: Header)
    requires Prefix(c, section, old', last, added)
    requires Stored(c.hs, h) && h.parent == last && h.number == Start(c.size, section) + |added|
    ensures Prefix(c, section, old', h.hash, added + [h.bloom])
  {
    hide Start;
    var start, added' := Start(c.size, section), added + [h.bloom];
    if added == [] {
      assert AddedIs(c, h, start, 0, h.bloom);
    } else {
      assert Parent(c.hs, h) == Some(c.hs[last]);
      forall i: nat | i < |added'| ensures AddedIs(c, h, start, i, added'[i]) {
        if i < |added| { assert AddedIs(c, c.hs[last], start, i, added[i]); }
      }
    }
  }

  lemma PrefixSection(c: Config, section: nat, old': Hash, last: Hash, added: seq<Bloom>)
    requires Prefix(c, section, old', last, added) && |added| == c.size > 0
    ensures SectionChain(c, section, old', last)
  {
    SectionBounds(c.size, section);
  }

  lemma CommitRight(c: Config, section: nat, old': Hash, last: Hash, added: seq<Bloom>, db: map<BloomKey, seq<bv8>>,
                    batch: map<BloomKey, seq<bv8>>)
    requires Prefix(c, section, old', last, added) && |added| == c.size > 0 && DbRight(c, db)
    requires BatchOf(batch, BLOOM_BITS, section, last, added)
    ensures DbRight(c, db + batch)
  {
    SectionBounds(c.size, section);
    hide Start, Last, VectorBit;
    forall k | k in batch ensures Describes(c, k, batch[k]) {
      forall i: nat | i < c.size
        ensures BlockBit(c, c.hs[k.head], Start(c.size, section), i, k.bit, VectorBit(batch[k], i))
      {
        assert AddedIs(c, c.hs[last], Start(c.size, section), i, added[i]);
      }
    }
    hide Describes;
    assert forall k :: k in db + batch ==> Describes(c, k, (db + batch)[k]);
  }

  lemma CommitAll(section: nat, last: Hash, added: seq<Bloom>, db: map<BloomKey, seq<bv8>>,
                  batch: map<BloomKey, seq<bv8>>)
    requires BatchOf(batch, BLOOM_BITS, section, last, added)
    ensures AllBits(db + batch, section, last)
  {
  }

  /** Serving a bloom query: the vector filed under the canonical hash at the end of the section. */
  function ReadBloomBits(c: Config, db: map<BloomKey, seq<bv8>>, view: Header, bit: nat,
                         section: nat): Option<seq<bv8>> {
    var k := BloomKey(bit, section, Canonical(c.hs, view, Last(c.size, section)));
    if k in db then Some(db[k]) else None
  }

  /** A vector that is served is about the canonical chain: bit i tells whether the canonical block at position
      i of the section has the bloom bit. */
  lemma ServedCanonical(c: Config, db: map<BloomKey, seq<bv8>>, view: Header, bit: nat, section: nat, i: nat)
    requires Legal(c) && DbRight(c, db) && Rooted(c.hs, view) && i < c.size
             && ReadBloomBits(c, db, view, bit, section).Some?
    ensures var hash := Canonical(c.hs, view, Start(c.size, section) + i);
            hash in c.hs && c.hs[hash].number == Start(c.size, section) + i
            && (VectorBit(ReadBloomBits(c, db, view, bit, section).value, i) <==> BloomBit(c.hs[hash].bloom, bit))
  {
    hide ParentClosed, PathMap, VectorBit;
    SectionBounds(c.size, section);
    var start, last := Start(c.size, section), Last(c.size, section);
    hide Start, Last;
    var head := Canonical(c.hs, view, last);
    var v := ReadBloomBits(c, db, view, bit, section).value;
    assert Describes(c, BloomKey(bit, section, head), v);
    assert BlockBit(c, c.hs[head], start, i, bit, VectorBit(v, i));
    PathMapAt(c.hs, view, last);
    AncestorStored(c.hs, view, last);
    AncestorOfAncestor(c.hs, view, last, start + i);
    PathMapAt(c.hs, view, start + i);
    AncestorStored(c.hs, view, start + i);
  }

  /** Throughout the processing of a section the canonical chain ends in v, reaches past the section and
      continues the old head. */
  ghost predicate Steady(c: Config, section: nat, oldHead: Hash, sights: nat -> Sight, v: Header) {
    && Rooted(c.hs, v) && Last(c.size, section) <= v.number && (forall n: nat :: sights(n) == Sight(v, true))
    && oldHead == Canonical(c.hs, v, Start(c.size, section) - 1)
  }

  lemma CanonicalStep(c: Config, v: Header, n: nat)
    requires Legal(c) && Rooted(c.hs, v) && n <= v.number
    ensures var hash := Canonical(c.hs, v, n);
            hash != ZERO_HASH && GetHeader(c.hs, hash, n).Some?
            && GetHeader(c.hs, hash, n).value.parent == Canonical(c.hs, v, n - 1)
  {
    hide PathMap;
    AncestorsAbove(c.hs, v, 0, n);
    PathMapAt(c.hs, v, n);
    AncestorStored(c.hs, v, n);
    if n > 0 {
      ParentOfAncestor(c.hs, v, n - 1);
      AncestorsAbove(c.hs, v, 0, n - 1);
      PathMapAt(c.hs, v, n - 1);
    } else {
      assert HasParent(c.hs, c.genesis, AncestorAt(c.hs, v, 0).value.hash);
    }
  }

  lemma SteadyStart(c: Config, section: nat, oldHead: Hash, sights: nat -> Sight, v: Header)
    requires Steady(c, section, oldHead, sights, v)
    ensures oldHead == Canonical(c.hs, v, Start(c.size, section) - 1)
  {
  }

  lemma SteadyAt(c: Config, section: nat, oldHead: Hash, sights: nat -> Sight, v: Header, n: nat)
    requires Legal(c) && Steady(c, section, oldHead, sights, v) && n < Start(c.size, section + 1)
    ensures sights(n) == Sight(v, true)
    ensures var hash := Canonical(c.hs, v, n);
            hash != ZERO_HASH && GetHeader(c.hs, hash, n).Some?
            && GetHeader(c.hs, hash, n).value.parent == Canonical(c.hs, v, n - 1)
  {
    CanonicalStep(c, v, n);
  }

  /** What other goroutines do while the lock is free: report heads and ask for the sections. */
  ghost predicate OthersLegal(c: Config, others: seq<Action>) {
    forall a :: a in others ==> (a.Head? && Rooted(c.hs, a.view)) || (a.Sections? && Seen(c, a.views))
  }

  /** Nobody else does anything. */
  ghost predicate Quiet(others: nat -> seq<Action>) { forall n: nat :: others(n) == [] }

  lemma QuietAt(others: nat -> seq<Action>, n: nat)
    requires Quiet(others)
    ensures others(n) == []
  {
  }

  class Indexer {
    const c: Config
    const backend: Backend
    var stored: nat
    var known: nat
    var heads: map<nat, Hash>
    var job: Option<Job>
    /** Every locked step taken since the index was loaded. */
    ghost var origin: Index
    ghost var trace: seq<Action>

    ghost function State(): Index
      reads this
    {
      Index(stored, known, heads, job)
    }

    ghost predicate Valid()
      reads this, backend
    {
      && Legal(c) && Inv(c, State()) && backend.size == c.size && DbRight(c, backend.db)
          && Backed(c, State(), backend.db)
      && Reached(c, origin, trace, State())
    }

    /** Load an index that an earlier run left, or one of Fresh(c) for a new one. */
    constructor (c: Config, loaded: Index, vectors: map<BloomKey, seq<bv8>>)
      requires Legal(c) && Inv(c, loaded) && loaded.known == 0 && loaded.job.None? && DbRight(c, vectors)
               && Backed(c, loaded, vectors)
      ensures Valid() && this.c == c && State() == loaded == origin && trace == [] && backend.db == vectors
              && fresh(backend)
    {
      this.c := c;
      backend := new Backend(c.size, vectors);
      stored, known, heads, job := loaded.stored, 0, loaded.heads, None;
      origin, trace := loaded, [];
    }

    method SetValidSections(sections: nat)
      modifies `stored, `heads
      ensures State() == Spec.SetValidSections(old(State()), sections)
    {
      while stored > sections
        invariant stored <= old(stored) && (stored == old(stored) || stored >= sections)
        invariant heads == map i | i in old(heads) && !(stored <= i < old(stored)) :: old(heads)[i]
      {
        stored := stored - 1;
        heads := heads - {stored};
      }
      stored := sections;
    }

    method VerifyLastHead(views: nat -> Header)
      modifies `stored, `heads
      ensures State() == Spec.VerifyLastHead(c, old(State()), views)
    {
      while stored > 0 && stored > c.checkpoint
        invariant Spec.VerifyLastHead(c, State(), views) == Spec.VerifyLastHead(c, old(State()), views)
        decreases stored
      {
        if SectionHead(heads, stored - 1) == Canonical(c.hs, views(stored), Last(c.size, stored - 1)) {
          return;
        }
        SetValidSections(stored - 1);
      }
    }

    method NewHead(head: nat, reorg: bool, view: Header)
      requires Valid() && Rooted(c.hs, view)
      modifies `stored, `known, `heads, `trace
      ensures Valid() && State() == Spec.NewHead(c, old(State()), head, reorg, view)
              && trace == old(trace) + [Head(head, reorg, view)]
    {
      ReachStep(c, origin, trace, State(), Head(head, reorg, view));
      trace := trace + [Head(head, reorg, view)];
      NewHeadKeeps(c, State(), head, reorg, view);
      NewHeadFewer(c, State(), head, reorg, view);
      BackedFewer(c, State(), Spec.NewHead(c, State(), head, reorg, view), backend.db);
      hide Inv, DbRight, Backed, ParentClosed, Reached;
      if reorg {
        var n := (head + 1) / c.size;
        var newKnown, newStored := n, n;
        if newKnown < c.checkpoint { newKnown := 0; }
        if newStored < c.checkpoint { newStored := c.checkpoint; }
        if newKnown < known { known := newKnown; }
        if newStored < stored { SetValidSections(newStored); }
        return;
      }
      if head >= c.confirms {
        var sections := (head + 1 - c.confirms) / c.size;
        if sections < c.checkpoint { sections := 0; }
        if sections > known {
          if known < c.checkpoint {
            var syncedHead := Canonical(c.hs, view, Last(c.size, c.checkpoint - 1));
            if syncedHead != c.checkpointHead { return; }
          }
          known := sections;
        }
      }
    }

    method Verify(views: nat -> Header)
      requires Valid() && Seen(c, views)
      modifies `stored, `heads, `trace
      ensures Valid() && State() == Spec.VerifyLastHead(c, old(State()), views)
              && trace == old(trace) + [Action.Sections(views)]
    {
      ReachStep(c, origin, trace, State(), Action.Sections(views));
      trace := trace + [Action.Sections(views)];
      VerifyKeeps(c, State(), views);
      VerifyFewer(c, State(), views);
      BackedFewer(c, State(), Spec.VerifyLastHead(c, State(), views), backend.db);
      hide Inv, DbRight, Legal, Spec.VerifyLastHead, Backed;
      VerifyLastHead(views);
    }

    /** The number of sections, the number of the last block in them (in 64 bits, so all ones when there is
        none) and its hash. Every section beyond the checkpoint is on the chain canonical at the last read. */
    method Sections(views: nat -> Header) returns (sections: nat, last: nat, head: Hash)
      requires Valid() && Seen(c, views)
      modifies `stored, `heads, `trace
      ensures Valid() && State() == Spec.VerifyLastHead(c, old(State()), views)
              && trace == old(trace) + [Action.Sections(views)]
      ensures sections == stored && last == (if stored == 0 then TWO64 - 1 else Last(c.size, stored - 1) % TWO64)
      ensures head == SectionHead(heads, stored - 1) && (stored > 0 ==> head != ZERO_HASH)
      ensures forall i: nat :: c.checkpoint <= i < stored
                ==> SectionHead(heads, i) == Canonical(c.hs, views(stored), Last(c.size, i))
      ensures forall i: nat, bit: nat :: c.checkpoint <= i < stored && bit < BLOOM_BITS
                ==> ReadBloomBits(c, backend.db, views(stored), bit, i).Some?
    {
      hide Inv, DbRight, Legal, Spec.VerifyLastHead, Canonical, Backed, ReadBloomBits;
      VerifiedCanonical(c, State(), views);
      Verify(views);
      if stored > 0 { LastNonZero(c, State()); }
      forall i: nat, bit: nat | c.checkpoint <= i < stored && bit < BLOOM_BITS
        ensures ReadBloomBits(c, backend.db, views(stored), bit, i).Some?
      {
        HeadNonZero(c, State(), i);
        BackedServed(c, State(), backend.db, views(stored), i, bit);
      }
      sections, head := stored, SectionHead(heads, stored - 1);
      last := (Start(c.size, stored) - 1) % TWO64;
    }

    /** The first half of an update: pick the next section up, if one is due. */
    method BeginUpdate(views: nat -> Header) returns (due: bool)
      requires Valid() && Seen(c, views) && job.None?
      modifies `stored, `heads, `job, `trace
      ensures Valid() && due == (old(known) > old(stored)) && due == job.Some?
      ensures State() == if due then Next(c, old(State()), Begin(views)) else old(State())
      ensures due ==> job == Some(Job(stored, SectionHead(heads, stored - 1))) && stored <= old(stored)
                      && known == old(known)
      ensures forall i: nat :: i < stored ==> SectionHead(heads, i) == SectionHead(old(heads), i)
      ensures trace == if due then old(trace) + [Begin(views)] else old(trace)
    {
      hide Inv, DbRight, Legal, Spec.VerifyLastHead, Seen, Backed, Reached;
      due := known > stored;
      if due {
        ghost var s := State();
        ReachStep(c, origin, trace, s, Begin(views));
        VerifyKeeps(c, s, views);
        VerifyFewer(c, s, views);
        VerifyRest(c, s, views);
        PickUpKeeps(c, Spec.VerifyLastHead(c, s, views));
        BackedFewer(c, s, PickUp(Spec.VerifyLastHead(c, s, views)), backend.db);
        VerifyLastHead(views);
        job := Some(Job(stored, SectionHead(heads, stored - 1)));
        trace := trace + [Begin(views)];
      }
    }

    /** Feed the blocks of the section to the backend, each read from whatever chain is canonical at the time, while
        other goroutines report heads and ask for sections between the reads. It succeeds only with a hash-linked
        section that continues the old head, and what it leaves in the bloom database is true of that section. It does
        succeed when the chain of one head stays canonical. */
    method ProcessSection(section: nat, oldHead: Hash, sights: nat -> Sight, others: nat -> seq<Action>,
                          ghost v: Header)
      returns (r: Option<Hash>, reset: bool, ghost steps: seq<Action>)
      requires Valid() && forall n: nat :: OthersLegal(c, others(n))
      modifies backend, `stored, `known, `heads, `trace
      ensures Valid() && trace == old(trace) + steps && OthersLegal(c, steps)
      ensures reset == (c.size % 8 == 0) && (r.Some? ==> reset) && (!reset ==> steps == [])
      ensures r.Some? ==> SectionChain(c, section, oldHead, r.value) && AllBits(backend.db, section, r.value)
      ensures reset && Steady(c, section, oldHead, sights, v) ==> r == Some(Canonical(c.hs, v, Last(c.size, section)))
      ensures Quiet(others) ==> steps == []
    {
      hide Inv, ParentClosed, Canonical, DbRight, Prefix, Backed, Reached, OthersLegal, Steady, Quiet, AllBits,
        SectionChain;
      if Steady(c, section, oldHead, sights, v) { SteadyStart(c, section, oldHead, sights, v); }
      r, steps := None, [];
      NoOthers(c);
      reset := backend.Reset(section);
      if !reset { return; }
      ghost var db := backend.db;
      var lastHead := oldHead;
      var number := Start(c.size, section);
      assert Prefix(c, section, oldHead, lastHead, []) by { PrefixNone(c, section, oldHead); }
      SectionBounds(c.size, section);
      while number < Start(c.size, section + 1)
        invariant backend.Open() && fresh(backend.gen) && fresh(backend.gen.blooms) && backend.section == section
                  && backend.db == db
        invariant Valid() && trace == old(trace) + steps && OthersLegal(c, steps)
        invariant Start(c.size, section) <= number <= Start(c.size, section + 1)
                  && |backend.gen.added| == number - Start(c.size, section)
        invariant Prefix(c, section, oldHead, lastHead, backend.gen.added)
        invariant number > Start(c.size, section) ==> backend.head == lastHead
        invariant Steady(c, section, oldHead, sights, v) ==> lastHead == Canonical(c.hs, v, number - 1)
        invariant Quiet(others) ==> steps == []
      {
        Visit(others(number));
        MoreOthers(c, steps, others(number));
        if Quiet(others) { QuietAt(others, number); }
        steps := steps + others(number);
        var sight := sights(number);
        if Steady(c, section, oldHead, sights, v) { SteadyAt(c, section, oldHead, sights, v, number); }
        var hash := Canonical(c.hs, sight.head, number);
        if hash == ZERO_HASH { return; }
        var header := if sight.present then GetHeader(c.hs, hash, number) else None;
        if header.None? || header.value.parent != lastHead { return; }
        PrefixStep(c, section, oldHead, lastHead, backend.gen.added, header.value);
        backend.Process(header.value);
        lastHead := header.value.hash;
        number := number + 1;
      }
      var ok := CommitSection(section, oldHead, lastHead);
      if !ok { return; }
      r := Some(lastHead);
    }

    /** Write the vectors of a section that was read to its end. */
    method CommitSection(section: nat, ghost oldHead: Hash, lastHead: Hash) returns (ok: bool)
      requires Valid() && backend.Open() && backend.section == section && backend.head == lastHead
      requires Prefix(c, section, oldHead, lastHead, backend.gen.added) && |backend.gen.added| == c.size > 0
      modifies backend`db
      ensures Valid() && ok && SectionChain(c, section, oldHead, lastHead) && AllBits(backend.db, section, lastHead)
    {
      hide Inv, ParentClosed, DbRight, Prefix, Backed, Reached, AllBits, SectionChain;
      ghost var db := backend.db;
      ok := backend.Commit();
      ghost var batch :| BatchOf(batch, BLOOM_BITS, section, lastHead, backend.gen.added) && backend.db == db + batch;
      CommitRight(c, section, oldHead, lastHead, backend.gen.added, db, batch);
      BackedMore(c, State(), db, db + batch);
      CommitAll(section, lastHead, backend.gen.added, db, batch);
      PrefixSection(c, section, oldHead, lastHead, backend.gen.added);
    }

    /** The second half of an update, with the lock held again. */
    method FinishUpdate(result: Option<Hash>, views: nat -> Header)
      requires Valid() && Enabled(c, State(), Finish(result, views))
      requires result.Some? ==> AllBits(backend.db, job.value.section, result.value)
      modifies `stored, `known, `heads, `job, `trace
      ensures Valid() && job.None? && State() == Next(c, old(State()), Finish(result, views))
      ensures trace == old(trace) + [Finish(result, views)]
      ensures var j := old(job).value;
              if result.Some? && SectionHead(old(heads), j.section - 1) == j.oldHead
                then Completed(old(State()), j, result.value, State())
                else GivenUp(old(State()), j, State())
    {
      hide Inv, DbRight, Legal, Spec.VerifyLastHead, Seen, SectionChain, Backed, AllBits, Reached, Completed, GivenUp;
      StepKeeps(c, State(), Finish(result, views));
      FinishExactly(c, State(), result, views);
      ReachStep(c, origin, trace, State(), Finish(result, views));
      FinishBacked(c, State(), result, views, backend.db);
      var j := job.value;
      if result.Some? && (j.section == 0 || j.oldHead == SectionHead(heads, j.section - 1)) {
        heads := heads[j.section := result.value];
        SetValidSections(j.section + 1);
      } else {
        VerifyLastHead(views);
        known := stored;
      }
      job := None;
      trace := trace + [Finish(result, views)];
    }

    /** A backend that cannot even be reset invalidates everything. */
    method FailReset()
      requires Valid() && job.Some?
      modifies `stored, `heads, `trace
      ensures Valid() && State() == Next(c, old(State()), ResetFailed) && trace == old(trace) + [ResetFailed]
    {
      StepKeeps(c, State(), ResetFailed);
      ReachStep(c, origin, trace, State(), ResetFailed);
      BackedFewer(c, State(), Next(c, State(), ResetFailed), backend.db);
      hide Inv, DbRight, Legal, Backed, Reached;
      SetValidSections(0);
      trace := trace + [ResetFailed];
    }

    /** What other goroutines do while the lock is free. */
    method Visit(others: seq<Action>)
      requires Valid() && OthersLegal(c, others)
      modifies `stored, `known, `heads, `trace
      ensures Valid() && trace == old(trace) + others
    {
      hide Inv, DbRight, Legal, Backed, Reached, Spec.NewHead, Spec.VerifyLastHead, Seen, Rooted;
      var i := 0;
      while i < |others|
        invariant i <= |others| && Valid() && trace == old(trace) + others[..i]
      {
        var a := others[i];
        assert a in others;
        if a.Head? { NewHead(a.head, a.reorg, a.view); } else { Verify(a.views); }
        assert others[..i + 1] == others[..i] + [a];
        i := i + 1;
      }
      assert others[..i] == others;
    }

    /** One turn of the update loop: a section is picked up, processed and finished, with anything that other goroutines
        do between any two of its reads and before it takes the lock again. By Valid, all of it is a legal run. The
        section goes in if and only if it was processed and what it continues is still there when the lock is taken
        again, which was then the state relocked; processing does succeed while one chain stays canonical. */
    method Update(views: nat -> Header, sights: nat -> Sight, others: nat -> seq<Action>, late: seq<Action>,
                  finalViews: nat -> Header,
                  ghost v: Header)
      returns (due: bool, ghost steps: seq<Action>, ghost result: Option<Hash>, ghost picked: Job,
              ghost relocked: Index)
      requires Valid() && job.None? && Seen(c, views) && Seen(c, finalViews)
      requires OthersLegal(c, late) && forall n: nat :: OthersLegal(c, others(n))
      modifies this, backend
      ensures Valid() && job.None? && origin == old(origin) && due == (old(known) > old(stored))
      ensures !due ==> trace == old(trace)
      ensures due ==> trace == old(trace) + ([Begin(views)] + steps + [Finish(result, finalViews)])
      ensures forall a :: a in steps ==> a.Head? || a.Sections? || a.ResetFailed?
      ensures !due ==> State() == old(State())
      ensures due ==> picked.section <= old(stored) && picked.oldHead == SectionHead(old(heads), picked.section - 1)
                      && Reached(c, origin, old(trace) + ([Begin(views)] + steps), relocked)
                      && relocked.job == Some(picked)
      ensures due ==>
                if result.Some? && SectionHead(relocked.heads, picked.section - 1) == picked.oldHead
                  then Completed(relocked, picked, result.value, State())
                  else GivenUp(relocked, picked, State())
      ensures due && result.Some?
              ==> SectionChain(c, picked.section, picked.oldHead, result.value)
                  && AllBits(backend.db, picked.section, result.value)
      ensures due && c.size % 8 == 0 && Steady(c, picked.section, picked.oldHead, sights, v)
              ==> result == Some(Canonical(c.hs, v, Last(c.size, picked.section)))
      ensures due && c.size % 8 == 0 && Quiet(others) && late == [] ==> steps == []
    {
      hide Inv, DbRight, Legal, Seen, SectionChain, Rooted, Backed, AllBits, Reached, Next, OthersLegal, Completed,
        GivenUp, Steady, Canonical, Last;
      steps, result, picked, relocked := [], None, Job(0, ZERO_HASH), State();
      due := BeginUpdate(views);
      if !due { return; }
      var j := job.value;
      picked := j;
      var outcome;
      outcome, steps := Unlocked(j, sights, others, late, v);
      result := outcome;
      relocked := State();
      assert trace == old(trace) + ([Begin(views)] + steps);
      FinishUpdate(outcome, finalViews);
      assert old(trace) + [Begin(views)] + steps + [Finish(result, finalViews)]
          == old(trace) + ([Begin(views)] + steps + [Finish(result, finalViews)]);
    }

    /** What happens between giving up the lock and taking it again. */
    method Unlocked(j: Job, sights: nat -> Sight, others: nat -> seq<Action>, late: seq<Action>, ghost v: Header)
      returns (outcome: Option<Hash>, ghost steps: seq<Action>)
      requires Valid() && job == Some(j) && OthersLegal(c, late) && forall n: nat :: OthersLegal(c, others(n))
      modifies backend, `stored, `known, `heads, `trace
      ensures Valid() && trace == old(trace) + steps
      ensures forall a :: a in steps ==> a.Head? || a.Sections? || a.ResetFailed?
      ensures outcome.Some?
              ==> SectionChain(c, j.section, j.oldHead, outcome.value) && AllBits(backend.db, j.section, outcome.value)
      ensures c.size % 8 == 0 && Steady(c, j.section, j.oldHead, sights, v)
              ==> outcome == Some(Canonical(c.hs, v, Last(c.size, j.section)))
      ensures c.size % 8 == 0 && Quiet(others) && late == [] ==> steps == []
    {
      hide Inv, DbRight, Legal, Seen, SectionChain, Rooted, Backed, AllBits, Reached, Next, OthersLegal, Steady,
        Canonical, Last, Quiet;
      var reset;
      outcome, reset, steps := ProcessSection(j.section, j.oldHead, sights, others, v);
      OthersAre(c, steps);
      OthersAre(c, late);
      if !reset {
        FailReset();
        steps := steps + [ResetFailed];
      }
      Visit(late);
      steps := steps + late;
    }

    /** The update loop when nobody interferes: turn by turn, until nothing is due. On a chain that stays canonical and
        that the trusted sections are on, every known section goes in, each with the canonical block as its head and
        with all its vectors. */
    method UpdateLoop(v: Header)
      requires Valid() && job.None? && Rooted(c.hs, v) && c.size % 8 == 0 && Based(c, State(), v)
      requires known > 0 ==> Last(c.size, known - 1) <= v.number
      modifies this, backend
      ensures Valid() && job.None? && known == old(known)
      ensures stored == if old(known) > old(stored) then known else old(stored)
      ensures old(known) > old(stored)
              ==> forall i: nat :: c.checkpoint <= i < stored
                    ==> SectionHead(heads, i) == Canonical(c.hs, v, Last(c.size, i))
      ensures old(known) > old(stored)
              ==> forall i: nat, bit: nat :: c.checkpoint <= i < stored && bit < BLOOM_BITS
                    ==> ReadBloomBits(c, backend.db, v, bit, i).Some?
    {
      hide Inv, DbRight, Legal, Rooted, Canonical, Backed, Reached, Last, Steady, Completed, Based, ReadBloomBits;
      while known > stored
        invariant Valid() && job.None? && known == old(known) && Based(c, State(), v)
        invariant stored == old(stored) || (OnTop(c, State(), v) && stored <= known)
        invariant old(known) <= old(stored) ==> stored == old(stored)
        decreases !OnTop(c, State(), v), known - stored
      {
        QuietTurn(v);
      }
      if old(known) > old(stored) {
        if stored > c.checkpoint { TopCanonical(c, State(), v); }
        forall i: nat, bit: nat | c.checkpoint <= i < stored && bit < BLOOM_BITS
          ensures ReadBloomBits(c, backend.db, v, bit, i).Some?
        {
          HeadNonZero(c, State(), i);
          BackedServed(c, State(), backend.db, v, i, bit);
        }
      }
    }

    /** One turn that nobody interferes with puts one section in. */
    method QuietTurn(v: Header)
      requires Valid() && job.None? && Rooted(c.hs, v) && c.size % 8 == 0 && Based(c, State(), v) && known > stored
      requires Last(c.size, known - 1) <= v.number
      modifies this, backend
      ensures Valid() && job.None? && known == old(known) && Based(c, State(), v) && OnTop(c, State(), v)
      ensures 0 < stored <= old(stored) + 1 && (OnTop(c, old(State()), v) ==> stored == old(stored) + 1)
    {
      hide Inv, DbRight, Legal, Rooted, Canonical, Backed, Reached, Last, GivenUp, Spec.VerifyLastHead;
      ghost var s := State();
      var views: nat -> Header := _ => v;
      var sights: nat -> Sight := _ => Sight(v, true);
      var others: nat -> seq<Action> := _ => [];
      NoOthers(c);
      VerifySteady(c, s, v, views);
      ghost var s' := Spec.VerifyLastHead(c, s, views);
      ReachStep(c, origin, trace, s, Begin(views));
      SteadyPick(c, s'.stored, SectionHead(s'.heads, s'.stored - 1), known, sights, v);
      var _, steps, result, picked, relocked := Update(views, sights, others, [], views, v);
      assert [Begin(views)] + steps == [Begin(views)];
      SameReached(c, origin, old(trace) + [Begin(views)], relocked, PickUp(s'));
      CompletedOnTop(c, relocked, picked, result.value, State(), v);
    }
  }

  /** A section picked up on a steady chain continues it. */
  lemma SteadyPick(c: Config, k: nat, oldHead: Hash, known: nat, sights: nat -> Sight, v: Header)
    requires Legal(c) && Rooted(c.hs, v) && k < known && Last(c.size, known - 1) <= v.number
    requires oldHead == if k == 0 then ZERO_HASH else Canonical(c.hs, v, Last(c.size, k - 1))
    requires forall n: nat :: sights(n) == Sight(v, true)
    ensures Steady(c, k, oldHead, sights, v)
  {
    SectionBounds(c.size, k);
    MoreSections(k + 1, known, c.size);
  }

  lemma SameReached(c: Config, origin: Index, trace: seq<Action>, s: Index, s': Index)
    requires Legal(c) && Reached(c, origin, trace, s) && Reached(c, origin, trace, s')
    ensures s == s'
  {
  }

  /** A section that goes in on top of a canonical one, with a canonical head, is canonical. */
  lemma CompletedOnTop(c: Config, s: Index, j: Job, newHead: Hash, s': Index, v: Header)
    requires Completed(s, j, newHead, s') && Based(c, s, v) && OnTop(c, s, v) && j.section == s.stored
    requires newHead == Canonical(c.hs, v, Last(c.size, j.section))
    ensures Based(c, s', v) && OnTop(c, s', v)
  {
  }

  lemma NoOthers(c: Config)
    ensures OthersLegal(c, [])
  {
  }

  lemma MoreOthers(c: Config, a: seq<Action>, b: seq<Action>)
    requires OthersLegal(c, a) && OthersLegal(c, b)
    ensures OthersLegal(c, a + b)
  {
  }

  lemma OthersAre(c: Config, others: seq<Action>)
    requires OthersLegal(c, others)
    ensures forall a :: a in others ==> a.Head? || a.Sections?
  {
  }

  lemma FinishBacked(c: Config, s: Index, result: Option<Hash>, views: nat -> Header, db: map<BloomKey, seq<bv8>>)
    requires Legal(c) && Enabled(c, s, Finish(result, views)) && Backed(c, s, db)
    requires result.Some? ==> AllBits(db, s.job.value.section, result.value)
    ensures Backed(c, Next(c, s, Finish(result, views)), db)
  {
    hide Legal, SectionChain, Spec.VerifyLastHead, Seen, AllBits;
    VerifyFewer(c, s, views);
  }

  lemma PrefixNone(c: Config, section: nat, old': Hash)
    ensures Prefix(c, section, old', old', [])
  {
  }
}
