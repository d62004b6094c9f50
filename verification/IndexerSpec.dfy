/** The section bookkeeping of the chain indexer as a state machine over its locked steps. Reorganisations of
    the canonical chain happen between any two reads: every read names the head the canonical map belonged to
    at that moment. */
module IndexerSpec {
  import opened Common
  import opened HeaderStore

  /** hs holds every header the node ever stored; the checkpoint is a trusted number of sections and the hash
      of the last block of the last of them. */
  datatype Config = Config(hs: Store, genesis: Hash, size: nat, confirms: nat, checkpoint: nat, checkpointHead: Hash)

  ghost predicate Legal(c: Config) {
    ParentClosed(c.hs, c.genesis) && c.size > 0 && (c.checkpoint > 0 ==> c.checkpointHead != ZERO_HASH)
  }

  /** Number of the first block of section i. */
  function Start(size: nat, i: nat): nat { i * size }

  /** Number of the last block of section i. */
  function Last(size: nat, i: nat): int { Start(size, i + 1) - 1 }

  lemma SectionBounds(size: nat, i: nat)
    requires size > 0
    ensures Start(size, i + 1) == Start(size, i) + size
    ensures Last(size, i) == Start(size, i) + size - 1 >= 0
    ensures i > 0 ==> Start(size, i) > 0 && Last(size, i - 1) == Start(size, i) - 1
  {
    assert (i + 1) * size == i * size + size;
  }

  /** The canonical hash at a height when the canonical chain ends in v. */
  function Canonical(hs: Store, v: Header, n: int): Hash {
    if n < 0 then ZERO_HASH else ReadCanonicalHash(PathMap(hs, v), n)
  }

  /** Section i of some chain: new is its last block, and its first block has the parent old. */
  ghost predicate SectionChain(c: Config, i: nat, old': Hash, new': Hash) {
    && new' in c.hs && c.hs[new'].number == Last(c.size, i)
    && AncestorAt(c.hs, c.hs[new'], Start(c.size, i)).Some?
    && AncestorAt(c.hs, c.hs[new'], Start(c.size, i)).value.parent == old'
  }

  /** The section being processed while the lock is free. */
  datatype Job = Job(section: nat, oldHead: Hash)

  datatype Index = Index(stored: nat, known: nat, heads: map<nat, Hash>, job: Option<Job>)

  function SectionHead(heads: map<nat, Hash>, i: int): Hash {
    if i >= 0 && i in heads then heads[i] else ZERO_HASH
  }

  function SetValidSections(s: Index, n: nat): Index {
    s.(stored := n, heads := map i | i in s.heads && !(n <= i < s.stored) :: s.heads[i])
  }

  /** Drop sections from the top until the last one is canonical; views(k) is the canonical head when section
      k - 1 is looked at. */
  function VerifyLastHead(c: Config, s: Index, views: nat -> Header): Index
    decreases s.stored
  {
    if s.stored > 0 && s.stored > c.checkpoint
        && SectionHead(s.heads, s.stored - 1) != Canonical(c.hs, views(s.stored), Last(c.size, s.stored - 1))
    then VerifyLastHead(c, SetValidSections(s, s.stored - 1), views)
    else s
  }

  function Min(a: nat, b: nat): nat { if a < b then a else b }

  function NewHead(c: Config, s: Index, head: nat, reorg: bool, view: Header): Index
    requires c.size > 0
  {
    if reorg then
      var n := (head + 1) / c.size;
      var known := if n < c.checkpoint then 0 else n;
      var stored := if n < c.checkpoint then c.checkpoint else n;
      var s := s.(known := Min(known, s.known));
      if stored < s.stored then SetValidSections(s, stored) else s
    else if head < c.confirms then s
    else
      var n := (head + 1 - c.confirms) / c.size;
      var sections := if n < c.checkpoint then 0 else n;
      if sections <= s.known
          || (s.known < c.checkpoint && Canonical(c.hs, view, Last(c.size, c.checkpoint - 1)) != c.checkpointHead)
      then s else s.(known := sections)
  }

  datatype Action =
    | Head(head: nat, reorg: bool, view: Header)
    | Sections(views: nat -> Header)
    | Begin(views: nat -> Header)
    | ResetFailed
    | Finish(result: Option<Hash>, views: nat -> Header)

  ghost predicate Seen(c: Config, views: nat -> Header) {
    forall k: nat :: Rooted(c.hs, views(k))
  }

  /** When a step can be taken: a section is picked up while it is known and not stored, and processing it gives
      an error or the last block of a section of some chain that continues the old head. */
  ghost predicate Enabled(c: Config, s: Index, a: Action) {
    match a
    case Head(_, _, view) => Rooted(c.hs, view)
    case Sections(views) => Seen(c, views)
    case Begin(views) => s.job.None? && s.known > s.stored && Seen(c, views)
    case ResetFailed => s.job.Some?
    case Finish(result, views) =>
      s.job.Some? && Seen(c, views)
          && (result.Some? ==> SectionChain(c, s.job.value.section, s.job.value.oldHead, result.value))
  }

  function PickUp(s: Index): Index {
    s.(job := Some(Job(s.stored, SectionHead(s.heads, s.stored - 1))))
  }

  ghost function Next(c: Config, s: Index, a: Action): Index
    requires Legal(c) && Enabled(c, s, a)
  {
    match a
    case Head(head, reorg, view) => NewHead(c, s, head, reorg, view)
    case Sections(views) => VerifyLastHead(c, s, views)
    case Begin(views) => PickUp(VerifyLastHead(c, s, views))
    case ResetFailed => SetValidSections(s, 0)
    case Finish(result, views) => FinishJob(c, s, s.job.value, result, views)
  }

  /** Mark the section completed if processing succeeded and its predecessor is still the one it continues. */
  function FinishJob(c: Config, s: Index, j: Job, result: Option<Hash>, views: nat -> Header): Index {
    if result.Some? && (j.section == 0 || j.oldHead == SectionHead(s.heads, j.section - 1)) then
      SetValidSections(s.(heads := s.heads[j.section := result.value]), j.section + 1).(job := None)
    else
      var v := VerifyLastHead(c, s, views);
      v.(known := v.stored, job := None)
  }

  /** Section i continues section i - 1. */
  ghost predicate Linked(c: Config, heads: map<nat, Hash>, i: nat) {
    i in heads && SectionChain(c, i, SectionHead(heads, i - 1), heads[i])
  }

  /** The stored sections from b on are linked to each other and to the head before them. */
  ghost predicate LinkedFrom(c: Config, s: Index, b: nat) {
    && b <= s.stored
    && (b > 0 ==> SectionHead(s.heads, b - 1) != ZERO_HASH)
    && forall i: nat :: b <= i < s.stored ==> Linked(c, s.heads, i)
  }

  ghost predicate Inv(c: Config, s: Index) {
    && (LinkedFrom(c, s, c.checkpoint) || LinkedFrom(c, s, 0))
    && (forall i :: i in s.heads ==> i < s.stored)
    && (s.job.Some? ==> JobOk(s, s.job.value))
  }

  ghost predicate JobOk(s: Index, j: Job) {
    s.stored <= j.section && (if j.section == 0 then j.oldHead == ZERO_HASH else j.oldHead != ZERO_HASH)
  }

  lemma LinkedFrame(c: Config, heads: map<nat, Hash>, heads': map<nat, Hash>, i: nat)
    requires Linked(c, heads, i) && i in heads' && heads'[i] == heads[i]
             && SectionHead(heads', i - 1) == SectionHead(heads, i - 1)
    ensures Linked(c, heads', i)
  {
  }

  lemma TruncateLinked(c: Config, s: Index, b: nat, n: nat)
    requires LinkedFrom(c, s, b) && b <= n <= s.stored
    ensures LinkedFrom(c, SetValidSections(s, n), b)
  {
    hide SectionChain;
    var s' := SetValidSections(s, n);
    forall i: nat | b <= i < n ensures Linked(c, s'.heads, i) {
      assert Linked(c, s.heads, i);
      LinkedFrame(c, s.heads, s'.heads, i);
    }
  }

  /** Dropping sections keeps the rest linked, as long as it stops at the checkpoint or drops everything. */
  lemma TruncateKeeps(c: Config, s: Index, n: nat)
    requires Inv(c, s) && n <= s.stored && (c.checkpoint <= n || n == 0 || LinkedFrom(c, s, 0))
    ensures Inv(c, SetValidSections(s, n))
  {
    hide Linked;
    var s' := SetValidSections(s, n);
    if LinkedFrom(c, s, 0) {
      TruncateLinked(c, s, 0, n);
    } else if n == 0 {
      assert LinkedFrom(c, s', 0);
    } else {
      TruncateLinked(c, s, c.checkpoint, n);
    }
  }

  lemma {:induction false} VerifyKeeps(c: Config, s: Index, views: nat -> Header)
    requires Inv(c, s)
    ensures var s' := VerifyLastHead(c, s, views);
            Inv(c, s') && s'.stored <= s.stored && s'.known == s.known && s'.job == s.job
                && (s.stored > c.checkpoint ==> s'.stored >= c.checkpoint)
    decreases s.stored
  {
    hide LinkedFrom;
    if s.stored > 0 && s.stored > c.checkpoint
        && SectionHead(s.heads, s.stored - 1) != Canonical(c.hs, views(s.stored), Last(c.size, s.stored - 1)) {
      TruncateKeeps(c, s, s.stored - 1);
      VerifyKeeps(c, SetValidSections(s, s.stored - 1), views);
    }
  }

  /** No section head is added or changed. */
  ghost predicate Fewer(s: Index, s': Index) {
    forall i :: i in s'.heads ==> i in s.heads && s'.heads[i] == s.heads[i]
  }

  lemma {:induction false} VerifyFewer(c: Config, s: Index, views: nat -> Header)
    ensures Fewer(s, VerifyLastHead(c, s, views))
    decreases s.stored
  {
    if s.stored > 0 && s.stored > c.checkpoint
        && SectionHead(s.heads, s.stored - 1) != Canonical(c.hs, views(s.stored), Last(c.size, s.stored - 1)) {
      VerifyFewer(c, SetValidSections(s, s.stored - 1), views);
    }
  }

  /** The heads of the sections left stay as they are. */
  lemma {:induction false} VerifyRest(c: Config, s: Index, views: nat -> Header)
    ensures var s' := VerifyLastHead(c, s, views);
            s'.stored <= s.stored && forall i :: i in s.heads && i < s'.stored ==> i in s'.heads
    decreases s.stored
  {
    if s.stored > 0 && s.stored > c.checkpoint
        && SectionHead(s.heads, s.stored - 1) != Canonical(c.hs, views(s.stored), Last(c.size, s.stored - 1)) {
      VerifyRest(c, SetValidSections(s, s.stored - 1), views);
    }
  }

  lemma NewHeadFewer(c: Config, s: Index, head: nat, reorg: bool, view: Header)
    requires c.size > 0
    ensures Fewer(s, NewHead(c, s, head, reorg, view))
  {
  }

  lemma NewHeadKeeps(c: Config, s: Index, head: nat, reorg: bool, view: Header)
    requires Legal(c) && Inv(c, s)
    ensures Inv(c, NewHead(c, s, head, reorg, view))
  {
    hide LinkedFrom, SetValidSections, Canonical, ParentClosed;
    if reorg {
      var n := (head + 1) / c.size;
      var t := s.(known := Min(if n < c.checkpoint then 0 else n, s.known));
      var stored := if n < c.checkpoint then c.checkpoint else n;
      KnownFrame(c, s, t);
      if stored < s.stored { TruncateKeeps(c, t, stored); }
    } else {
      KnownFrame(c, s, NewHead(c, s, head, reorg, view));
    }
  }

  lemma KnownFrame(c: Config, s: Index, t: Index)
    requires Inv(c, s) && t == s.(known := t.known)
    ensures Inv(c, t)
  {
    hide Linked;
    assert forall b: nat :: LinkedFrom(c, s, b) ==> LinkedFrom(c, t, b);
  }

  /** The last stored head is never empty. */
  lemma LastNonZero(c: Config, s: Index)
    requires Inv(c, s) && s.stored > 0
    ensures SectionHead(s.heads, s.stored - 1) != ZERO_HASH
  {
    var b := if LinkedFrom(c, s, 0) then 0 else c.checkpoint;
    if s.stored > b { assert Linked(c, s.heads, s.stored - 1); }
  }

  lemma HeadNonZero(c: Config, s: Index, i: nat)
    requires Inv(c, s) && c.checkpoint <= i < s.stored
    ensures SectionHead(s.heads, i) != ZERO_HASH
  {
    assert Linked(c, s.heads, i);
  }

  lemma PickUpKeeps(c: Config, s: Index)
    requires Inv(c, s) && s.job.None?
    ensures Inv(c, PickUp(s))
  {
    if s.stored > 0 { LastNonZero(c, s); }
    hide Linked;
    assert forall b: nat :: LinkedFrom(c, s, b) ==> LinkedFrom(c, PickUp(s), b);
  }

  /** Section j went in: it is the last one stored, ends in newHead, and the ones before are as they were. */
  ghost predicate Completed(s: Index, j: Job, newHead: Hash, s': Index) {
    && s'.stored == j.section + 1 && s'.known == s.known && s'.job.None?
    && (forall i :: i in s'.heads <==> i in s.heads || i == j.section)
    && s'.heads[j.section] == newHead && forall i :: i in s.heads && i != j.section ==> s'.heads[i] == s.heads[i]
  }

  /** Section j did not go in, no other did, and nothing is due until the next notice. */
  ghost predicate GivenUp(s: Index, j: Job, s': Index) {
    && s'.stored <= s.stored && s'.known == s'.stored && s'.job.None? && j.section !in s'.heads
    && s'.stored <= j.section
    && (forall i :: i in s'.heads <==> i in s.heads && i < s'.stored)
    && (forall i :: i in s'.heads ==> s'.heads[i] == s.heads[i])
  }

  /** Finishing stores the section if and only if processing it succeeded and what it continues is still there. */
  lemma FinishExactly(c: Config, s: Index, result: Option<Hash>, views: nat -> Header)
    requires Legal(c) && Inv(c, s) && Enabled(c, s, Finish(result, views))
    ensures var j, s' := s.job.value, Next(c, s, Finish(result, views));
            if result.Some? && SectionHead(s.heads, j.section - 1) == j.oldHead then Completed(s, j, result.value, s')
            else GivenUp(s, j, s')
  {
    hide SectionChain, Legal, VerifyLastHead;
    if result.Some? && SectionHead(s.heads, s.job.value.section - 1) == s.job.value.oldHead {
      AcceptKeeps(c, s, result.value);
    } else {
      hide Linked, LinkedFrom;
      VerifyKeeps(c, s, views);
      VerifyFewer(c, s, views);
      VerifyRest(c, s, views);
    }
  }

  /** A section that is accepted continues exactly what is stored, whatever reorganisations happened while it
      was processed. */
  lemma AcceptKeeps(c: Config, s: Index, newHead: Hash)
    requires Inv(c, s) && s.job.Some?
    requires SectionChain(c, s.job.value.section, s.job.value.oldHead, newHead)
    requires s.job.value.section == 0 || s.job.value.oldHead == SectionHead(s.heads, s.job.value.section - 1)
    ensures s.stored == s.job.value.section
    ensures Inv(c,
            SetValidSections(s.(heads := s.heads[s.job.value.section := newHead]),
            s.job.value.section + 1).(job := None))
  {
    hide SectionChain;
    var j := s.job.value;
    assert s.stored == j.section;
    var s' := SetValidSections(s.(heads := s.heads[j.section := newHead]), j.section + 1).(job := None);
    var b := if LinkedFrom(c, s, 0) then 0 else c.checkpoint;
    forall i: nat | b <= i < s'.stored ensures Linked(c, s'.heads, i) {
      if i < s.stored {
        assert Linked(c, s.heads, i);
        LinkedFrame(c, s.heads, s'.heads, i);
      }
    }
    assert LinkedFrom(c, s', b);
  }

  lemma FinishKeeps(c: Config, s: Index, result: Option<Hash>, views: nat -> Header)
    requires Legal(c) && Inv(c, s) && Enabled(c, s, Finish(result, views))
    ensures Inv(c, Next(c, s, Finish(result, views)))
  {
    hide SectionChain, LinkedFrom, Legal;
    var j := s.job.value;
    if result.Some? && (j.section == 0 || j.oldHead == SectionHead(s.heads, j.section - 1)) {
      AcceptKeeps(c, s, result.value);
    } else {
      VerifyKeeps(c, s, views);
      var v := VerifyLastHead(c, s, views);
      JobFrame(c, v, v.(known := v.stored, job := None));
    }
  }

  lemma JobFrame(c: Config, s: Index, t: Index)
    requires Inv(c, s) && t == s.(known := t.known, job := None)
    ensures Inv(c, t)
  {
    hide Linked;
    assert forall b: nat :: LinkedFrom(c, s, b) ==> LinkedFrom(c, t, b);
  }

  /** Every locked step keeps the stored sections hash-linked. */
  lemma StepKeeps(c: Config, s: Index, a: Action)
    requires Legal(c) && Inv(c, s) && Enabled(c, s, a)
    ensures Inv(c, Next(c, s, a))
  {
    hide Inv, Legal, Seen, VerifyLastHead, SetValidSections;
    match a
    case Head(head, reorg, view) => NewHeadKeeps(c, s, head, reorg, view);
    case Sections(views) => VerifyKeeps(c, s, views);
    case Begin(views) => VerifyKeeps(c, s, views); PickUpKeeps(c, VerifyLastHead(c, s, views));
    case ResetFailed => TruncateKeeps(c, s, 0);
    case Finish(result, views) => FinishKeeps(c, s, result, views);
  }

  ghost predicate LegalTrace(c: Config, s: Index, trace: seq<Action>)
    requires Legal(c)
    decreases |trace|
  {
    trace != [] ==> Enabled(c, s, trace[0]) && LegalTrace(c, Next(c, s, trace[0]), trace[1..])
  }

  ghost function Run(c: Config, s: Index, trace: seq<Action>): Index
    requires Legal(c) && LegalTrace(c, s, trace)
    decreases |trace|
  {
    if trace == [] then s else Run(c, Next(c, s, trace[0]), trace[1..])
  }

  lemma {:induction false} TraceStep(c: Config, s: Index, trace: seq<Action>, a: Action)
    requires Legal(c) && LegalTrace(c, s, trace) && Enabled(c, Run(c, s, trace), a)
    ensures LegalTrace(c, s, trace + [a]) && Run(c, s, trace + [a]) == Next(c, Run(c, s, trace), a)
    decreases |trace|
  {
    hide Legal, Next, Enabled;
    if trace == [] {
      assert trace + [a] == [a];
      assert LegalTrace(c, Next(c, s, a), [a][1..]);
    } else {
      assert (trace + [a])[0] == trace[0] && (trace + [a])[1..] == trace[1..] + [a];
      TraceStep(c, Next(c, s, trace[0]), trace[1..], a);
    }
  }

  ghost predicate Reached(c: Config, origin: Index, trace: seq<Action>, s: Index)
    requires Legal(c)
  {
    LegalTrace(c, origin, trace) && Run(c, origin, trace) == s
  }

  lemma ReachStep(c: Config, origin: Index, trace: seq<Action>, s: Index, a: Action)
    requires Legal(c) && Reached(c, origin, trace, s) && Enabled(c, s, a)
    ensures Reached(c, origin, trace + [a], Next(c, s, a))
  {
    TraceStep(c, origin, trace, a);
  }

  /** A new indexer: nothing stored, or the checkpoint only. */
  function Fresh(c: Config): Index {
    Index(c.checkpoint, 0, if c.checkpoint == 0 then map[] else map[c.checkpoint - 1 := c.checkpointHead], None)
  }

  /** One section is canonical in the chain of v, and a run of linked ones below it is too. */
  lemma {:induction false} LinkedCanonical(c: Config, heads: map<nat, Hash>, b: nat, n: nat, v: Header)
    requires Legal(c) && Rooted(c.hs, v) && b <= n
    requires forall i: nat :: b <= i <= n ==> Linked(c, heads, i)
    requires SectionHead(heads, n) == Canonical(c.hs, v, Last(c.size, n))
    ensures forall i: nat :: b <= i <= n ==> SectionHead(heads, i) == Canonical(c.hs, v, Last(c.size, i))
    ensures b > 0 ==> SectionHead(heads, b - 1) == Canonical(c.hs, v, Last(c.size, b - 1))
    decreases n
  {
    hide Legal, Linked, Rooted, Canonical;
    assert Linked(c, heads, n);
    if n > 0 {
      PreviousCanonical(c, heads, n, v);
      if n > b {
        LinkedCanonical(c, heads, b, n - 1, v);
      }
    }
  }

  lemma PreviousCanonical(c: Config, heads: map<nat, Hash>, n: nat, v: Header)
    requires Legal(c) && Rooted(c.hs, v) && n > 0 && Linked(c, heads, n)
    requires SectionHead(heads, n) == Canonical(c.hs, v, Last(c.size, n))
    ensures SectionHead(heads, n - 1) == Canonical(c.hs, v, Last(c.size, n - 1))
  {
    hide ParentClosed, PathMap;
    SectionBounds(c.size, n);
    var first, last := Start(c.size, n), Last(c.size, n);
    hide Start, Last;
    var x := c.hs[heads[n]];
    PathMapAt(c.hs, v, last);
    AncestorStored(c.hs, v, last);
    AncestorOfAncestor(c.hs, v, last, first);
    AncestorsAbove(c.hs, v, 0, first - 1);
    ParentOfAncestor(c.hs, v, first - 1);
    PathMapAt(c.hs, v, first - 1);
  }

  /** What a caller of verifyLastHead may rely on: the sections left beyond the checkpoint are all on the chain
      that was canonical at the last read, and a section is dropped only when it was read to be off it. */
  lemma {:induction false} VerifiedCanonical(c: Config, s: Index, views: nat -> Header)
    requires Legal(c) && Inv(c, s) && Seen(c, views)
    ensures var s' := VerifyLastHead(c, s, views);
            forall i: nat :: c.checkpoint <= i < s'.stored
                ==> SectionHead(s'.heads, i) == Canonical(c.hs, views(s'.stored), Last(c.size, i))
    ensures var s' := VerifyLastHead(c, s, views);
            forall k: nat :: s'.stored < k <= s.stored
                ==> SectionHead(s.heads, k - 1) != Canonical(c.hs, views(k), Last(c.size, k - 1))
    decreases s.stored
  {
    hide LinkedFrom, Canonical, Legal, Linked, Last;
    if s.stored > 0 && s.stored > c.checkpoint {
      if SectionHead(s.heads, s.stored - 1) != Canonical(c.hs, views(s.stored), Last(c.size, s.stored - 1)) {
        TruncateKeeps(c, s, s.stored - 1);
        VerifiedCanonical(c, SetValidSections(s, s.stored - 1), views);
      } else {
        TopCanonical(c, s, views(s.stored));
      }
    }
  }

  lemma TopCanonical(c: Config, s: Index, v: Header)
    requires Legal(c) && Inv(c, s) && Rooted(c.hs, v) && s.stored > c.checkpoint
    requires SectionHead(s.heads, s.stored - 1) == Canonical(c.hs, v, Last(c.size, s.stored - 1))
    ensures forall i: nat :: c.checkpoint <= i < s.stored
              ==> SectionHead(s.heads, i) == Canonical(c.hs, v, Last(c.size, i))
  {
    hide Legal, Rooted, Canonical, Last;
    var b := if LinkedFrom(c, s, 0) then 0 else c.checkpoint;
    assert Linked(c, s.heads, s.stored - 1);
    LinkedCanonical(c, s.heads, b, s.stored - 1, v);
    assert forall i: nat :: b <= i < s.stored ==> Linked(c, s.heads, i);
  }

  /** The trusted sections, or as many of them as are stored, are on the chain of v. */
  ghost predicate Based(c: Config, s: Index, v: Header) {
    var b := Min(s.stored, c.checkpoint);
    b > 0 ==> SectionHead(s.heads, b - 1) == Canonical(c.hs, v, Last(c.size, b - 1))
  }

  /** The last stored section is on the chain of v. */
  ghost predicate OnTop(c: Config, s: Index, v: Header) {
    s.stored > 0 ==> SectionHead(s.heads, s.stored - 1) == Canonical(c.hs, v, Last(c.size, s.stored - 1))
  }

  /** Verified against a chain that does not change, the sections left end on it, and none is dropped that did. */
  lemma VerifySteady(c: Config, s: Index, v: Header, views: nat -> Header)
    requires Legal(c) && Inv(c, s) && Rooted(c.hs, v) && Based(c, s, v) && forall k: nat :: views(k) == v
    ensures var s' := VerifyLastHead(c, s, views);
            && OnTop(c, s', v) && Based(c, s', v) && s'.stored <= s.stored && s'.known == s.known
            && (OnTop(c, s, v) ==> s' == s)
  {
    hide Legal, Rooted, Canonical, Last, LinkedFrom;
    VerifiedCanonical(c, s, views);
    VerifyRest(c, s, views);
    VerifyFewer(c, s, views);
    VerifyKeeps(c, s, views);
  }

  /** In every run of a new indexer, whatever reorganisations interleave with it, the stored sections stay
      hash-linked, and verifying the last head makes every section beyond the checkpoint canonical. */
  lemma {:induction false} RunKeeps(c: Config, s: Index, trace: seq<Action>)
    requires Legal(c) && Inv(c, s) && LegalTrace(c, s, trace)
    ensures Inv(c, Run(c, s, trace))
    decreases |trace|
  {
    hide Inv, Legal, Next, Enabled;
    if trace != [] {
      StepKeeps(c, s, trace[0]);
      RunKeeps(c, Next(c, s, trace[0]), trace[1..]);
    }
  }

  lemma RunCanonical(c: Config, origin: Index, trace: seq<Action>, views: nat -> Header)
    requires Legal(c) && Inv(c, origin) && LegalTrace(c, origin, trace) && Seen(c, views)
    ensures var s := VerifyLastHead(c, Run(c, origin, trace), views);
            forall i: nat :: c.checkpoint <= i < s.stored
                ==> SectionHead(s.heads, i) == Canonical(c.hs, views(s.stored), Last(c.size, i))
  {
    RunKeeps(c, origin, trace);
    VerifiedCanonical(c, Run(c, origin, trace), views);
  }

  /** A new indexer is one to start from; it holds the checkpoint and nothing else. */
  lemma FreshInv(c: Config)
    requires Legal(c)
    ensures Inv(c, Fresh(c)) && Fresh(c).stored == c.checkpoint && Fresh(c).known == 0
    ensures forall i: nat :: i in Fresh(c).heads <==> i + 1 == c.checkpoint
    ensures c.checkpoint > 0 ==> Fresh(c).heads[c.checkpoint - 1] == c.checkpointHead
  {
    assert LinkedFrom(c, Fresh(c), c.checkpoint);
  }

  lemma MoreSections(a: nat, b: nat, size: nat)
    requires a <= b
    ensures Start(size, a) <= Start(size, b)
  {
    assert b * size == a * size + (b - a) * size;
  }

  lemma WholeSections(size: nat, n: nat)
    requires size > 0
    ensures Start(size, n / size) <= n < Start(size, n / size + 1)
  {
  }

  lemma SectionsBelow(size: nat, n: nat, i: nat)
    requires size > 0
    ensures i < n / size <==> Start(size, i + 1) <= n
  {
    hide Start;
    var q := n / size;
    WholeSections(size, n);
    if i < q { MoreSections(i + 1, q, size); } else { MoreSections(q + 1, i + 1, size); }
  }

  /** A reorganisation down to a block forgets exactly the sections beyond the checkpoint that reach past it. */
  lemma ReorgForgets(c: Config, s: Index, head: nat, view: Header, i: nat)
    requires Legal(c) && Inv(c, s) && i < s.stored
    ensures var s' := NewHead(c, s, head, true, view);
            if c.checkpoint <= i && Last(c.size, i) > head then s'.stored <= i && SectionHead(s'.heads, i) == ZERO_HASH
            else i < s'.stored && SectionHead(s'.heads, i) == SectionHead(s.heads, i)
  {
    hide LinkedFrom, ParentClosed, Canonical;
    SectionsBelow(c.size, head + 1, i);
  }

  /** It also forgets every known section that reaches past the block, and all of them if it goes below the
      checkpoint. */
  lemma ReorgKnown(c: Config, s: Index, head: nat, view: Header, i: nat)
    requires Legal(c)
    ensures i < NewHead(c, s, head, true, view).known
       <==> i < s.known && Last(c.size, i) <= head && (c.checkpoint > 0 ==> Last(c.size, c.checkpoint - 1) <= head)
  {
    hide ParentClosed, Canonical;
    SectionsBelow(c.size, head + 1, i);
    if c.checkpoint > 0 { SectionsBelow(c.size, head + 1, c.checkpoint - 1); }
  }

  /** A head notice makes exactly the sections known that have enough blocks on top, once the checkpoint is confirmed:
      the chain reaches past it with enough blocks, and the block it names is canonical. */
  lemma KnownExactly(c: Config, s: Index, head: nat, view: Header, i: nat)
    requires Legal(c)
    ensures var s' := NewHead(c, s, head, false, view);
            && s' == s.(known := s'.known)
            && (i < s'.known
                <==> i < s.known
                     || (&& Last(c.size, i) + c.confirms <= head
                         && (c.checkpoint > 0 ==> Last(c.size, c.checkpoint - 1) + c.confirms <= head)
                         && (s.known < c.checkpoint
                             ==> Canonical(c.hs, view, Last(c.size, c.checkpoint - 1)) == c.checkpointHead)))
  {
    hide ParentClosed, Canonical;
    if head >= c.confirms {
      SectionsBelow(c.size, head + 1 - c.confirms, i);
      if c.checkpoint > 0 { SectionsBelow(c.size, head + 1 - c.confirms, c.checkpoint - 1); }
    } else {
      SectionBounds(c.size, i);
    }
  }

  /** Only sections with enough blocks on top become known. */
  lemma KnownConfirmed(c: Config, s: Index, head: nat, view: Header)
    requires Legal(c) && NewHead(c, s, head, false, view).known != s.known
    ensures Last(c.size, NewHead(c, s, head, false, view).known - 1) + c.confirms <= head
  {
    hide ParentClosed, Canonical;
    var n := NewHead(c, s, head, false, view).known;
    SectionsBelow(c.size, head + 1 - c.confirms, n - 1);
  }
}
