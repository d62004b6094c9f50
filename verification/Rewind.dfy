/** The rewind itself: the loop that lowers the head markers block by block, cuts the freezer as it goes and
    deletes the rest in one final batch. */
module Rewind {
  import opened Common
  import opened HeaderStore
  import opened RewindSpec

  /** The hashes stored at a height, on all forks. */
  function AllHashes(kv: Store, n: nat): set<Hash> {
    set x | x in kv && kv[x].number == n
  }

  ghost function Above(kv: Store, n: nat): set<Hash> {
    set x | x in kv && kv[x].number >= n
  }

  lemma AboveShrinks(kv: Store, n: nat)
    requires AllHashes(kv, n) != {}
    ensures Above(kv, n + 1) < Above(kv, n)
  {
    assert Above(kv, n) == Above(kv, n + 1) + AllHashes(kv, n);
    assert Above(kv, n + 1) !! AllHashes(kv, n);
  }

  class Rewinder {
    const genesis: Header
    /** Roots of the available states, and the snap sync pivot. */
    const states: set<Hash>
    const pivot: Option<nat>

    var kv: Store
    var ancient: seq<Header>
    var canon: map<nat, Hash>
    /** The rest of the key-value store: total difficulties, bodies with receipts, and numbers by hash. */
    var td: map<(nat, Hash), nat>
    var contents: set<(nat, Hash)>
    var numbers: map<Hash, nat>
    /** The head markers, in memory and on disk. */
    var header: Header
    var block: Header
    var snap: Header
    var headerMark: Hash
    var blockMark: Hash
    var snapMark: Hash
    /** What was on disk after each write. */
    ghost var history: seq<Disk>

    ghost function Now(): Disk
      reads this
    {
      Disk(kv, ancient, canon, headerMark, blockMark, snapMark)
    }

    ghost predicate Valid()
      reads this
    {
      && Filed(ancient) && genesis.number == 0 && Readable(kv, ancient, genesis)
      && Readable(kv, ancient, header) && Readable(kv, ancient, block) && Readable(kv, ancient, snap)
      && headerMark == header.hash && blockMark == block.hash && snapMark == snap.hash
      && forall d :: d in history ==> Safe(d)
    }

    constructor (genesis: Header, states: set<Hash>, pivot: Option<nat>, disk: Disk, td: map<(nat, Hash), nat>,
                 contents: set<(nat, Hash)>, numbers: map<Hash, nat>, header: Header, block: Header, snap: Header)
      requires Filed(disk.ancient) && genesis.number == 0 && Readable(disk.kv, disk.ancient, genesis)
      requires Readable(disk.kv, disk.ancient, header) && Readable(disk.kv, disk.ancient, block)
               && Readable(disk.kv, disk.ancient, snap)
      requires disk.header == header.hash && disk.block == block.hash && disk.snap == snap.hash
      ensures Valid() && Now() == disk && this.header == header && this.block == block && this.snap == snap
              && history == []
      ensures this.genesis == genesis && this.states == states && this.pivot == pivot
      ensures this.td == td && this.contents == contents && this.numbers == numbers
    {
      this.genesis, this.states, this.pivot := genesis, states, pivot;
      this.td, this.contents, this.numbers := td, contents, numbers;
      kv, ancient, canon := disk.kv, disk.ancient, disk.canon;
      this.header, this.block, this.snap := header, block, snap;
      headerMark, blockMark, snapMark := disk.header, disk.block, disk.snap;
      history := [];
    }

    /** A frozen block is complete; any other needs its body in the key-value store. */
    predicate HasBody(h: Header)
      reads this
    {
      (h.number < |ancient| && ancient[h.number].hash == h.hash) || (h.number, h.hash) in contents
    }

    /** Search down from head for a block with state, giving up below the limit or at a gap. What it returns
        has a state or is the genesis block. */
    method RewindHashHead(start: Header) returns (r: Header)
      requires Valid()
      ensures r == Rewound(kv, ancient, states, genesis, Limit(pivot, start.number), start)
      ensures r.root in states || r.number == 0
      ensures r.number > 0 ==> AncestorRead(kv, ancient, start, r.number) == Some(r)
      ensures forall b: nat :: b > 0 ==> (r.number == b <==>
                NearestRead(kv, ancient, states, start, b)
                && match pivot case None => start.number - b <= 90000 case Some(p) => p <= b)
    {
      ghost var found := Rewound(kv, ancient, states, genesis, Limit(pivot, start.number), start);
      forall b: nat | b > 0
        ensures found.number == b <==> NearestRead(kv, ancient, states, start, b) && Limit(pivot, start.number) <= b
        ensures found.number == b ==> AncestorRead(kv, ancient, start, b) == Some(found)
      {
        SearchFinds(kv, ancient, states, genesis, Limit(pivot, start.number), start, b);
      }
      hide NearestRead, AncestorRead;
      var limit: nat := 0;
      if pivot.Some? {
        limit := pivot.value;
      } else if start.number > FULL_IMMUTABILITY {
        limit := start.number - FULL_IMMUTABILITY;
      }
      var head := start;
      while true
        invariant Rewound(kv, ancient, states, genesis, limit, head)
                  == Rewound(kv, ancient, states, genesis, limit, start)
        decreases head.number
      {
        if head.number < limit { return genesis; }
        if head.root in states { return head; }
        var parent := ReadHeader(kv, ancient, head.parent, head.number - 1);
        if parent.None? { return genesis; }
        head := parent.value;
        if head.number == 0 { return head; }
      }
    }

    /** Lower the head block and the snap head to at most the given header, in memory. The fatal exit for a
        stateless head block above genesis is never taken. */
    method UpdateHeads(p: Header) returns (head: Header, force: bool)
      requires Valid() && Readable(kv, ancient, p)
      modifies `block, `snap
      ensures Readable(kv, ancient, block) && block.number <= p.number && Readable(kv, ancient, snap)
              && snap.number <= p.number
      ensures block == if p.number <= old(block).number
                         then Rewound(kv, ancient, states, genesis, Limit(pivot, p.number), p)
                         else old(block)
      ensures snap == if p.number < old(snap).number then (if old(HasBody(p)) then p else genesis) else old(snap)
      ensures p.number < old(snap).number && p in ancient ==> snap == p
      ensures p.number < old(snap).number && (p.number, p.hash) in contents ==> snap == p
      ensures snap in {p, genesis, old(snap)}
      ensures head == block && force == (block.number + 1 < |ancient| && (pivot.None? || block.number >= pivot.value))
    {
      if p.number <= block.number {
        RewoundReadable(kv, ancient, states, genesis, Limit(pivot, p.number), p);
        block := RewindHashHead(p);
        if block.root !in states && block.number != 0 { assert false; }
      }
      if p.number < snap.number {
        snap := if HasBody(p) then p else genesis;
      }
      head := block;
      force := false;
      if block.number + 1 < |ancient| {
        force := pivot.None? || block.number >= pivot.value;
      }
    }

    /** Everything a marker may name is below n. */
    ghost predicate Below(n: nat)
      reads this
    {
      header.number < n && block.number < n && snap.number < n
    }

    method WriteMarkers(p: Header)
      requires Filed(ancient) && genesis.number == 0 && Readable(kv, ancient, genesis)
               && forall d :: d in history ==> Safe(d)
      requires Readable(kv, ancient, p) && Readable(kv, ancient, block) && Readable(kv, ancient, snap)
      modifies `header, `headerMark, `blockMark, `snapMark, `history
      ensures Valid() && header == p && history == old(history) + [Now()]
    {
      headerMark, blockMark, snapMark := p.hash, block.hash, snap.hash;
      header := p;
      ReadableHeld(Now(), header);
      ReadableHeld(Now(), block);
      ReadableHeld(Now(), snap);
      history := history + [Now()];
    }

    /** Cut the freezer above n. */
    method TruncateHead(n: nat)
      requires Valid() && n < |ancient| && Below(n) && n > 0
      modifies `ancient, `history
      ensures Valid() && ancient == old(ancient)[..n] && history == old(history) + [Now()]
    {
      TruncateReadable(kv, ancient, n, genesis);
      TruncateReadable(kv, ancient, n, header);
      TruncateReadable(kv, ancient, n, block);
      TruncateReadable(kv, ancient, n, snap);
      ancient := ancient[..n];
      ReadableHeld(Now(), header);
      ReadableHeld(Now(), block);
      ReadableHeld(Now(), snap);
      history := history + [Now()];
    }

    /** The stored heights directly above num, highest first. */
    method Leftovers(num: nat) returns (nums: seq<nat>, ghost end: nat)
      ensures forall n: nat :: n in nums <==> n > num && forall m: nat :: num < m <= n ==> AllHashes(kv, m) != {}
      ensures forall i, j :: 0 <= i < j < |nums| ==> nums[i] > nums[j]
      ensures end > num && AllHashes(kv, end) == {} && forall n: nat :: n in nums <==> num < n < end
    {
      var n := num + 1;
      nums := [];
      while AllHashes(kv, n) != {}
        invariant n > num && forall m: nat :: m in nums <==> num < m < n
        invariant forall m: nat :: num < m < n ==> AllHashes(kv, m) != {}
        invariant forall i, j :: 0 <= i < j < |nums| ==> nums[i] > nums[j]
        decreases Above(kv, n)
      {
        AboveShrinks(kv, n);
        assert forall i :: 0 <= i < |nums| ==> nums[i] in nums;
        nums := [n] + nums;
        n := n + 1;
      }
      end := n;
    }

    /** Doom every header at the given heights, cutting the freezer where they are frozen. A height without any
        header in the key-value store dooms hdr. The block whose turn cuts the freezer keeps what the key-value store
        holds of its contents. */
    method Sweep(nums: seq<nat>, hdr: Header, ghost low: nat)
      returns (doomed: set<(nat, Hash)>, emptied: set<(nat, Hash)>)
      requires Valid() && 0 < low && Below(low) && forall n :: n in nums ==> n >= low
      modifies `ancient, `history
      ensures Valid() && ancient <= old(ancient) && (low in nums ==> |ancient| == Lower(|old(ancient)|, low))
      ensures forall e :: e in doomed ==> e.0 in nums
      ensures Swept(kv, doomed, nums)
      ensures emptied <= doomed && (old(ancient) == [] ==> emptied == doomed)
      ensures old(history) <= history
    {
      doomed, emptied := {}, {};
      var i := 0;
      while i < |nums|
        invariant i <= |nums| && Valid() && Below(low) && ancient <= old(ancient) && old(history) <= history
        invariant |ancient| >= Lower(|old(ancient)|, low) && (low in nums[..i] ==> |ancient| <= low)
        invariant Marked(kv, nums, i, doomed) && emptied <= doomed && (old(ancient) == [] ==> emptied == doomed)
      {
        hide Marked, Safe;
        var num: nat := nums[i];
        assert num in nums;
        var hashes := AllHashes(kv, num);
        if hashes == {} { hashes := {hdr.hash}; }
        var more: set<(nat, Hash)> := set x | x in hashes :: (num, x);
        MarkedStep(kv, doomed, more, hashes, nums, i, hdr);
        if num + 1 <= |ancient| {
          var first :| first in hashes;
          TruncateHead(num);
          emptied := emptied + (more - {(num, first)});
        } else {
          emptied := emptied + more;
        }
        doomed := doomed + more;
        i := i + 1;
      }
      assert nums[..i] == nums;
    }

    /** Write the deletions out. */
    method Flush(doomed: set<(nat, Hash)>, emptied: set<(nat, Hash)>, dropped: set<nat>)
      requires Valid() && forall e :: e in doomed
                            ==> e.0 > 0 && e.0 > header.number && e.0 > block.number && e.0 > snap.number
      modifies `kv, `canon, `td, `contents, `numbers, `history
      ensures Valid() && kv == Flushed(old(kv), doomed) && canon == old(canon) - dropped
              && history == old(history) + [Now()]
      ensures td == old(td) - doomed && contents == old(contents) - emptied
              && numbers == old(numbers) - HashesOf(doomed)
    {
      FlushReadable(kv, ancient, doomed, genesis);
      FlushReadable(kv, ancient, doomed, header);
      FlushReadable(kv, ancient, doomed, block);
      FlushReadable(kv, ancient, doomed, snap);
      kv := Flushed(kv, doomed);
      canon, td, contents, numbers := canon - dropped, td - doomed, contents - emptied, numbers - HashesOf(doomed);
      ReadableHeld(Now(), header);
      ReadableHeld(Now(), block);
      ReadableHeld(Now(), snap);
      history := history + [Now()];
    }

    ghost function StartOf(): Start
      reads this
    {
      Start(kv, canon, td, contents, numbers, states, pivot, genesis, header, block, snap)
    }

    /** The first half of a turn: all markers move to the parent or below. */
    method LowerHeads(target: nat) returns (newTarget: nat, ghost p: Header)
      requires Valid() && header.number > target
      modifies `header, `block, `snap, `headerMark, `blockMark, `snapMark, `history
      ensures Valid() && header == p && old(history) <= history
      ensures p == match ReadHeader(kv, ancient, old(header).parent, old(header).number - 1)
                   case None => genesis
                   case Some(h) => h
      ensures block == if p.number <= old(block).number
                         then Rewound(kv, ancient, states, genesis, Limit(pivot, p.number), p)
                         else old(block)
      ensures snap == if p.number < old(snap).number then (if old(HasBody(p)) then p else genesis) else old(snap)
      ensures block.number <= p.number < old(header).number && snap.number <= p.number
              && (p == genesis || p.number == old(header).number - 1)
      ensures newTarget == if block.number + 1 < |ancient| && (pivot.None? || block.number >= pivot.value) then
                             Lower(block.number, target)
                           else target
    {
      hide Rewound, Safe, Limit;
      var parent := ReadHeader(kv, ancient, header.parent, header.number - 1);
      var q := if parent.None? then genesis else parent.value;
      p := q;
      var head, force := UpdateHeads(q);
      newTarget := target;
      if force && head.number < target { newTarget := head.number; }
      WriteMarkers(q);
    }

    /** One turn of the loop: the markers move before anything is cut or doomed. */
    method Turn(target: nat, origin: bool)
      returns (newTarget: nat, doomed: set<(nat, Hash)>, emptied: set<(nat, Hash)>, nums: seq<nat>, ghost p: Header,
              ghost end: nat)
      requires Valid() && header.number > target
      modifies `ancient, `header, `block, `snap, `headerMark, `blockMark, `snapMark, `history
      ensures Valid() && header == p && old(history) <= history
      ensures p == match ReadHeader(kv, old(ancient), old(header).parent, old(header).number - 1)
                   case None => genesis
                   case Some(h) => h
      ensures block == if p.number <= old(block).number
                         then Rewound(kv, old(ancient), states, genesis, Limit(pivot, p.number), p)
                         else old(block)
      ensures snap == if p.number < old(snap).number then (if old(HasBody(p)) then p else genesis) else old(snap)
      ensures block.number <= p.number < old(header).number && snap.number <= p.number
      ensures newTarget == if block.number + 1 < |old(ancient)| && (pivot.None? || block.number >= pivot.value) then
                             Lower(block.number, target)
                           else target
      ensures ancient <= old(ancient) && |ancient| == Lower(|old(ancient)|, old(header).number)
              && (p == genesis || p.number == old(header).number - 1)
      ensures Swept(kv, doomed, nums)
      ensures emptied <= doomed && (old(ancient) == [] ==> emptied == doomed)
      ensures forall e :: e in doomed ==> e.0 > p.number
      ensures Heights(kv, origin, old(header).number, nums, end)
    {
      hide Rewound, Safe, Limit, AllHashes, Readable, ReadHeader, Swept;
      var hdr := header;
      newTarget, p := LowerHeads(target);
      nums := [];
      end := 0;
      if origin { nums, end := Leftovers(hdr.number); }
      nums := nums + [hdr.number];
      doomed, emptied := Sweep(nums, hdr, hdr.number);
    }

    /** The loop: walk the head header down to the target, or to the lower one the freezer forces. */
    method Descend(n: nat) returns (doomed: set<(nat, Hash)>, emptied: set<(nat, Hash)>, dropped: set<nat>)
      requires Valid()
      modifies `ancient, `header, `block, `snap, `headerMark, `blockMark, `snapMark, `history
      ensures Valid() && old(history) <= history && header.number <= n && ancient <= old(ancient) && emptied <= doomed
      ensures forall e :: e in doomed ==> e.0 > header.number && e.0 > block.number && e.0 > snap.number
      ensures old(header).number > n
              ==> Lowered() && NotUnderflown()
                  && (header == genesis || header.number == n || header.number + 1 < |old(ancient)|)
      ensures Consistent(old(StartOf())) && old(ancient) == []
              ==> emptied == doomed && Plain(old(StartOf()), header, block, snap, doomed, dropped)
                  && (header.number == old(header).number || header.number == n)
    {
      hide Safe, Plain, Consistent, Rewound, ReadHeader, AllHashes, Readable, Limit, Swept, Heights;
      ghost var r := StartOf();
      ghost var plain := Consistent(r) && ancient == [];
      var target: nat, origin := n, true;
      doomed, emptied, dropped := {}, {}, {};
      if plain { PlainStart(r); }
      while header.number > target
        invariant Valid() && old(history) <= history && target <= n && emptied <= doomed && ancient <= old(ancient)
        invariant origin ==> header == r.header && doomed == {}
        invariant !origin ==> Lowered() && (target <= block.number || NotUnderflown())
        invariant !origin ==> header == genesis || header.number >= target
        invariant target == n || target + 1 < |old(ancient)|
        invariant forall e :: e in doomed ==> e.0 > header.number
        invariant plain
                  ==> ancient == [] && target == n && emptied == doomed
                      && Plain(r, header, block, snap, doomed, dropped)
        invariant plain
                  ==> (origin <==> header.number == r.header.number)
                      && (!origin ==> n <= header.number < r.header.number)
        decreases header.number
      {
        ghost var was, wasBlock, wasSnap := header, block, snap;
        ghost var wasDoomed, wasDropped := doomed, dropped;
        var more, bare, nums;
        ghost var p, end;
        target, more, bare, nums, p, end := Turn(target, origin);
        doomed, emptied := doomed + more, emptied + bare;
        dropped := dropped + (set k | k in nums);
        origin := false;
        if plain {
          PlainTurn(r, was, wasBlock, wasSnap, wasDoomed, wasDropped, more, nums, end, header, block, snap);
        }
      }
    }

    /** Rewind to a block number. At every point between two writes the markers on disk name stored headers. All
        heads end at or below the target, below it only among frozen blocks or where a gap forced genesis, and the
        freezer ends at the new head and not above the head block, unless that is below the pivot. On a
        consistent chain without frozen blocks the result is exact: the headers numbered at most the target remain,
        with their difficulties, contents and numbers, the canonical map is the path of the block at the target, the
        snap head is on it, and the head block is the one defined by the target alone (see SettledExactly). */
    method SetHead(n: nat)
      requires Valid()
      modifies this
      ensures Valid() && old(history) <= history && (forall d :: d in history ==> Safe(d))
      ensures |history| > |old(history)| && history[|history| - 1] == Now()
      ensures header.number <= n && ancient <= old(ancient)
              && (forall x :: x in kv ==> x in old(kv) && kv[x] == old(kv)[x])
      ensures forall x :: x in old(kv) && old(kv)[x].number <= header.number ==> x in kv
      ensures old(header).number > n
              ==> Lowered() && NotUnderflown()
                  && (header == genesis || header.number == n || header.number + 1 < |old(ancient)|)
      ensures Consistent(old(StartOf())) && old(ancient) == [] ==> Exact(old(StartOf()), n, StartOf())
    {
      hide Safe, Plain, Consistent, Exact, Flushed, Readable, HashesOf;
      ghost var r := StartOf();
      var doomed, emptied, dropped := Descend(n);
      Flush(doomed, emptied, dropped);
      FlushedIs(r.kv, doomed, header.number);
      if Consistent(r) && old(ancient) == [] { PlainEnd(r, n, header, block, snap, doomed, dropped, StartOf()); }
    }

    /** All heads are together, and the freezer ends with them unless a gap forced genesis. */
    ghost predicate Lowered()
      reads this
    {
      block.number <= header.number && snap.number <= header.number
          && (|ancient| <= header.number + 1 || header == genesis)
    }

    /** No block above the head block is left in the freezer, unless the head block is below the pivot or a gap forced
        genesis. */
    ghost predicate NotUnderflown()
      reads this
    {
      |ancient| <= block.number + 1 || (pivot.Some? && block.number < pivot.value) || header == genesis
    }
  }

  /** What a rewind starts from and ends in. */
  datatype Start = Start(kv: Store, canon: map<nat, Hash>, td: map<(nat, Hash), nat>, contents: set<(nat, Hash)>,
                         numbers: map<Hash, nat>, states: set<Hash>, pivot: Option<nat>, genesis: Header,
                         header: Header, block: Header, snap: Header)

  /** The database keys of the headers above height k. */
  ghost function KeysAbove(kv: Store, k: int): set<(nat, Hash)> {
    set x | x in kv && kv[x].number > k :: (kv[x].number, x)
  }

  function HashesOf(keys: set<(nat, Hash)>): set<Hash> {
    set e | e in keys :: e.1
  }

  /** A consistent chain without frozen blocks, whose snap head is canonical: every header has its difficulty and its
      number filed. */
  ghost predicate Consistent(r: Start) {
    && ParentClosed(r.kv, r.genesis.hash) && Stored(r.kv, r.genesis) && Stored(r.kv, r.header)
    && r.canon == PathMap(r.kv, r.header) && AncestorAt(r.kv, r.header, r.snap.number) == Some(r.snap)
    && r.td.Keys == KeysAbove(r.kv, -1) && r.contents <= KeysAbove(r.kv, -1)
        && r.numbers == map x | x in r.kv :: r.kv[x].number
  }

  /** Where the rewind stands when the head header has come down to header: on the old chain, with exactly the
      headers and canonical numbers above it doomed. */
  ghost predicate Plain(r: Start, header: Header, block: Header, snap: Header, doomed: set<(nat, Hash)>,
                        dropped: set<nat>) {
    && AncestorAt(r.kv, r.header, header.number) == Some(header)
    && block == BlockAt(r.kv, r.states, r.pivot, r.genesis, r.header, r.block, header.number)
    && snap == SnapAt(r.kv, r.contents, r.genesis, r.header, r.snap, header.number)
    && Doomed(r, header.number, doomed, dropped)
  }

  ghost predicate Doomed(r: Start, k: nat, doomed: set<(nat, Hash)>, dropped: set<nat>) {
    if k == r.header.number then doomed == {} && dropped == {}
    else
      && doomed == KeysAbove(r.kv, k)
      && (forall n: nat :: n <= r.header.number ==> (n in dropped <==> n > k))
  }

  function Upto(kv: Store, n: nat): Store {
    map x | x in kv && kv[x].number <= n :: kv[x]
  }

  /** Everything filed under a height above n is gone, and nothing else. */
  ghost predicate CutTo(r: Start, n: nat, s: Start) {
    && s.kv == Upto(r.kv, n) && s.numbers == (map x | x in s.kv :: s.kv[x].number)
    && s.td == (map e | e in r.td && e.0 <= n :: r.td[e]) && s.contents == (set e | e in r.contents && e.0 <= n)
  }

  /** The outcome of rewinding to n: nothing happens at or below n already; otherwise everything above n goes, on
      all forks, and the heads are where the way down left them. */
  ghost predicate Exact(r: Start, n: nat, s: Start) {
    if r.header.number <= n then s == r
    else
      && CutTo(r, n, s) && AncestorAt(r.kv, r.header, n) == Some(s.header)
      && s.canon == PathMap(s.kv, s.header)
      && s.block == BlockAt(r.kv, r.states, r.pivot, r.genesis, r.header, r.block, n)
      && s.snap == SnapAt(r.kv, r.contents, r.genesis, r.header, r.snap, n)
  }

  lemma PlainStart(r: Start)
    requires Consistent(r)
    ensures Plain(r, r.header, r.block, r.snap, {}, {})
  {
  }

  /** The parent read in a turn is the next canonical block down. */
  lemma ParentTurn(r: Start, was: Header)
    requires Consistent(r) && AncestorAt(r.kv, r.header, was.number) == Some(was) && was.number > 0
    ensures ReadHeader(r.kv, [], was.parent, was.number - 1) == AncestorAt(r.kv, r.header, was.number - 1)
    ensures AncestorAt(r.kv, r.header, was.number - 1).Some?
  {
    hide ParentClosed;
    AncestorStored(r.kv, r.header, was.number);
    RootIs(r.kv, r.genesis, was);
    ParentOfAncestor(r.kv, r.header, was.number - 1);
  }

  /** Heights fill up from below: where a header is stored, so is one at every lower height. */
  lemma LevelFilled(kv: Store, genesis: Hash, x: Hash, n: nat)
    requires ParentClosed(kv, genesis) && x in kv && n <= kv[x].number
    ensures AllHashes(kv, n) != {}
  {
    hide ParentClosed;
    ClosedRooted(kv, genesis, kv[x]);
    AncestorsAbove(kv, kv[x], 0, n);
    AncestorStored(kv, kv[x], n);
    assert AncestorAt(kv, kv[x], n).value.hash in AllHashes(kv, n);
  }

  /** The headers a turn dooms are those at the heights it sweeps. */
  ghost predicate Swept(kv: Store, more: set<(nat, Hash)>, nums: seq<nat>) {
    && (forall x :: x in kv ==> ((kv[x].number, x) in more <==> kv[x].number in nums))
    && ((forall n :: n in nums ==> AllHashes(kv, n) != {}) ==> forall e :: e in more ==> e.1 in AllHashes(kv, e.0))
  }

  /** The heights of a turn: the head's own, and on the first turn the stored ones above it. */
  ghost predicate Heights(kv: Store, first: bool, k: nat, nums: seq<nat>, end: nat) {
    if first then
      && end > k && AllHashes(kv, end) == {} && (forall n: nat :: n in nums <==> k <= n < end)
      && (forall n :: n in nums && n != k ==> AllHashes(kv, n) != {})
    else nums == [k]
  }

  lemma KeyIs(kv: Store, k: int, e: (nat, Hash))
    ensures e in KeysAbove(kv, k) <==> e.1 in kv && kv[e.1].number == e.0 > k
  {
    match e
    case (n, x) => if x in kv && kv[x].number == n > k { assert e == (kv[x].number, x); }
  }

  lemma DoomTurn(r: Start, was: Header, doomed: set<(nat, Hash)>, dropped: set<nat>, more: set<(nat, Hash)>,
                 nums: seq<nat>, end: nat)
    requires Consistent(r) && 0 < was.number <= r.header.number && Doomed(r, was.number, doomed, dropped)
             && Stored(r.kv, was)
    requires Swept(r.kv, more, nums) && Heights(r.kv, was.number == r.header.number, was.number, nums, end)
    ensures Doomed(r, was.number - 1, doomed + more, dropped + (set n | n in nums))
  {
    hide ParentClosed, PathMap;
    var k := was.number;
    assert was.hash in AllHashes(r.kv, k);
    assert forall n :: n in nums ==> AllHashes(r.kv, n) != {};
    forall x | x in r.kv ensures (r.kv[x].number, x) in doomed + more <==> r.kv[x].number > k - 1 {
      if k == r.header.number && r.kv[x].number >= end { LevelFilled(r.kv, r.genesis.hash, x, end); }
    }
    forall e: (nat, Hash) ensures e in doomed + more <==> e in KeysAbove(r.kv, k - 1) {
      KeyIs(r.kv, k, e);
      KeyIs(r.kv, k - 1, e);
      if e in more { assert e.1 in AllHashes(r.kv, e.0); }
    }
  }

  lemma PlainTurn(r: Start, was: Header, wasBlock: Header, wasSnap: Header, doomed: set<(nat, Hash)>, dropped: set<nat>,
                  more: set<(nat, Hash)>, nums: seq<nat>, end: nat, p: Header, block: Header, snap: Header)
    requires Consistent(r) && r.genesis.number == 0 && Plain(r, was, wasBlock, wasSnap, doomed, dropped)
             && was.number > 0
    requires p == match ReadHeader(r.kv, [], was.parent, was.number - 1) case None => r.genesis case Some(h) => h
    requires block == if p.number <= wasBlock.number
                         then Rewound(r.kv, [], r.states, r.genesis, Limit(r.pivot, p.number), p)
                         else wasBlock
    requires snap
             == if p.number < wasSnap.number then (if (p.number, p.hash) in r.contents then p else r.genesis)
             else wasSnap
    requires Swept(r.kv, more, nums) && Heights(r.kv, was.number == r.header.number, was.number, nums, end)
    ensures Plain(r, p, block, snap, doomed + more, dropped + (set n | n in nums)) && p.number == was.number - 1
  {
    hide ParentClosed, PathMap, AllHashes, BlockAt, SnapAt, Rewound, Doomed, AncestorAt, ReadHeader, KeysAbove,
        Swept, Heights;
    ParentTurn(r, was);
    AncestorStored(r.kv, r.header, was.number);
    DoomTurn(r, was, doomed, dropped, more, nums, end);
    BlockStep(r.kv, r.states, r.pivot, r.genesis, r.header, r.block, was.number - 1);
    SnapStep(r.kv, r.contents, r.genesis, r.header, r.snap, was.number - 1);
  }

  /** Cutting a closed store at a height keeps it closed, and the paths in it. */
  lemma UptoPath(kv: Store, genesis: Hash, h: Header, n: nat)
    requires ParentClosed(kv, genesis) && Stored(kv, h) && h.number <= n
    ensures ParentClosed(Upto(kv, n), genesis) && Stored(Upto(kv, n), h) && PathMap(Upto(kv, n), h) == PathMap(kv, h)
  {
    var kv' := Upto(kv, n);
    forall x | x in kv' ensures HasParent(kv', genesis, x) {
      assert HasParent(kv, genesis, x);
    }
    hide HasParent;
    ClosedRooted(kv', genesis, h);
    RootedFrame(kv', kv, h);
  }

  lemma PlainEnd(r: Start, n: nat, header: Header, block: Header, snap: Header, doomed: set<(nat, Hash)>,
                 dropped: set<nat>, s: Start)
    requires Consistent(r) && Plain(r, header, block, snap, doomed, dropped) && header.number <= n
    requires header.number == r.header.number || header.number == n
    requires s == r.(kv := Flushed(r.kv, doomed), canon := r.canon - dropped, td := r.td - doomed,
             contents := r.contents - doomed,
                     numbers := r.numbers - HashesOf(doomed), header := header, block := block, snap := snap)
    ensures Exact(r, n, s)
  {
    hide SettledBlock, AnyBare, ParentClosed, PathMap, KeysAbove, CutTo;
    if r.header.number <= n {
      assert s.kv == r.kv && s.canon == r.canon && s.td == r.td && s.contents == r.contents && s.numbers == r.numbers;
    } else {
      AncestorStored(r.kv, r.header, n);
      UptoPath(r.kv, r.genesis.hash, header, n);
      CutPath(r.kv, r.genesis.hash, r.header, n, dropped);
      CutKeys(r, n, doomed, s);
    }
  }

  /** Deleting the keys above n leaves the headers, difficulties, contents and numbers up to n. */
  lemma CutKeys(r: Start, n: nat, doomed: set<(nat, Hash)>, s: Start)
    requires Consistent(r) && doomed == KeysAbove(r.kv, n) && s.kv == Flushed(r.kv, doomed)
    requires s.td == r.td - doomed && s.contents == r.contents - doomed && s.numbers == r.numbers - HashesOf(doomed)
    ensures CutTo(r, n, s) && s.kv == Upto(r.kv, n)
  {
    hide ParentClosed, PathMap, AncestorAt;
    forall e | e in KeysAbove(r.kv, -1) ensures e in doomed <==> e.0 > n {}
    forall x | x in r.kv ensures x in HashesOf(doomed) <==> r.kv[x].number > n {
      if r.kv[x].number > n { assert (r.kv[x].number, x) in doomed; }
    }
    assert Flushed(r.kv, doomed) == Upto(r.kv, n);
  }

  lemma CutPath(kv: Store, genesis: Hash, head: Header, n: nat, dropped: set<nat>)
    requires ParentClosed(kv, genesis) && Stored(kv, head) && AncestorAt(kv, head, n).Some?
    requires forall k: nat :: k <= head.number ==> (k in dropped <==> k > n)
    ensures PathMap(kv, head) - dropped == PathMap(kv, AncestorAt(kv, head, n).value)
  {
    ClosedRooted(kv, genesis, head);
    forall k: nat ensures k in PathMap(kv, head) <==> k <= head.number { PathMapRooted(kv, head, k); }
    PathMapPrefix(kv, head, n);
    hide PathMap;
    var cut := map k | k in PathMap(kv, head) && k <= n :: PathMap(kv, head)[k];
    assert forall k: nat :: k in PathMap(kv, head) - dropped <==> k in cut;
    assert PathMap(kv, head) - dropped == cut;
  }

  /** The headers left are exactly those numbered at most n, if and only if the rewind had something to undo or
      nothing was stored above n in the first place. */
  lemma ExactlyBelow(r: Start, n: nat, s: Start)
    requires Consistent(r) && Exact(r, n, s)
    ensures s.kv == Upto(r.kv, n) <==> r.header.number > n || forall x :: x in r.kv ==> r.kv[x].number <= n
  {
    if forall x :: x in r.kv ==> r.kv[x].number <= n {
      assert Upto(r.kv, n) == r.kv;
    } else {
      var x :| x in r.kv && r.kv[x].number > n;
      assert x !in Upto(r.kv, n);
    }
  }

  /** h is the canonical block at its height in s. */
  ghost predicate OnCanon(s: Start, h: Header) {
    h.number in s.canon && s.canon[h.number] == h.hash
  }

  lemma AncestorOnCanon(r: Start, n: nat, s: Start, h: Header)
    requires Consistent(r) && Exact(r, n, s) && r.header.number > n && h.number <= n
    requires AncestorAt(r.kv, r.header, h.number) == Some(h)
    ensures OnCanon(s, h)
  {
    hide ParentClosed, BlockAt, SnapAt, PathMap;
    AncestorStored(r.kv, r.header, n);
    UptoPath(r.kv, r.genesis.hash, s.header, n);
    AncestorOfAncestor(r.kv, r.header, n, h.number);
    PathMapAt(r.kv, s.header, h.number);
  }

  /** A rewind to n below both heads leaves a snap head and a head block on the canonical prefix, and the head block
      has state or is genesis. */
  lemma Settled(r: Start, n: nat, s: Start)
    requires Consistent(r) && Exact(r, n, s) && r.header.number > n && r.block.number >= n && r.genesis.number == 0
    ensures OnCanon(s, s.snap) && OnCanon(s, s.block) && s.block.number <= n
    ensures s.block.root in r.states || s.block == r.genesis
  {
    hide ParentClosed, AnyHit, AnyBare, PathMap, CutTo;
    ClosedRooted(r.kv, r.genesis.hash, r.header);
    AncestorStored(r.kv, r.header, n);
    BestIs(r.kv, r.states, r.genesis, s.header);
    AncestorOfAncestor(r.kv, r.header, n, Best(r.kv, r.states, s.header).number);
    assert r.kv[r.genesis.hash] == r.genesis;
    AncestorOnCanon(r, n, s, s.block);
    AncestorOnCanon(r, n, s, s.snap);
  }

  /** No canonical block between h and the target n has state. */
  ghost predicate NoneBetter(r: Start, n: nat, h: Header) {
    forall k: nat :: h.number < k <= n
        ==> AncestorAt(r.kv, r.header, k).Some? && AncestorAt(r.kv, r.header, k).value.root !in r.states
  }

  /** The search limit stops the search from some canonical block on the way down to n. */
  ghost predicate LimitHit(r: Start, n: nat) {
    AnyHit(r.kv, r.states, r.pivot, r.header, n, Lower(r.header.number - 1, r.block.number))
  }

  /** The new head block is the nearest canonical block with state, or genesis where there is none, if and only if the
      search limit never interfered or there is no such state anyway. */
  lemma SettledExactly(r: Start, n: nat, s: Start)
    requires Consistent(r) && Exact(r, n, s) && r.header.number > n && r.block.number >= n && r.genesis.number == 0
    ensures s.block == Best(r.kv, r.states, s.header)
       <==> !LimitHit(r, n) || Best(r.kv, r.states, s.header).number == 0
    ensures s.block == Best(r.kv, r.states, s.header) <==> NoneBetter(r, n, s.block)
    ensures s.block != Best(r.kv, r.states, s.header) ==> s.block == r.genesis
  {
    hide ParentClosed, AnyHit, AnyBare, PathMap, CutTo;
    AncestorStored(r.kv, r.header, n);
    var b := Best(r.kv, r.states, s.header);
    RewoundIs(r.kv, r.states, r.genesis, 0, s.header);
    BestIs(r.kv, r.states, r.genesis, s.header);
    forall k: nat | k <= n ensures AncestorAt(r.kv, r.header, k) == AncestorAt(r.kv, s.header, k) {
      AncestorOfAncestor(r.kv, r.header, n, k);
    }
    if NoneBetter(r, n, s.block) && b.number > 0 { assert AncestorAt(r.kv, r.header, b.number) == Some(b); }
  }

  /** The canonical block at height k has state. */
  ghost predicate StateAt(r: Start, k: nat) {
    AncestorAt(r.kv, r.header, k).Some? && AncestorAt(r.kv, r.header, k).value.root in r.states
  }

  /** Block b is the nearest canonical block with state at or below block j. */
  ghost predicate Nearest(r: Start, j: nat, b: nat) {
    b <= j && StateAt(r, b) && forall k: nat :: b < k <= j ==> !StateAt(r, k)
  }

  /** Every block the head block passes on its way down to n has its nearest state within reach: above genesis no more
      than 90000 blocks down, or not below the pivot where there is one. */
  ghost predicate WithinReach(r: Start, n: nat) {
    forall j: nat, b: nat :: n <= j < r.header.number && j <= r.block.number && 0 < b && Nearest(r, j, b)
        ==> match r.pivot case None => j - b <= 90000 case Some(p) => p <= b
  }

  lemma NearestIs(r: Start, j: nat)
    requires Consistent(r) && j <= r.header.number
    ensures AncestorAt(r.kv, r.header, j).Some?
    ensures var b := Best(r.kv, r.states, AncestorAt(r.kv, r.header, j).value).number;
            && b <= j && (forall k: nat :: b < k <= j ==> !StateAt(r, k)) && (b > 0 ==> StateAt(r, b))
  {
    hide ParentClosed, PathMap;
    ClosedRooted(r.kv, r.genesis.hash, r.header);
    AncestorsAbove(r.kv, r.header, 0, j);
    var h := AncestorAt(r.kv, r.header, j).value;
    AncestorStored(r.kv, r.header, j);
    BestIs(r.kv, r.states, r.genesis, h);
    forall k: nat | k <= j ensures AncestorAt(r.kv, r.header, k) == AncestorAt(r.kv, h, k) {
      AncestorOfAncestor(r.kv, r.header, j, k);
    }
  }

  lemma ReachIs(r: Start, n: nat)
    requires Consistent(r) && r.genesis.number == 0
    ensures LimitHit(r, n) <==> !WithinReach(r, n)
  {
    hide ParentClosed, PathMap, Best, Consistent, StateAt;
    if LimitHit(r, n) {
      var j: nat :| n <= j <= Lower(r.header.number - 1, r.block.number)
                    && HitAt(r.kv, r.states, r.pivot, r.header, j);
      NearestIs(r, j);
      assert Nearest(r, j, Best(r.kv, r.states, AncestorAt(r.kv, r.header, j).value).number);
    }
    if !WithinReach(r, n) {
      var j: nat, b: nat :| n <= j < r.header.number && j <= r.block.number && 0 < b && Nearest(r, j, b)
          && !(match r.pivot case None => j - b <= 90000 case Some(p) => p <= b);
      NearestIs(r, j);
      assert Best(r.kv, r.states, AncestorAt(r.kv, r.header, j).value).number == b;
      assert HitAt(r.kv, r.states, r.pivot, r.header, j);
    }
  }

  /** The exact condition in terms of what is stored. A rewind to n settles on the nearest canonical block with state,
      or on genesis where there is none, if and only if every state was within reach on the way or there is none above
      genesis. */
  lemma SettledWithin(r: Start, n: nat, s: Start)
    requires Consistent(r) && Exact(r, n, s) && r.header.number > n && r.block.number >= n && r.genesis.number == 0
    ensures AncestorAt(r.kv, r.header, s.block.number) == Some(s.block) && s.block.number <= n
    ensures StateAt(r, s.block.number) || s.block == r.genesis
    ensures (forall k: nat :: s.block.number < k <= n ==> !StateAt(r, k))
       <==> WithinReach(r, n) || (forall k: nat :: 0 < k <= n ==> !StateAt(r, k))
    ensures (exists k: nat :: s.block.number < k <= n && StateAt(r, k)) ==> s.block == r.genesis
  {
    hide ParentClosed, PathMap, Best, LimitHit, WithinReach, CutTo, AnyHit;
    SettledExactly(r, n, s);
    ReachIs(r, n);
    NearestIs(r, n);
    Settled(r, n, s);
    AncestorStored(r.kv, r.header, n);
    BestIs(r.kv, r.states, r.genesis, s.header);
    ClosedRooted(r.kv, r.genesis.hash, r.header);
    AncestorOfAncestor(r.kv, r.header, n, Best(r.kv, r.states, s.header).number);
  }

  /** Without a pivot, a state no more than 90000 blocks below the old head block is never given up for genesis. */
  lemma NearStateKept(r: Start, n: nat, s: Start, k: nat)
    requires Consistent(r) && Exact(r, n, s) && r.header.number > n && r.block.number >= n && r.genesis.number == 0
    requires r.pivot == None && k <= n && StateAt(r, k) && r.block.number - k <= 90000
    ensures s.block.number >= k && StateAt(r, s.block.number)
  {
    hide ParentClosed, PathMap, StateAt, Consistent, Exact;
    SettledWithin(r, n, s);
    forall j: nat, b: nat | n <= j < r.header.number && j <= r.block.number && 0 < b && Nearest(r, j, b)
      ensures j - b <= 90000
    {
    }
    assert WithinReach(r, n);
  }

  /** The snap head follows a rewind below it to the target if and only if no block on the way lacks its body;
      otherwise it is genesis. A head the rewind does not pass stays where it is. */
  lemma HeadsFollow(r: Start, n: nat, s: Start)
    requires Consistent(r) && Exact(r, n, s) && r.header.number > n && r.genesis.number == 0
    ensures r.snap.number <= n ==> s.snap == r.snap
    ensures r.block.number < n ==> s.block == r.block
    ensures n < r.snap.number ==> (s.snap == s.header || s.snap == r.genesis)
    ensures n < r.snap.number && n > 0
            ==> (s.snap == s.header
                 <==> forall k: nat :: n <= k < r.header.number && k < r.snap.number
                                       ==> k in r.canon && (k, r.canon[k]) in r.contents)
  {
    hide ParentClosed, PathMap, SettledBlock, CutTo;
    ClosedRooted(r.kv, r.genesis.hash, r.header);
    forall k: nat | k <= r.header.number
      ensures k in r.canon && AncestorAt(r.kv, r.header, k).Some?
              && r.canon[k] == AncestorAt(r.kv, r.header, k).value.hash
    {
      PathMapRooted(r.kv, r.header, k);
      PathMapAt(r.kv, r.header, k);
    }
    if n < r.snap.number && n > 0 {
      if k: nat :| n <= k < r.header.number && k < r.snap.number && (k, r.canon[k]) !in r.contents {
        assert BareAt(r.kv, r.contents, r.header, k);
      }
    }
  }

  /** A chain of five blocks with state at block 1 only and the pivot at block 2. Rewinding it to block 3 falls back to
      genesis, because the search from block 3 does not go below the pivot. */
  lemma LimitFallsBack(bloom: Bloom)
    ensures var h := (i: nat) => Header(i + 1, i, i, 0, i, bloom);
            var kv: map<Hash, Header> := map[1 := h(0), 2 := h(1), 3 := h(2), 4 := h(3), 5 := h(4)];
            && Keyed(kv) && ParentClosed(kv, 1) && AncestorAt(kv, h(4), 3) == Some(h(3))
            && Best(kv, {1}, h(3)) == h(1)
            && BlockAt(kv, {1}, Some(2), h(0), h(4), h(4), 3) == h(0)
  {
    var h := (i: nat) => Header(i + 1, i, i, 0, i, bloom);
    var kv: map<Hash, Header> := map[1 := h(0), 2 := h(1), 3 := h(2), 4 := h(3), 5 := h(4)];
    assert Keyed(kv);
    var hs: Store := kv;
    forall i: nat | 0 < i < 5 ensures Parent(hs, h(i)) == Some(h(i - 1)) {}
    forall x | x in hs ensures HasParent(hs, 1, x) {}
    assert Best(hs, {1}, h(2)) == h(1);
    assert AncestorAt(hs, h(4), 3) == Some(h(3));
    assert HitAt(hs, {1}, Some(2), h(4), 3);
  }

  /** A head at block 1 with a longer side chain beside it. Rewinding to block 1 changes nothing, so the side block at
      height 2 stays. */
  lemma LeftAbove(bloom: Bloom)
    ensures var g, h := Header(1, ZERO_HASH, 0, 0, 0, bloom), Header(2, 1, 1, 0, 0, bloom);
            var s1, s2 := Header(3, 1, 1, 0, 0, bloom), Header(4, 3, 2, 0, 0, bloom);
            var kv: map<Hash, Header> := map[1 := g, 2 := h, 3 := s1, 4 := s2];
            && Keyed(kv)
            && var r := Start(kv, map[0 := 1, 1 := 2], map[(0, 1) := 0, (1, 2) := 0, (1, 3) := 0, (2, 4) := 0], {},
                              map[1 := 0, 2 := 1, 3 := 1, 4 := 2], {}, None, g, h, h, h);
            Consistent(r) && Exact(r, 1, r) && r.kv != Upto(r.kv, 1)
  {
    var g, h := Header(1, ZERO_HASH, 0, 0, 0, bloom), Header(2, 1, 1, 0, 0, bloom);
    var s1, s2 := Header(3, 1, 1, 0, 0, bloom), Header(4, 3, 2, 0, 0, bloom);
    var kv: map<Hash, Header> := map[1 := g, 2 := h, 3 := s1, 4 := s2];
    assert Keyed(kv);
    var hs: Store := kv;
    var r := Start(hs, map[0 := 1, 1 := 2], map[(0, 1) := 0, (1, 2) := 0, (1, 3) := 0, (2, 4) := 0], {},
                   map[1 := 0, 2 := 1, 3 := 1, 4 := 2], {}, None, g, h, h, h);
    forall x | x in hs ensures HasParent(hs, 1, x) {}
    assert Parent(hs, g).None? && Parent(hs, h) == Some(g);
    assert PathMap(hs, g) == map[0 := 1];
    forall e: (nat, Hash) ensures e in r.td <==> e in KeysAbove(hs, -1) { KeyIs(hs, -1, e); }
    assert 4 in hs && 4 !in Upto(hs, 1);
  }

  lemma FlushedIs(kv: Store, doomed: set<(nat, Hash)>, n: nat)
    requires forall e :: e in doomed ==> e.0 > n
    ensures forall x :: x in Flushed(kv, doomed) ==> x in kv && Flushed(kv, doomed)[x] == kv[x]
    ensures forall x :: x in kv && kv[x].number <= n ==> x in Flushed(kv, doomed)
  {
  }

  /** The doomed keys after the first i heights. */
  ghost predicate Marked(kv: Store, nums: seq<nat>, i: nat, doomed: set<(nat, Hash)>)
    requires i <= |nums|
  {
    && (forall e :: e in doomed ==> e.0 in nums[..i])
    && (forall x :: x in kv ==> ((kv[x].number, x) in doomed <==> kv[x].number in nums[..i]))
    && ((forall n :: n in nums ==> AllHashes(kv, n) != {}) ==> forall e :: e in doomed ==> e.1 in AllHashes(kv, e.0))
  }

  lemma MarkedStep(kv: Store, doomed: set<(nat, Hash)>, more: set<(nat, Hash)>, hashes: set<Hash>, nums: seq<nat>,
                   i: nat, hdr: Header)
    requires i < |nums| && hashes == (if AllHashes(kv, nums[i]) == {} then {hdr.hash} else AllHashes(kv, nums[i]))
    requires more == (set x | x in hashes :: (nums[i], x)) && Marked(kv, nums, i, doomed)
    ensures Marked(kv, nums, i + 1, doomed + more) && exists x :: x in hashes
  {
    assert nums[..i + 1] == nums[..i] + [nums[i]];
    forall x | x in kv ensures (kv[x].number, x) in doomed + more <==> kv[x].number in nums[..i + 1] {
      if kv[x].number == nums[i] { assert x in AllHashes(kv, nums[i]); }
    }
    assert nums[i] in nums;
    SomeHash(hashes);
  }

  lemma SomeHash(hashes: set<Hash>)
    ensures hashes == {} || exists x :: x in hashes
  {
    if !exists x :: x in hashes { assert hashes == {}; }
  }
}
