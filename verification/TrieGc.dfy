/** The in-memory state tries kept alive by a full, non-archive node: every written block references its
    state root, and roots of blocks that fell out of the retention window are dereferenced again. */
module TrieGc {
  import opened Common
  import opened HeaderStore

  const TRIES_IN_MEMORY: nat := 128

  const TWO63: int := 0x8000_0000_0000_0000

  /** Two's complement 64-bit reinterpretation. */
  function Int64(x: int): (r: int)
    ensures -TWO63 <= r < TWO63
  {
    var m := x % TWO64;
    if m < TWO63 then m else m - TWO64
  }

  function Uint64(x: int): (r: nat)
    ensures r < TWO64
  {
    x % TWO64
  }

  /** The queue priority of a block number: older blocks first. */
  function Priority(number: nat): int { Int64(0 - Int64(number)) }

  /** A queued state root with the priority it was pushed with. */
  datatype Item = Item(root: Hash, priority: int) {
    function Number(): nat { Uint64(Int64(-priority)) }
  }

  /** The number is recovered from the priority, for every 64-bit number. */
  lemma NumberOfPriority(root: Hash, number: nat)
    requires number < TWO64
    ensures Item(root, Priority(number)).Number() == number
  {
    hide Int64, Uint64;
    Wrapped(number);
    var p := if number < TWO63 then 0 - number as int else TWO64 - number;
    Wrapped(p);
    Wrapped(0 - p);
    if number == TWO63 { Wrapped(0 - TWO63); }
  }

  lemma Wrapped(x: int)
    requires -TWO63 <= x < TWO64
    ensures Int64(x) == if x < TWO63 then x else x - TWO64
    ensures Uint64(x) == if x < 0 then x + TWO64 else x
  {
    assert x < 0 ==> x % TWO64 == (x + TWO64) % TWO64;
  }

  /** Below 2^63 a higher priority is a lower number. */
  lemma PriorityOrder(a: nat, b: nat)
    requires a < TWO63 && b < TWO63
    ensures Priority(a) <= Priority(b) <==> b <= a
  {
    hide Priority;
    SmallPriority(a);
    SmallPriority(b);
  }

  lemma SmallPriority(n: nat)
    requires n < TWO63
    ensures Priority(n) == 0 - n as int
  {
    assert n % TWO64 == n;
    assert (0 - n as int) % TWO64 == if n == 0 then 0 else TWO64 - n;
  }

  /** Some 64-bit block number was pushed with this priority. */
  ghost predicate Pushed(priority: int) { exists n: nat :: n < TWO64 && priority == Priority(n) }

  lemma {:induction false} MaxExists(q: multiset<Item>)
    requires q != multiset{}
    ensures exists x :: x in q && forall y :: y in q ==> y.priority <= x.priority
    decreases |q|
  {
    var z :| z in q;
    var rest := q - multiset{z};
    if rest == multiset{} {
      assert forall y :: y in q ==> y in rest || y == z;
    } else {
      MaxExists(rest);
      var x :| x in rest && forall y :: y in rest ==> y.priority <= x.priority;
      assert forall y :: y in q ==> y in rest || y == z;
      if z.priority <= x.priority {
        assert x in q;
      } else {
        assert forall y :: y in q ==> y.priority <= z.priority;
      }
    }
  }

  /** The queue, and every Reference and Dereference of a root so far, tagged with the block it was for. */
  datatype GcState = GcState(queue: multiset<Item>, refs: multiset<Item>, derefs: multiset<Item>) {
    /** Exactly the referenced and not yet dereferenced roots are queued. */
    ghost predicate Balanced() {
      refs == derefs + queue && forall x :: x in queue ==> Pushed(x.priority)
    }
  }

  /** The queue puts everything at or below the limit before everything above it. Numbers beyond 2^63 can break
      this, because their priorities wrap around. */
  ghost predicate OrderedAt(q: multiset<Item>, limit: nat) {
    forall x, y :: x in q && y in q && x.Number() <= limit < y.Number() ==> y.priority <= x.priority
  }

  /** Nothing left in the queue comes before anything that was released. */
  ghost predicate Behind(q: multiset<Item>, released: multiset<Item>) {
    forall x, y :: x in released && y in q ==> y.priority <= x.priority
  }

  /** What is left at or below the limit is behind something above it. */
  ghost predicate Held(q: multiset<Item>, limit: nat) {
    forall x :: x in q && x.Number() <= limit
      ==> exists y :: y in q && y.Number() > limit && x.priority <= y.priority
  }

  /** Writing a block references its root once. The first 128 blocks release nothing. After that the roots that left the
      window are released in the order of the queue, up to the first that did not; none of them stays queued, exactly
      when the queue is ordered at the limit. */
  ghost predicate WriteStep(s: GcState, item: Item, s': GcState) {
    && s'.refs == s.refs + multiset{item}
    && s.derefs <= s'.derefs
    && s'.Balanced()
    && (item.Number() <= 128 ==> s'.derefs == s.derefs)
    && (forall x :: s'.derefs[x] > s.derefs[x] ==> x.Number() + 128 <= item.Number())
    && Behind(s'.queue, s'.derefs - s.derefs)
    && (item.Number() > 128 ==> Held(s'.queue, item.Number() - 128))
    && (item.Number() > 128
        ==> ((forall x :: x in s'.queue ==> item.Number() < x.Number() + 128)
             <==> OrderedAt(s.queue + multiset{item}, item.Number() - 128)))
  }

  ghost predicate StopStep(s: GcState, s': GcState) {
    s'.refs == s.refs && s'.queue == multiset{} && s'.Balanced()
  }

  lemma Moved(all: multiset<Item>, q: multiset<Item>, released: multiset<Item>, top: Item)
    requires all == q + released && top in q
    ensures all == (q - multiset{top}) + (released + multiset{top}) && (q - multiset{top}) + multiset{top} == q
    ensures |q - multiset{top}| < |q|
  {
  }

  class Gc {
    var queue: multiset<Item>
    var refs: multiset<Item>
    var derefs: multiset<Item>

    ghost function State(): GcState
      reads this
    {
      GcState(queue, refs, derefs)
    }

    constructor ()
      ensures State() == GcState(multiset{}, multiset{}, multiset{}) && State().Balanced()
    {
      queue, refs, derefs := multiset{}, multiset{}, multiset{};
    }

    /** Take any item of the greatest priority. */
    method Pop() returns (item: Item)
      requires queue != multiset{}
      modifies this`queue
      ensures item in old(queue) && queue == old(queue) - multiset{item}
      ensures forall x :: x in old(queue) ==> x.priority <= item.priority
    {
      MaxExists(queue);
      item :| item in queue && forall x :: x in queue ==> x.priority <= item.priority;
      queue := queue - multiset{item};
    }

    /** Garbage collect anything at or below the retention limit. */
    method Collect(chosen: nat) returns (ghost released: multiset<Item>)
      requires forall x :: x in queue ==> Pushed(x.priority)
      modifies this`queue, this`derefs
      ensures derefs == old(derefs) + released && old(queue) == queue + released
      ensures forall x :: x in released ==> x.Number() <= chosen
      ensures (forall x :: x in queue ==> x.Number() > chosen) <==> OrderedAt(old(queue), chosen)
      ensures Behind(queue, released) && Held(queue, chosen)
    {
      hide Priority, Item.Number, Pushed, OrderedAt, Shielded, Behind, Held;
      released := multiset{};
      NoneBehind(queue);
      ghost var ordered := OrderedAt(queue, chosen);
      ghost var x, y;
      if !ordered { x, y := Disorder(queue, chosen); }
      while queue != multiset{}
        invariant derefs == old(derefs) + released && old(queue) == queue + released
        invariant forall x :: x in released ==> x.Number() <= chosen
        invariant !ordered ==> Shielded(queue, chosen, x, y)
        invariant Behind(queue, released)
        decreases |queue|
      {
        ghost var q := queue;
        var top := Pop();
        Moved(old(queue), q, released, top);
        ReleaseOne(old(derefs), derefs, released, top);
        if top.Number() > chosen {
          queue := queue + multiset{top};
          TopHolds(queue, top, chosen);
          if ordered { OldestFirst(old(queue), q, top, chosen); } else { ShieldedIs(queue, chosen, x, y); }
          return;
        }
        if !ordered { StillShielded(q, chosen, x, y, top); }
        BehindTop(q, released, top);
        derefs := derefs + multiset{top};
        released := released + multiset{top};
      }
      NoneHeld(chosen);
      if !ordered { ShieldedIs(queue, chosen, x, y); }
    }

    method WriteBlock(root: Hash, number: nat)
      requires number < TWO64 && State().Balanced()
      modifies this
      ensures WriteStep(old(State()), Item(root, Priority(number)), State())
    {
      hide Priority, Item.Number, OrderedAt, WriteStep, Behind, Held;
      ghost var s := State();
      var item := Item(root, Priority(number));
      NumberOfPriority(root, number);
      refs := refs + multiset{item};
      queue := queue + multiset{item};
      if number <= TRIES_IN_MEMORY {
        NoneBehind(queue);
        WriteIs(s, item, multiset{}, State());
        return;
      }
      ghost var released := Collect(number - TRIES_IN_MEMORY);
      WriteIs(s, item, released, State());
    }

    method Stop()
      requires State().Balanced()
      modifies this
      ensures StopStep(old(State()), State())
    {
      while queue != multiset{}
        invariant State().Balanced() && refs == old(refs)
        decreases |queue|
      {
        var item := Pop();
        derefs := derefs + multiset{item};
      }
    }
  }

  /** A reference pushed and some roots released, at most up to the limit, make a write. */
  lemma WriteIs(s: GcState, item: Item, released: multiset<Item>, s': GcState)
    requires s.Balanced() && Pushed(item.priority)
    requires s'.refs == s.refs + multiset{item} && s'.derefs == s.derefs + released
             && s.queue + multiset{item} == s'.queue + released
    requires Behind(s'.queue, released)
    requires if item.Number() <= TRIES_IN_MEMORY then released == multiset{}
             else
               && Held(s'.queue, item.Number() - TRIES_IN_MEMORY)
               && (forall x :: x in released ==> x.Number() <= item.Number() - TRIES_IN_MEMORY)
               && ((forall x :: x in s'.queue ==> x.Number() > item.Number() - TRIES_IN_MEMORY)
                   <==> OrderedAt(s.queue + multiset{item}, item.Number() - TRIES_IN_MEMORY))
    ensures WriteStep(s, item, s')
  {
    hide Item.Number, Pushed, OrderedAt, Behind, Held;
    assert s'.derefs - s.derefs == released;
    Rebalanced(s.refs, s.derefs, s.queue, s'.queue, released, item);
    forall x | x in s'.queue ensures Pushed(x.priority) { assert x in s.queue || x == item; }
    assert forall x :: s'.derefs[x] > s.derefs[x] ==> x in released;
  }

  lemma NoneBehind(q: multiset<Item>)
    ensures Behind(q, multiset{})
  {
  }

  lemma NoneHeld(limit: nat)
    ensures Held(multiset{}, limit)
  {
  }

  lemma BehindTop(q: multiset<Item>, released: multiset<Item>, top: Item)
    requires Behind(q, released) && top in q && forall x :: x in q ==> x.priority <= top.priority
    ensures Behind(q - multiset{top}, released + multiset{top})
  {
  }

  lemma TopHolds(q: multiset<Item>, top: Item, limit: nat)
    requires top in q && top.Number() > limit && forall x :: x in q ==> x.priority <= top.priority
    ensures Held(q, limit)
  {
  }

  lemma Rebalanced(refs: multiset<Item>, derefs: multiset<Item>, q: multiset<Item>, q': multiset<Item>,
                   released: multiset<Item>, item: Item)
    requires refs == derefs + q && q + multiset{item} == q' + released
    ensures refs + multiset{item} == (derefs + released) + q'
    ensures forall x :: x in q' ==> x in q || x == item
  {
    assert refs + multiset{item} == derefs + (q + multiset{item});
    assert derefs + (q' + released) == (derefs + released) + q';
    forall x | x in q' ensures x in q || x == item { assert x in q + multiset{item}; }
  }

  /** x should go but is queued behind y, which should stay. */
  ghost predicate Shielded(q: multiset<Item>, limit: nat, x: Item, y: Item) {
    x in q && y in q && x.Number() <= limit < y.Number() && y.priority > x.priority
  }

  lemma Disorder(q: multiset<Item>, limit: nat) returns (x: Item, y: Item)
    requires !OrderedAt(q, limit)
    ensures Shielded(q, limit, x, y)
  {
    x, y :| x in q && y in q && x.Number() <= limit < y.Number() && y.priority > x.priority;
  }

  lemma ShieldedIs(q: multiset<Item>, limit: nat, x: Item, y: Item)
    requires Shielded(q, limit, x, y)
    ensures x in q && x.Number() <= limit
  {
  }

  lemma StillShielded(q: multiset<Item>, limit: nat, x: Item, y: Item, top: Item)
    requires Shielded(q, limit, x, y) && top in q && (forall z :: z in q ==> z.priority <= top.priority)
             && top.Number() <= limit
    ensures Shielded(q - multiset{top}, limit, x, y)
  {
  }

  lemma ReleaseOne(before: multiset<Item>, now: multiset<Item>, released: multiset<Item>, top: Item)
    requires now == before + released
    ensures now + multiset{top} == before + (released + multiset{top})
  {
  }

  /** If the item of greatest priority is inside the window, so is every other one of an ordered queue. */
  lemma OldestFirst(all: multiset<Item>, q: multiset<Item>, top: Item, chosen: nat)
    requires q <= all && OrderedAt(all, chosen)
    requires top in q && (forall x :: x in q ==> x.priority <= top.priority) && top.Number() > chosen
    ensures forall x :: x in q ==> x.Number() > chosen
  {
    hide Int64, Uint64;
    forall x | x in q ensures x.Number() > chosen {
      assert x in all && top in all;
    }
  }

  /** Below 2^63, which every real block number is, the queue is ordered at any limit. */
  lemma SmallOrdered(q: multiset<Item>, limit: nat)
    requires forall x :: x in q ==> Pushed(x.priority) && x.Number() < TWO63
    ensures OrderedAt(q, limit)
  {
    hide Item.Number, Priority;
    forall x, y | x in q && y in q && x.Number() <= limit < y.Number() ensures y.priority <= x.priority {
      var n: nat :| n < TWO64 && x.priority == Priority(n);
      var m: nat :| m < TWO64 && y.priority == Priority(m);
      NumberOfPriority(x.root, n);
      NumberOfPriority(y.root, m);
      PriorityOrder(m, n);
    }
  }

  /** Past 2^63 it need not be: block 2^63 + 1 is taken for the oldest and shields block 0. */
  lemma LargeUnordered(root: Hash, limit: nat)
    requires limit < TWO63
    ensures !OrderedAt(multiset{Item(root, Priority(0)), Item(root, Priority((TWO63 + 1) as nat))}, limit)
  {
    var old_, big := Item(root, Priority(0)), Item(root, Priority((TWO63 + 1) as nat));
    var q := multiset{old_, big};
    NumberOfPriority(root, 0);
    NumberOfPriority(root, (TWO63 + 1) as nat);
    hide Int64, Uint64;
    Wrapped(0);
    Wrapped(TWO63 + 1);
    Wrapped(TWO63 - 1);
    assert old_ in q && big in q && old_.Number() <= limit < big.Number();
    assert big.priority > old_.priority;
  }

  /** A run: states[i] becomes states[i + 1] by writing items[i]. */
  ghost predicate IsRun(states: seq<GcState>, items: seq<Item>) {
    |states| == |items| + 1 && forall i :: 0 <= i < |items| ==> WriteStep(states[i], items[i], states[i + 1])
  }

  lemma {:induction false} RunReferences(states: seq<GcState>, items: seq<Item>)
    requires IsRun(states, items) && states[0].Balanced()
    ensures states[|items|].refs == states[0].refs + multiset(items) && states[|items|].Balanced()
  {
    if items != [] {
      var k := |items| - 1;
      RunReferences(states[..k + 1], items[..k]);
      assert items == items[..k] + [items[k]];
      assert WriteStep(states[k], items[k], states[k + 1]);
    }
  }

  /** After any run of writes, in any number order, and a final stop, every reference was matched by
      exactly one dereference. */
  lemma RunBalances(states: seq<GcState>, items: seq<Item>, final: GcState)
    requires IsRun(states, items) && states[0] == GcState(multiset{}, multiset{}, multiset{})
    requires StopStep(states[|items|], final)
    ensures final.derefs == final.refs == multiset(items)
  {
    RunReferences(states, items);
  }

  /** In a run from nothing whose block numbers are all below 2^63, writing block n past the window leaves no root
      queued of any block at or below n - 128, in whatever order the blocks came. */
  lemma RunCollects(states: seq<GcState>, items: seq<Item>, i: nat, x: Item)
    requires IsRun(states, items) && states[0] == GcState(multiset{}, multiset{}, multiset{}) && i < |items|
    requires forall y :: y in items ==> Pushed(y.priority) && y.Number() < TWO63
    requires items[i].Number() > 128 && x in states[i + 1].queue
    ensures items[i].Number() < x.Number() + 128
  {
    hide Item.Number, Pushed;
    RunReferences(states[..i + 1], items[..i]);
    assert states[i].refs == multiset(items[..i]) && states[i].refs == states[i].derefs + states[i].queue;
    assert WriteStep(states[i], items[i], states[i + 1]);
    var q := states[i].queue + multiset{items[i]};
    forall y | y in q ensures Pushed(y.priority) && y.Number() < TWO63 {
      assert y in multiset(items[..i]) || y == items[i];
      assert y in items;
    }
    SmallOrdered(q, items[i].Number() - 128);
  }

  /** The methods carry such a run out: whatever blocks are written, in whatever order, stopping leaves every reference
      released exactly once and nothing queued. */
  method WriteAndStop(gc: Gc, blocks: seq<(Hash, nat)>)
    requires gc.State() == GcState(multiset{}, multiset{}, multiset{})
    requires forall b :: b in blocks ==> b.1 < TWO64
    modifies gc
    ensures gc.queue == multiset{} && gc.derefs == gc.refs == multiset(Items(blocks))
  {
    hide Priority, WriteStep, GcState.Balanced, Items;
    NothingBalanced();
    var i := 0;
    while i < |blocks|
      invariant i <= |blocks| && gc.State().Balanced() && gc.refs == multiset(Items(blocks)[..i])
    {
      assert blocks[i] in blocks;
      ghost var s := gc.State();
      gc.WriteBlock(blocks[i].0, blocks[i].1);
      ItemAt(blocks, i);
      StepRefs(s, Items(blocks)[i], gc.State());
      assert Items(blocks)[..i + 1] == Items(blocks)[..i] + [Items(blocks)[i]];
      i := i + 1;
    }
    assert Items(blocks)[..i] == Items(blocks);
    gc.Stop();
    StoppedBalance(gc.State());
  }

  lemma NothingBalanced()
    ensures GcState(multiset{}, multiset{}, multiset{}).Balanced()
  {
  }

  lemma StepRefs(s: GcState, item: Item, s': GcState)
    requires WriteStep(s, item, s')
    ensures s'.refs == s.refs + multiset{item} && s'.Balanced()
  {
  }

  lemma StoppedBalance(s: GcState)
    requires s.Balanced() && s.queue == multiset{}
    ensures s.derefs == s.refs
  {
  }

  lemma ItemAt(blocks: seq<(Hash, nat)>, i: nat)
    requires i < |blocks|
    ensures Items(blocks)[i] == Item(blocks[i].0, Priority(blocks[i].1))
  {
  }

  ghost function Items(blocks: seq<(Hash, nat)>): (items: seq<Item>)
    ensures |items| == |blocks|
  {
    seq(|blocks|, i requires 0 <= i < |blocks| => Item(blocks[i].0, Priority(blocks[i].1)))
  }
}
