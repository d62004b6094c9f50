/** The header chain: importing linked headers, switching the canonical number map to them, and looking
    up ancestors while the canonical map may be switched between two reads. */
module HeaderChain {
  import opened Common
  import opened HeaderStore

  datatype WriteStatus = NonStatTy | CanonStatTy

  datatype Outcome<+T> = Ok(value: T) | UnknownAncestor | Aborted | MissingParent

  /** A validated import: headers follow each other and collide with nothing that is stored. */
  ghost predicate Importable(hs: Store, chain: seq<Header>) {
    && (forall i, j :: 0 <= i < j < |chain| && j == i + 1
          ==> chain[j].parent == chain[i].hash && chain[j].number == chain[i].number + 1)
    && (forall i :: 0 <= i < |chain|
          ==> chain[i].hash != ZERO_HASH && (chain[i].hash in hs ==> hs[chain[i].hash] == chain[i]))
    && (forall i, j :: 0 <= i < j < |chain| ==> chain[i].hash != chain[j].hash)
  }

  /** In a parent-closed store a header follows an unknown one only if it is unknown itself. */
  lemma UnknownParent(hs: Store, genesis: Hash, p: Header, h: Header)
    requires ParentClosed(hs, genesis) && h.parent == p.hash && h.number == p.number + 1
    requires h.hash in hs ==> hs[h.hash] == h
    ensures p.hash !in hs ==> h.hash !in hs
  {
    if h.hash in hs { assert HasParent(hs, genesis, h.hash); }
  }

  /** The store cur holds hs and the first i headers of the import, with exact total difficulties, and
      newTD is the total difficulty the import has reached. */
  ghost predicate Importing(hs: Store, cur: Store, td: map<Hash, nat>, genesis: Hash, chain: seq<Header>, i: nat,
                            newTD: nat) {
    && i <= |chain| && chain != [] && Importable(hs, chain)
    && ParentClosed(cur, genesis) && TdExact(cur, td)
    && Grows(hs, cur)
    && cur.Keys == hs.Keys + Hashes(chain, i)
    && (forall k :: 0 <= k < i ==> Stored(cur, chain[k]))
    && (i == 0 ==> cur == hs && Parent(cur, chain[0]).Some?
                   && newTD == PathDifficulty(cur, Parent(cur, chain[0]).value))
    && (i > 0 ==> newTD == PathDifficulty(cur, chain[i - 1]))
  }

  lemma ImportNext(hs: Store, cur: Store, td: map<Hash, nat>, genesis: Hash, chain: seq<Header>, i: nat, newTD: nat)
    requires Importing(hs, cur, td, genesis, chain, i, newTD) && i < |chain|
    ensures Parent(cur, chain[i]).Some? && newTD == PathDifficulty(cur, Parent(cur, chain[i]).value)
    ensures chain[i].hash in cur ==> cur[chain[i].hash] == chain[i] && chain[i].hash in hs
  {
    hide PathDifficulty, ParentClosed, TdExact;
    if i > 0 { assert Parent(cur, chain[i]) == Some(chain[i - 1]); }
    HashesAre(chain, i);
  }

  lemma ImportStep(hs: Store, cur: Store, td: map<Hash, nat>, genesis: Hash, chain: seq<Header>, i: nat, newTD: nat)
    requires Importing(hs, cur, td, genesis, chain, i, newTD) && i < |chain|
    ensures var h := chain[i];
            var newTD' := newTD + h.difficulty;
            && Importing(hs, cur[h.hash := h], td[h.hash := newTD'], genesis, chain, i + 1, newTD')
            && (h.hash in hs ==> cur[h.hash := h] == cur && td[h.hash := newTD'] == td)
  {
    hide PathDifficulty, ParentClosed;
    var h := chain[i];
    ImportNext(hs, cur, td, genesis, chain, i, newTD);
    AddHeader(cur, genesis, h);
    AddTd(cur, cur[h.hash := h], genesis, td, h);
    if h.hash in hs {
      assert cur[h.hash := h] == cur && TdIs(cur, td, h.hash);
    }
  }

  /** One turn of the import loop: the header counts as known exactly when it is stored already. */
  lemma ImportTurn(hs: Store, cur: Store, td: map<Hash, nat>, genesis: Hash, chain: seq<Header>, i: nat, newTD: nat,
                   parentKnown: bool)
    requires ParentClosed(hs, genesis) && Importing(hs, cur, td, genesis, chain, i, newTD) && i < |chain|
    requires parentKnown <==> i == 0 || chain[i - 1].hash in hs
    ensures i + 1 < |chain| ==> chain[i + 1].parent == chain[i].hash
    ensures parentKnown && GetHeader(hs, chain[i].hash, chain[i].number).Some? <==> chain[i].hash in hs
    ensures chain[i].hash !in hs ==> chain[i].hash !in cur
    ensures chain[i].hash != ZERO_HASH
    ensures var h, newTD' := chain[i], newTD + chain[i].difficulty;
            if h.hash in hs then Importing(hs, cur, td, genesis, chain, i + 1, newTD')
            else Importing(hs, cur[h.hash := h], td[h.hash := newTD'], genesis, chain, i + 1, newTD')
  {
    hide PathDifficulty, ParentClosed, TdExact;
    ImportNext(hs, cur, td, genesis, chain, i, newTD);
    ImportStep(hs, cur, td, genesis, chain, i, newTD);
    if i > 0 { UnknownParent(hs, genesis, chain[i - 1], chain[i]); }
  }

  lemma ImportDone(hs: Store, cur: Store, td: map<Hash, nat>, genesis: Hash, chain: seq<Header>, newTD: nat)
    requires Importing(hs, cur, td, genesis, chain, |chain|, newTD)
    ensures ParentClosed(cur, genesis) && TdExact(cur, td)
    ensures Grows(hs, cur)
    ensures cur.Keys == hs.Keys + (set i | 0 <= i < |chain| :: chain[i].hash)
            && forall k :: 0 <= k < |chain| ==> Stored(cur, chain[k])
  {
    HashesAre(chain, |chain|);
  }

  /** The number-to-hash entries of the first k headers of a chain. */
  function Entries(chain: seq<Header>, k: nat): map<nat, Hash>
    requires k <= |chain|
  {
    if k == 0 then map[] else Entries(chain, k - 1)[chain[k - 1].number := chain[k - 1].hash]
  }

  /** The headers of a linked, stored chain extend the path of whatever the first one is built on. */
  lemma {:induction false} ChainPath(hs: Store, chain: seq<Header>, k: nat)
    requires Importable(hs, chain) && k < |chain| && forall i :: 0 <= i < |chain| ==> Stored(hs, chain[i])
    ensures PathMap(hs, chain[k]) == PathMap(hs, chain[0]) + Entries(chain, k + 1)
    ensures chain[k].number == chain[0].number + k
    ensures AncestorAt(hs, chain[k], 0) == AncestorAt(hs, chain[0], 0)
  {
    if k > 0 {
      ChainPath(hs, chain, k - 1);
      assert Parent(hs, chain[k]) == Some(chain[k - 1]);
    }
  }

  /** The hash reached from (hash, number) by k parent links. */
  function WalkHash(hs: Store, hash: Hash, number: nat, k: nat): (r: Option<Hash>)
    requires k <= number
    decreases k
  {
    if k == 0 then Some(hash)
    else match GetHeader(hs, hash, number)
      case None => None
      case Some(h) => WalkHash(hs, h.parent, number - 1, k - 1)
  }

  /** Walking parent links from a stored header ends at the hash of its ancestor. */
  lemma {:induction false} WalkIs(hs: Store, h: Header, k: nat)
    requires Stored(hs, h) && k <= h.number && AncestorAt(hs, h, h.number - k).Some?
    ensures WalkHash(hs, h.hash, h.number, k) == Some(AncestorAt(hs, h, h.number - k).value.hash)
    decreases k
  {
    if k > 0 { WalkIs(hs, Parent(hs, h).value, k - 1); }
  }

  /** Walking parent links from a canonical block stays on the canonical map. */
  lemma {:induction false} WalkCanonical(hs: Store, head: Header, hash: Hash, number: nat, k: nat)
    requires Rooted(hs, head) && k <= number
    requires number in PathMap(hs, head) && PathMap(hs, head)[number] == hash
    ensures number - k in PathMap(hs, head) && WalkHash(hs, hash, number, k) == Some(PathMap(hs, head)[number - k])
    decreases k
  {
    if k > 0 {
      PathMapAt(hs, head, number);
      AncestorStored(hs, head, number);
      AncestorsAbove(hs, head, 0, number - 1);
      ParentOfAncestor(hs, head, number - 1);
      PathMapAt(hs, head, number - 1);
      WalkCanonical(hs, head, hs[hash].parent, number - 1, k - 1);
    }
  }

  /** The head of the canonical map at the three canonical reads of one turn of `GetAncestor`. */
  datatype View = View(first: Header, second: Header, third: Header)

  /** At most one switch of the canonical map lands during the turn. */
  ghost predicate OneSwitch(hs: Store, v: View) {
    && Rooted(hs, v.first) && Rooted(hs, v.second) && Rooted(hs, v.third)
    && (v.second == v.first || v.second == v.third)
  }

  /** The fast path of one turn: slot, ancestor slot, slot again. */
  function CanonicalTurn(hs: Store, v: View, hash: Hash, number: nat, k: nat): Option<Hash>
    requires k <= number
  {
    if ReadCanonicalHash(PathMap(hs, v.first), number) == hash
        && ReadCanonicalHash(PathMap(hs, v.third), number) == hash
    then Some(ReadCanonicalHash(PathMap(hs, v.second), number - k))
    else None
  }

  /** Re-reading the slot makes the ancestor slot trustworthy across one switch. */
  lemma TurnRight(hs: Store, v: View, hash: Hash, number: nat, k: nat)
    requires OneSwitch(hs, v) && k <= number && hash != ZERO_HASH
    ensures CanonicalTurn(hs, v, hash, number, k).Some? ==>
              WalkHash(hs, hash, number, k) == CanonicalTurn(hs, v, hash, number, k)
  {
    if CanonicalTurn(hs, v, hash, number, k).Some? {
      WalkCanonical(hs, v.first, hash, number, k);
      WalkCanonical(hs, v.third, hash, number, k);
    }
  }

  /** The canonical map belongs to the same head at every read. */
  ghost predicate Stable(views: nat -> View, head: Header) {
    forall t: nat :: views(t) == View(head, head, head)
  }

  /** d parent links lead to the canonical map of head, or all k links are walked. */
  ghost predicate Within(hs: Store, head: Header, hash: Hash, number: nat, k: nat, d: nat)
    requires k <= number
  {
    d <= k && WalkHash(hs, hash, number, d).Some? &&
    (d == k || ReadCanonicalHash(PathMap(hs, head), number - d) == WalkHash(hs, hash, number, d).value)
  }

  /** It takes at least d parent links to get there. */
  ghost predicate NoneBelow(hs: Store, head: Header, hash: Hash, number: nat, k: nat, d: nat)
    requires k <= number
  {
    forall e: nat :: Within(hs, head, hash, number, k, e) ==> d <= e
  }

  /** The loop of `WriteHeaders`: the contents of the database once the batch is written. */
  method PrepareBatch(db: Store, td: map<Hash, nat>, chain: seq<Header>, ptd: nat, ghost genesis: Hash)
    returns (inserted: seq<Hash>, batchHeaders: Store, batchTd: map<Hash, nat>)
    requires ParentClosed(db, genesis) && Importing(db, db, td, genesis, chain, 0, ptd)
    ensures ParentClosed(batchHeaders, genesis) && TdExact(batchHeaders, batchTd)
    ensures Grows(db, batchHeaders)
    ensures batchHeaders.Keys == db.Keys + (set i | 0 <= i < |chain| :: chain[i].hash)
    ensures forall i :: 0 <= i < |chain| ==> Stored(batchHeaders, chain[i])
    ensures |batchHeaders| == |db| + |inserted|
  {
    hide Importing, TdExact, Stored, ParentClosed;
    inserted, batchHeaders, batchTd := [], db, td;
    var newTD: nat := ptd;
    var parentKnown := true;
    for i := 0 to |chain|
      invariant Importing(db, batchHeaders, batchTd, genesis, chain, i, newTD)
      invariant |batchHeaders| == |db| + |inserted|
      invariant parentKnown <==> i == 0 || chain[i - 1].hash in db
    {
      var header := chain[i];
      var hash := if i < |chain| - 1 then chain[i + 1].parent else header.hash;
      ImportTurn(db, batchHeaders, batchTd, genesis, chain, i, newTD, parentKnown);
      newTD := newTD + header.difficulty;
      var alreadyKnown := parentKnown && GetHeader(db, hash, header.number).Some?;
      if !alreadyKnown {
        batchTd := batchTd[hash := newTD];
        batchHeaders := batchHeaders[hash := header];
        inserted := inserted + [hash];
      }
      parentKnown := alreadyKnown;
    }
    ImportDone(db, batchHeaders, batchTd, genesis, chain, newTD);
  }

  lemma {:induction false} WalkOne(hs: Store, hash: Hash, number: nat, k: nat)
    requires k < number
    ensures WalkHash(hs, hash, number, k + 1) == match WalkHash(hs, hash, number, k)
                                                 case None => None
                                                 case Some(x) => match GetHeader(hs, x, number - k)
                                                                 case None => None
                                                                 case Some(h) => Some(h.parent)
    decreases k
  {
    if k > 0 {
      match GetHeader(hs, hash, number)
      case None =>
      case Some(h) => WalkOne(hs, h.parent, number - 1, k - 1);
    }
  }

  lemma WalkedHash(hs: Store, genesis: Hash, hash: Hash, number: nat, k: nat)
    requires ParentClosed(hs, genesis) && k < number && WalkHash(hs, hash, number, k).Some?
    ensures var x := WalkHash(hs, hash, number, k).value;
            match GetHeader(hs, x, number - k)
            case None => WalkHash(hs, hash, number, k + 1).None?
            case Some(h) => WalkHash(hs, hash, number, k + 1) == Some(h.parent)
                              && GetHeader(hs, h.parent, number - k - 1).Some? && h.parent != ZERO_HASH
  {
    WalkOne(hs, hash, number, k);
    var x := WalkHash(hs, hash, number, k).value;
    if GetHeader(hs, x, number - k).Some? { assert HasParent(hs, genesis, x); }
  }

  lemma {:induction false} WalkAdd(hs: Store, hash: Hash, number: nat, j: nat, k: nat)
    requires j + k <= number && WalkHash(hs, hash, number, j).Some?
    ensures WalkHash(hs, hash, number, j + k) == WalkHash(hs, WalkHash(hs, hash, number, j).value, number - j, k)
    decreases j
  {
    if j > 0 { WalkAdd(hs, GetHeader(hs, hash, number).value.parent, number - 1, j - 1, k); }
  }

  lemma OneStep(hs: Store, genesis: Hash, head: Header, hash: Hash, number: nat)
    requires ParentClosed(hs, genesis) && 1 <= number
    ensures WalkHash(hs, hash, number, 1)
            == match GetHeader(hs, hash, number) case None => None case Some(h) => Some(h.parent)
    ensures GetHeader(hs, hash, number).Some? ==> GetHeader(hs, hash, number).value.parent != ZERO_HASH
    ensures Rooted(hs, head) && hash != ZERO_HASH ==>
              forall d: nat :: Within(hs, head, hash, number, 1, d) ==> GetHeader(hs, hash, number).Some?
  {
    if GetHeader(hs, hash, number).Some? { assert HasParent(hs, genesis, hash); }
    forall d: nat | Rooted(hs, head) && hash != ZERO_HASH && Within(hs, head, hash, number, 1, d)
      ensures GetHeader(hs, hash, number).Some?
    {
      if d == 0 {
        PathMapAt(hs, head, number);
        AncestorStored(hs, head, number);
      }
    }
  }

  lemma TurnNonZero(hs: Store, v: View, hash: Hash, number: nat, k: nat)
    requires OneSwitch(hs, v) && k <= number && hash != ZERO_HASH && CanonicalTurn(hs, v, hash, number, k).Some?
    ensures CanonicalTurn(hs, v, hash, number, k).value != ZERO_HASH
  {
    var u := v.second;
    PathMapAt(hs, u, number);
    PathMapAt(hs, u, number - k);
    AncestorsAbove(hs, u, 0, number - k);
    AncestorStored(hs, u, number - k);
  }

  lemma WalkedAncestor(hs: Store, genesis: Hash, h: Header, k: nat)
    requires ParentClosed(hs, genesis) && Stored(hs, h) && k <= h.number
    ensures AncestorAt(hs, h, h.number - k).Some?
            && WalkHash(hs, h.hash, h.number, k) == Some(AncestorAt(hs, h, h.number - k).value.hash)
  {
    ClosedRooted(hs, genesis, h);
    AncestorsAbove(hs, h, 0, h.number - k);
    WalkIs(hs, h, k);
  }

  /** The loop of `GetAncestor`: parent links until the canonical map is met. */
  method WalkBack(hs: Store, start: Hash, height: nat, count: nat, maxNonCanonical: nat, views: nat -> View,
                  ghost genesis: Hash, ghost head: Header)
    returns (hash: Hash, number: nat, left: nat)
    requires ParentClosed(hs, genesis) && start != ZERO_HASH && forall t: nat :: OneSwitch(hs, views(t))
    requires count <= height
    ensures hash != ZERO_HASH ==> number == height - count && WalkHash(hs, start, height, count) == Some(hash)
    ensures (hash == ZERO_HASH ==> number == 0) && left <= maxNonCanonical
    ensures Stable(views, head) && hash == ZERO_HASH
            ==> NoneBelow(hs, head, start, height, count, maxNonCanonical + 1)
    ensures Stable(views, head) && hash != ZERO_HASH
            ==> Within(hs, head, start, height, count, maxNonCanonical - left)
                && NoneBelow(hs, head, start, height, count, maxNonCanonical - left)
  {
    hide PathMap, ParentClosed, Rooted, AncestorAt, Within, NoneBelow, WalkHash, CanonicalTurn, GetHeader;
    left, hash, number := maxNonCanonical, start, height;
    var ancestor: nat, t: nat := count, 0;
    NoneBelowZero(hs, head, start, height, count);
    while ancestor != 0
      invariant ancestor <= number <= height && count - ancestor == height - number == t && left == maxNonCanonical - t
      invariant hash != ZERO_HASH && WalkHash(hs, start, height, t) == Some(hash)
      invariant t > 0 ==> GetHeader(hs, hash, number).Some?
      invariant NoneBelow(hs, head, start, height, count, t) || !Stable(views, head)
    {
      WalkAdd(hs, start, height, t, ancestor);
      var v := views(t);
      TurnWalks(hs, v, hash, number, ancestor);
      if Stable(views, head) { TurnWithin(hs, head, start, height, count, t, hash); }
      if ReadCanonicalHash(PathMap(hs, v.first), number) == hash {
        var ancestorHash := ReadCanonicalHash(PathMap(hs, v.second), number - ancestor);
        if ReadCanonicalHash(PathMap(hs, v.third), number) == hash {
          number := number - ancestor;
          return ancestorHash, number, left;
        }
      }
      if left == 0 { return ZERO_HASH, 0, left; }
      left := left - 1;
      ancestor := ancestor - 1;
      WalkedHash(hs, genesis, start, height, t);
      var header := GetHeader(hs, hash, number);
      if header.None? {
        if Stable(views, head) { NoStart(hs, head, start, height, count, maxNonCanonical); }
        return ZERO_HASH, 0, left;
      }
      hash := header.value.parent;
      number := number - 1;
      t := t + 1;
    }
    WalkedAll(hs, head, start, height, count);
  }

  /** The ancestor of (start, height) by `count` parent links, following the canonical map where possible.
      views(t) says which head the canonical map belonged to at the reads of turn t. */
  method GetAncestor(hs: Store, start: Hash, height: nat, count: nat, maxNonCanonical: nat, views: nat -> View,
                     ghost genesis: Hash, ghost head: Header)
    returns (hash: Hash, number: nat, left: nat)
    requires ParentClosed(hs, genesis) && start != ZERO_HASH && forall t: nat :: OneSwitch(hs, views(t))
    ensures hash != ZERO_HASH
            ==> count <= height && number == height - count && WalkHash(hs, start, height, count) == Some(hash)
    ensures hash != ZERO_HASH && start in hs && hs[start].number == height
            ==> AncestorAt(hs, hs[start], number).Some? && hash == AncestorAt(hs, hs[start], number).value.hash
    ensures (hash == ZERO_HASH ==> number == 0) && left <= maxNonCanonical && (count == 1 ==> left == maxNonCanonical)
    ensures Stable(views, head) && count <= height && hash == ZERO_HASH
            ==> NoneBelow(hs, head, start, height, count, maxNonCanonical + 1)
    ensures Stable(views, head) && count != 1 && hash != ZERO_HASH
            ==> Within(hs, head, start, height, count, maxNonCanonical - left)
                && NoneBelow(hs, head, start, height, count, maxNonCanonical - left)
  {
    hide PathMap, ParentClosed, Rooted, AncestorAt, Within, NoneBelow, WalkHash, CanonicalTurn;
    if count > height { return ZERO_HASH, 0, maxNonCanonical; }
    if start in hs && hs[start].number == height { WalkedAncestor(hs, genesis, hs[start], count); }
    if count == 1 {
      var header := GetHeader(hs, start, height);
      OneStep(hs, genesis, head, start, height);
      assert OneSwitch(hs, views(0));
      if header.Some? { return header.value.parent, height - 1, maxNonCanonical; }
      if Stable(views, head) { NoneAtAll(hs, head, start, height, count, maxNonCanonical); }
      return ZERO_HASH, 0, maxNonCanonical;
    }
    hash, number, left := WalkBack(hs, start, height, count, maxNonCanonical, views, genesis, head);
  }

  lemma NoneBelowZero(hs: Store, head: Header, hash: Hash, number: nat, k: nat)
    requires k <= number
    ensures NoneBelow(hs, head, hash, number, k, 0) && WalkHash(hs, hash, number, 0) == Some(hash)
  {
  }

  lemma NoneAtAll(hs: Store, head: Header, hash: Hash, number: nat, k: nat, max: nat)
    requires k <= number && forall d: nat :: !Within(hs, head, hash, number, k, d)
    ensures NoneBelow(hs, head, hash, number, k, max + 1)
  {
  }

  lemma WalkedAll(hs: Store, head: Header, hash: Hash, number: nat, k: nat)
    requires k <= number && WalkHash(hs, hash, number, k).Some?
    ensures Within(hs, head, hash, number, k, k)
  {
  }

  /** After d links the canonical map is reached, or one more link may be needed. */
  lemma TurnWithin(hs: Store, head: Header, hash: Hash, number: nat, k: nat, d: nat, x: Hash)
    requires d < k <= number && WalkHash(hs, hash, number, d) == Some(x) && NoneBelow(hs, head, hash, number, k, d)
    ensures if ReadCanonicalHash(PathMap(hs, head), number - d) == x then Within(hs, head, hash, number, k, d)
            else NoneBelow(hs, head, hash, number, k, d + 1)
  {
    hide PathMap, WalkHash;
  }

  /** From a header that is not there and not canonical no walk starts. */
  lemma NoStart(hs: Store, head: Header, hash: Hash, number: nat, k: nat, max: nat)
    requires 0 < k <= number && GetHeader(hs, hash, number).None?
    requires ReadCanonicalHash(PathMap(hs, head), number) != hash
    ensures NoneBelow(hs, head, hash, number, k, max + 1)
  {
    hide PathMap;
  }

  lemma TurnWalks(hs: Store, v: View, hash: Hash, number: nat, k: nat)
    requires OneSwitch(hs, v) && k <= number && hash != ZERO_HASH
    ensures ReadCanonicalHash(PathMap(hs, v.first), number) == hash
            && ReadCanonicalHash(PathMap(hs, v.third), number) == hash
            ==> WalkHash(hs, hash, number, k) == Some(ReadCanonicalHash(PathMap(hs, v.second), number - k))
                && ReadCanonicalHash(PathMap(hs, v.second), number - k) != ZERO_HASH
  {
    hide PathMap, WalkHash;
    TurnRight(hs, v, hash, number, k);
    if CanonicalTurn(hs, v, hash, number, k).Some? { TurnNonZero(hs, v, hash, number, k); }
  }

  function Cut(canon: map<nat, Hash>, n: nat): map<nat, Hash> {
    map k | k in canon && k <= n :: canon[k]
  }

  lemma PathMapCeiling(hs: Store, h: Header)
    ensures forall n :: n in PathMap(hs, h) ==> n <= h.number
  {
    forall n | n in PathMap(hs, h) ensures n <= h.number { PathMapAt(hs, h, n); }
  }

  lemma PathMapDomain(hs: Store, h: Header)
    requires Rooted(hs, h)
    ensures forall n: nat :: n in PathMap(hs, h) <==> n <= h.number
    ensures forall n :: n in PathMap(hs, h) ==> PathMap(hs, h)[n] != ZERO_HASH
  {
    forall n: nat
      ensures n in PathMap(hs, h) <==> n <= h.number
      ensures n in PathMap(hs, h) ==> PathMap(hs, h)[n] != ZERO_HASH
    {
      PathMapRooted(hs, h, n);
      PathMapAt(hs, h, n);
      if n <= h.number { AncestorStored(hs, h, n); }
    }
  }

  lemma MissingAncestor(hs: Store, h: Header, n: nat)
    requires n <= h.number && AncestorAt(hs, h, n).None?
    ensures AncestorAt(hs, h, 0).None?
  {
    if AncestorAt(hs, h, 0).Some? { AncestorsAbove(hs, h, 0, n); }
  }

  /** Below the block where two chains cross their canonical maps agree. */
  lemma Crossed(hs: Store, current: Header, first: Header, header: Header)
    requires Rooted(hs, current) && Stored(hs, first) && Stored(hs, header)
    requires AncestorAt(hs, first, header.number) == Some(header)
    requires ReadCanonicalHash(PathMap(hs, current), header.number) == header.hash
    ensures AncestorAt(hs, first, 0).Some?
    ensures Cut(PathMap(hs, current), first.number)
          + (map n | n in PathMap(hs, first) && header.number < n :: PathMap(hs, first)[n]) == PathMap(hs, first)
  {
    hide PathMap, AncestorAt;
    OnPath(hs, current, header);
    AncestorOfAncestor(hs, first, header.number, 0);
    AncestorOfAncestor(hs, current, header.number, 0);
    PathMapCeiling(hs, first);
    var m, c := PathMap(hs, first), PathMap(hs, current);
    var s := Cut(c, first.number) + (map n | n in m && header.number < n :: m[n]);
    forall n: nat
      ensures n in s <==> n in m
      ensures n in m ==> s[n] == m[n]
    {
      PathMapRooted(hs, first, n);
      if n <= header.number { CrossedAt(hs, current, first, header, n); }
    }
  }

  lemma CrossedAt(hs: Store, current: Header, first: Header, header: Header, n: nat)
    requires Rooted(hs, current) && n <= header.number
    requires AncestorAt(hs, first, header.number) == Some(header) == AncestorAt(hs, current, header.number)
    ensures n in PathMap(hs, current) && n in PathMap(hs, first) && PathMap(hs, current)[n] == PathMap(hs, first)[n]
  {
    PathMapAt(hs, first, n);
    PathMapAt(hs, current, n);
    PathMapRooted(hs, current, n);
    AncestorOfAncestor(hs, first, header.number, n);
    AncestorOfAncestor(hs, current, header.number, n);
  }

  lemma EntriesStep(chain: seq<Header>, i: nat)
    requires i < |chain|
    ensures Entries(chain, i + 1) == Entries(chain, i)[chain[i].number := chain[i].hash]
    ensures Entries(chain, 0) == map[]
  {
  }

  lemma {:induction false} EntriesKeys(hs: Store, chain: seq<Header>, k: nat)
    requires Importable(hs, chain) && 0 < k <= |chain|
    ensures forall n: nat :: n in Entries(chain, k) <==> chain[0].number <= n < chain[0].number + k
    ensures chain[k - 1].number == chain[0].number + k - 1
  {
    if k > 1 { EntriesKeys(hs, chain, k - 1); }
  }

  /** Deleting above the last header, overwriting down to the crossing and extending gives the last
      header's path. */
  lemma Switched(hs: Store, canon: map<nat, Hash>, chain: seq<Header>, deletes: set<nat>, writes: map<nat, Hash>)
    requires Importable(hs, chain) && chain != [] && forall i :: 0 <= i < |chain| ==> Stored(hs, chain[i])
    requires forall n :: n in canon && n !in deletes ==> n <= chain[|chain| - 1].number
    requires forall n :: n in deletes ==> n > chain[|chain| - 1].number
    requires Cut(canon, chain[0].number) + writes == PathMap(hs, chain[0])
             && forall n :: n in writes ==> n <= chain[0].number
    ensures (canon - deletes) + writes + Entries(chain, |chain|) == PathMap(hs, chain[|chain| - 1])
  {
    hide PathMap, Entries;
    ChainPath(hs, chain, |chain| - 1);
    EntriesKeys(hs, chain, |chain|);
    var e := Entries(chain, |chain|);
    var a, b := (canon - deletes) + writes + e, Cut(canon, chain[0].number) + writes + e;
    forall n: nat
      ensures n in a <==> n in b
      ensures n in a ==> a[n] == b[n]
    {
    }
  }

  lemma Extended(hs: Store, current: Header, chain: seq<Header>)
    requires Importable(hs, chain) && chain != [] && forall i :: 0 <= i < |chain| ==> Stored(hs, chain[i])
    requires Stored(hs, current) && Parent(hs, chain[0]) == Some(current)
    ensures PathMap(hs, current) + Entries(chain, |chain|) == PathMap(hs, chain[|chain| - 1])
  {
    ChainPath(hs, chain, |chain| - 1);
    EntriesFirst(hs, chain, |chain|);
  }

  lemma {:induction false} EntriesFirst(hs: Store, chain: seq<Header>, k: nat)
    requires 0 < k <= |chain| && Importable(hs, chain)
    ensures chain[0].number in Entries(chain, k) && Entries(chain, k)[chain[0].number] == chain[0].hash
  {
    if k > 1 {
      EntriesKeys(hs, chain, k);
      EntriesFirst(hs, chain, k - 1);
    }
  }

  /** The header a chain is resumed at. */
  function Resumed(hs: Store, genesis: Header, headBlock: Option<Hash>): Header {
    if headBlock.Some? && headBlock.value in hs then hs[headBlock.value] else genesis
  }

  class Chain {
    var headers: Store
    var td: map<Hash, nat>
    var canon: map<nat, Hash>
    var currentHeader: Header

    ghost predicate Valid(genesis: Hash)
      reads this
    {
      && ParentClosed(headers, genesis) && TdExact(headers, td)
      && Stored(headers, currentHeader) && canon == PathMap(headers, currentHeader)
    }

    /** Open a database whose canonical numbers lead to the stored head block, or to genesis when it names none. */
    constructor (headers: Store, td: map<Hash, nat>, canon: map<nat, Hash>, genesis: Header, headBlock: Option<Hash>)
      requires ParentClosed(headers, genesis.hash) && Stored(headers, genesis) && TdExact(headers, td)
      requires canon == PathMap(headers, Resumed(headers, genesis, headBlock))
      ensures Valid(genesis.hash) && this.headers == headers && this.td == td && this.canon == canon
      ensures if headBlock.Some? && headBlock.value in headers then currentHeader.hash == headBlock.value
              else currentHeader == genesis
    {
      this.headers, this.td, this.canon := headers, td, canon;
      currentHeader := genesis;
      if headBlock.Some? {
        if headBlock.value in headers {
          assert headers[headBlock.value].hash == headBlock.value;
          currentHeader := headers[headBlock.value];
        }
      }
    }

    method WriteHeaders(chain: seq<Header>, interrupted: bool, ghost genesis: Hash) returns (r: Outcome<nat>)
      requires ParentClosed(headers, genesis) && TdExact(headers, td) && Importable(headers, chain)
      modifies this`headers, this`td
      ensures ParentClosed(headers, genesis) && TdExact(headers, td)
      ensures Grows(old(headers), headers)
      ensures r == UnknownAncestor <==> chain != [] && Parent(old(headers), chain[0]).None?
      ensures r == Aborted <==> chain != [] && Parent(old(headers), chain[0]).Some? && interrupted
      ensures r.Ok? ==> headers.Keys == old(headers.Keys) + (set i | 0 <= i < |chain| :: chain[i].hash)
      ensures r.Ok? ==> forall i :: 0 <= i < |chain| ==> Stored(headers, chain[i])
      ensures r.Ok? ==> |headers| == |old(headers)| + r.value
      ensures !r.Ok? ==> r != MissingParent && headers == old(headers) && td == old(td)
    {
      if |chain| == 0 { return Ok(0); }
      var db := headers;
      var ptd := GetTd(db, td, chain[0].parent, chain[0].number - 1);
      GetTdExact(db, td, chain[0].parent, chain[0].number - 1);
      if ptd.None? { return UnknownAncestor; }
      var inserted, batchHeaders, batchTd := PrepareBatch(db, td, chain, ptd.value, genesis);
      if interrupted { return Aborted; }
      headers, td := batchHeaders, batchTd;
      r := Ok(|inserted|);
    }

    /** Going backwards from the first header, the number assignments to overwrite until the two chains
        cross; nothing if a header is missing on the way. */
    method CrossLink(first: Header) returns (writes: Option<map<nat, Hash>>)
      requires Rooted(headers, currentHeader) && canon == PathMap(headers, currentHeader) && Stored(headers, first)
      ensures writes.Some? <==> AncestorAt(headers, first, 0).Some?
      ensures writes.Some? ==> Cut(canon, first.number) + writes.value == PathMap(headers, first)
      ensures writes.Some? ==> forall n :: n in writes.value ==> n <= first.number
    {
      hide PathMap;
      var hs := headers;
      var header, headHash := first, first.hash;
      var headNumber: nat := first.number;
      var batch: map<nat, Hash> := map[];
      PathMapCeiling(hs, first);
      while ReadCanonicalHash(canon, headNumber) != headHash
        invariant AncestorAt(hs, first, headNumber) == Some(header) && header.hash == headHash && Stored(hs, header)
        invariant batch == map n | n in PathMap(hs, first) && headNumber < n :: PathMap(hs, first)[n]
        decreases headNumber
      {
        PathMapAt(hs, first, headNumber);
        batch := batch[headNumber := headHash];
        if headNumber == 0 {
          PathMapDomain(hs, first);
          assert batch == PathMap(hs, first) && Cut(canon, first.number).Keys <= batch.Keys;
          return Some(batch);
        }
        ParentOfAncestor(hs, first, headNumber - 1);
        var parent := Parent(hs, header);
        if parent.None? {
          MissingAncestor(hs, first, headNumber - 1);
          return None;
        }
        header, headHash, headNumber := parent.value, header.parent, header.number - 1;
      }
      Crossed(hs, currentHeader, first, header);
      writes := Some(batch);
    }

    method Reorg(chain: seq<Header>) returns (r: Outcome<()>)
      requires Rooted(headers, currentHeader) && canon == PathMap(headers, currentHeader)
      requires Importable(headers, chain) && forall i :: 0 <= i < |chain| ==> Stored(headers, chain[i])
      requires chain != [] && chain[0].parent == currentHeader.hash ==> Parent(headers, chain[0]).Some?
      modifies this`canon, this`currentHeader
      ensures r == if chain == [] || AncestorAt(headers, chain[0], 0).Some? then Ok(()) else MissingParent
      ensures r.Ok? && chain != [] ==> currentHeader == chain[|chain| - 1]
      ensures !r.Ok? || chain == [] ==> currentHeader == old(currentHeader)
      ensures Rooted(headers, currentHeader) && canon == PathMap(headers, currentHeader)
    {
      hide PathMap, Entries;
      if |chain| == 0 { return Ok(()); }
      var first, last := chain[0], chain[|chain| - 1];
      ChainPath(headers, chain, |chain| - 1);
      var deletes: set<nat>, writes: map<nat, Hash> := {}, map[];
      if first.parent != currentHeader.hash {
        var i := last.number + 1;
        PathMapDomain(headers, currentHeader);
        while true
          invariant last.number < i && (i <= currentHeader.number + 1 || i == last.number + 1)
          invariant (forall n :: n in deletes <==> last.number < n < i) && canon == old(canon)
                    && currentHeader == old(currentHeader)
          decreases currentHeader.number + 1 - i
        {
          var hash := ReadCanonicalHash(canon, i);
          if hash == ZERO_HASH { break; }
          deletes := deletes + {i};
          i := i + 1;
        }
        var cross := CrossLink(first);
        if cross.None? { return MissingParent; }
        writes := cross.value;
        Switched(headers, canon, chain, deletes, writes);
      } else {
        Extended(headers, currentHeader, chain);
        assert (canon - deletes) + writes == canon;
      }
      var entries: map<nat, Hash> := map[];
      EntriesStep(chain, 0);
      for i := 0 to |chain| - 1
        invariant entries == Entries(chain, i) && canon == old(canon) && currentHeader == old(currentHeader)
      {
        EntriesStep(chain, i);
        entries := entries[chain[i].number := chain[i + 1].parent];
      }
      EntriesStep(chain, |chain| - 1);
      entries := entries[last.number := last.hash];
      // one atomic batch
      canon := (canon - deletes) + writes + entries;
      currentHeader := last;
      r := Ok(());
    }

    /** `writeHeadersAndSetHead`; importing nothing is a programming error of the caller. */
    method InsertHeaderChain(chain: seq<Header>, interrupted: bool, ghost genesis: Hash)
      returns (r: Outcome<WriteStatus>, imported: nat)
      requires Valid(genesis) && chain != [] && Importable(headers, chain)
      modifies this
      ensures Valid(genesis)
      ensures Grows(old(headers), headers)
      ensures r == UnknownAncestor <==> Parent(old(headers), chain[0]).None?
      ensures r == Aborted <==> Parent(old(headers), chain[0]).Some? && interrupted
      ensures r != MissingParent
      ensures r.Ok? ==> forall i :: 0 <= i < |chain| ==> Stored(headers, chain[i])
      ensures r.Ok?
              ==> |headers| == |old(headers)| + imported
                  && headers.Keys == old(headers.Keys) + (set i | 0 <= i < |chain| :: chain[i].hash)
      ensures r.Ok? ==> currentHeader == if r.value.CanonStatTy? then chain[|chain| - 1] else old(currentHeader)
      ensures r.Ok?
              ==> (r.value.NonStatTy?
                   <==> AncestorAt(headers, old(currentHeader), chain[|chain| - 1].number) == Some(chain[|chain| - 1]))
      ensures !r.Ok? ==> headers == old(headers) && currentHeader == old(currentHeader)
    {
      hide PathMap, PathDifficulty;
      ClosedRooted(headers, genesis, currentHeader);
      imported := 0;
      var written := WriteHeaders(chain, interrupted, genesis);
      if !written.Ok? {
        r := if written.Aborted? then Aborted else UnknownAncestor;
        return;
      }
      RootedFrame(old(headers), headers, currentHeader);
      var last := chain[|chain| - 1];
      imported := written.value;
      PathMapAt(headers, currentHeader, last.number);
      if ReadCanonicalHash(canon, last.number) == last.hash && last.number <= currentHeader.number {
        OnPath(headers, currentHeader, last);
        return Ok(NonStatTy), imported;
      }
      ClosedRooted(headers, genesis, chain[0]);
      var reorged := Reorg(chain);
      assert reorged.Ok?;
      r := Ok(CanonStatTy);
    }
  }
}
