/** The event feed as a state machine over its atomic steps: subscriptions enter through an inbox, one send
    at a time works on the list of select cases, and unsubscriptions may interrupt it. */
module FeedSpec {
  /** Channels; the feed's own removeSub channel is none of the subscribers'. */
  type Chan = int

  const REMOVE_SUB: Chan := -1

  /** Index of the first subscription in the case list; index zero receives from removeSub. */
  const FIRST_SUB: nat := 1

  function Find(cs: seq<Chan>, ch: Chan): (i: int)
    ensures -1 <= i < |cs|
    ensures i >= 0 ==> cs[i] == ch
    ensures i == -1 <==> ch !in cs
  {
    if cs == [] then -1
    else if cs[0] == ch then 0
    else
      var i := Find(cs[1..], ch);
      if i == -1 then -1 else i + 1
  }

  /** The list without the case at i. FoundCase shows that it is never asked for a case that is not there. */
  function Delete(cs: seq<Chan>, i: int): (r: seq<Chan>)
    ensures 0 <= i < |cs| ==> |r| == |cs| - 1
  {
    if 0 <= i < |cs| then cs[..i] + cs[i + 1..] else cs
  }

  /** Swap the case at i with the last of the first n, which are the ones not sent to yet. */
  function Deactivate(cs: seq<Chan>, n: nat, i: nat): (r: seq<Chan>)
    ensures |r| == |cs|
  {
    if i < n <= |cs| then cs[i := cs[n - 1]][n - 1 := cs[i]] else cs
  }

  /** The progress of a send: how many leading cases are still to be sent to, and what became of the
      channels that were subscribed when it began. */
  datatype Phase =
    | Idle
    | Sending(active: nat, audience: multiset<Chan>, delivered: multiset<Chan>, leftAfter: multiset<Chan>,
        missed: multiset<Chan>, nsent: nat)

  /** live: subscriptions not cancelled; leaving: cancelled ones waiting to be taken off the case list. */
  datatype FeedState = FeedState(cases: seq<Chan>, inbox: seq<Chan>, live: multiset<Chan>, leaving: multiset<Chan>,
                                 phase: Phase)

  datatype Action =
    | Subscribe(ch: Chan)
    | Unsubscribe(ch: Chan)
    | RemoveIdle(ch: Chan)
    | BeginSend
    | Deliver(i: nat)
    | RemoveDuring(ch: Chan)
    | EndSend

  function At(cs: seq<Chan>, i: nat): Chan { if i < |cs| then cs[i] else REMOVE_SUB }

  function Subs(cs: seq<Chan>): seq<Chan> { if cs == [] then [] else cs[1..] }

  ghost predicate Inv(s: FeedState) {
    && s.cases != [] && s.cases[0] == REMOVE_SUB && REMOVE_SUB !in Subs(s.cases) && REMOVE_SUB !in s.inbox
    && s.live == multiset(s.inbox) + multiset(Subs(s.cases))
    && s.leaving <= multiset(Subs(s.cases))
    && (s.phase.Sending? ==> SendInv(s))
  }

  /** Nothing subscribed at the start of a send is lost track of. */
  ghost predicate SendInv(s: FeedState)
    requires s.phase.Sending?
  {
    var p := s.phase;
    && FIRST_SUB <= p.active <= |s.cases|
    && p.audience == multiset(Subs(s.cases)) + p.leftAfter + p.missed
    && p.delivered == multiset(s.cases[p.active..]) + p.leftAfter
    && p.nsent == |p.delivered|
  }

  /** When a step can be taken. A subscription is cancelled at most once; a case is chosen by select only
      while some are left; a pending cancellation is served by the send or by whoever holds the idle feed. */
  ghost predicate Enabled(s: FeedState, a: Action) {
    match a
    case Subscribe(ch) => ch != REMOVE_SUB
    case Unsubscribe(ch) => s.leaving[ch] < s.live[ch]
    case RemoveIdle(ch) => s.phase.Idle? && ch in s.leaving
    case BeginSend => s.phase.Idle?
    case Deliver(i) => s.phase.Sending? && FIRST_SUB <= i < s.phase.active
    case RemoveDuring(ch) => s.phase.Sending? && ch in s.leaving && s.phase.active > FIRST_SUB
    case EndSend => s.phase.Sending? && s.phase.active == FIRST_SUB
  }

  ghost function Next(s: FeedState, a: Action): FeedState
    requires Enabled(s, a)
  {
    match a
    case Subscribe(ch) => s.(inbox := s.inbox + [ch], live := s.live + multiset{ch})
    case Unsubscribe(ch) =>
      var i := Find(s.inbox, ch);
      if i != -1 then s.(inbox := Delete(s.inbox, i), live := s.live - multiset{ch})
      else s.(leaving := s.leaving + multiset{ch})
    case RemoveIdle(ch) =>
      s.(cases := Delete(s.cases, Find(s.cases, ch)), live := s.live - multiset{ch},
          leaving := s.leaving - multiset{ch})
    case BeginSend =>
      var cs := s.cases + s.inbox;
      s.(cases := cs, inbox := [], phase := Sending(|cs|, multiset(Subs(cs)), multiset{}, multiset{}, multiset{}, 0))
    case Deliver(i) =>
      s.(cases := Deactivate(s.cases, s.phase.active, i),
         phase := s.phase.(active := s.phase.active - 1, delivered := s.phase.delivered + multiset{At(s.cases, i)},
             nsent := s.phase.nsent + 1))
    case RemoveDuring(ch) =>
      var i := Find(s.cases, ch);
      s.(cases := Delete(s.cases, i), live := s.live - multiset{ch}, leaving := s.leaving - multiset{ch},
         phase := if i < s.phase.active
             then s.phase.(active := s.phase.active - 1, missed := s.phase.missed + multiset{ch})
                  else s.phase.(leftAfter := s.phase.leftAfter + multiset{ch}))
    case EndSend => s.(phase := Idle)
  }

  lemma SubsIn(cs: seq<Chan>, ch: Chan)
    requires cs != []
    ensures ch in multiset(Subs(cs)) ==> ch in cs
    ensures cs[0] != ch ==> (ch in cs <==> ch in Subs(cs))
  {
    assert cs == [cs[0]] + Subs(cs);
  }

  /** A cancellation that is waiting always finds its channel on the case list, past index zero. */
  lemma FoundCase(s: FeedState, ch: Chan)
    requires Inv(s) && ch in s.leaving
    ensures FIRST_SUB <= Find(s.cases, ch) < |s.cases|
  {
    assert ch in multiset(Subs(s.cases));
    SubsIn(s.cases, ch);
  }

  lemma DeleteMultiset(cs: seq<Chan>, i: nat)
    requires i < |cs|
    ensures multiset(cs) == multiset(Delete(cs, i)) + multiset{cs[i]}
  {
    assert cs == cs[..i] + [cs[i]] + cs[i + 1..];
  }

  lemma DeleteSubs(cs: seq<Chan>, i: nat)
    requires 1 <= i < |cs|
    ensures Delete(cs, i) != [] && Delete(cs, i)[0] == cs[0]
            && multiset(Subs(cs)) == multiset(Subs(Delete(cs, i))) + multiset{cs[i]}
  {
    assert Subs(Delete(cs, i)) == Delete(Subs(cs), i - 1);
    DeleteMultiset(Subs(cs), i - 1);
  }

  lemma DeactivateSubs(cs: seq<Chan>, n: nat, i: nat)
    requires 1 <= i < n <= |cs|
    ensures var r := Deactivate(cs, n, i);
            && r[0] == cs[0] && multiset(Subs(r)) == multiset(Subs(cs))
            && multiset(r[n - 1..]) == multiset(cs[n..]) + multiset{cs[i]}
  {
    var r := Deactivate(cs, n, i);
    assert r[n - 1..] == [cs[i]] + cs[n..];
    assert Subs(r) == Subs(cs)[i - 1 := cs[n - 1]][n - 2 := cs[i]];
    SwapMultiset(Subs(cs), i - 1, n - 2);
  }

  lemma SwapMultiset(s: seq<Chan>, i: nat, j: nat)
    requires i <= j < |s|
    ensures multiset(s[i := s[j]][j := s[i]]) == multiset(s)
  {
  }

  lemma RemovedKeeps(s: FeedState, ch: Chan)
    requires Inv(s) && ch in s.leaving
    ensures var i := Find(s.cases, ch);
            1 <= i < |s.cases| &&
            var cs := Delete(s.cases, i);
            && cs != [] && cs[0] == REMOVE_SUB && REMOVE_SUB !in Subs(cs)
            && multiset(Subs(s.cases)) == multiset(Subs(cs)) + multiset{ch}
            && s.live - multiset{ch} == multiset(s.inbox) + multiset(Subs(cs))
            && s.leaving - multiset{ch} <= multiset(Subs(cs))
  {
    hide Delete, Subs, SendInv;
    FoundCase(s, ch);
    var i := Find(s.cases, ch);
    DeleteSubs(s.cases, i);
    var subs := multiset(Subs(Delete(s.cases, i)));
    TakeOne(s.live, multiset(Subs(s.cases)), subs, multiset(s.inbox), ch);
    OneLess(s.leaving, multiset(Subs(s.cases)), subs, ch);
    assert REMOVE_SUB !in multiset(Subs(s.cases));
  }

  lemma OneLess(a: multiset<Chan>, b: multiset<Chan>, b': multiset<Chan>, ch: Chan)
    requires a <= b && b == b' + multiset{ch}
    ensures a - multiset{ch} <= b'
  {
  }

  lemma RemoveDuringKeeps(s: FeedState, ch: Chan)
    requires Inv(s) && Enabled(s, RemoveDuring(ch))
    ensures Inv(Next(s, RemoveDuring(ch)))
  {
    hide Find, Delete, Subs, SendInv;
    RemovedKeeps(s, ch);
    RemoveSend(s, ch);
  }

  lemma RemoveSend(s: FeedState, ch: Chan)
    requires Inv(s) && Enabled(s, RemoveDuring(ch))
    ensures SendInv(Next(s, RemoveDuring(ch)))
  {
    hide Find, Delete, Subs, Inv;
    var s' := Next(s, RemoveDuring(ch));
    FoundCase(s, ch);
    InvSend(s);
    var i, p, p' := Find(s.cases, ch), s.phase, s'.phase;
    DeleteSubs(s.cases, i);
    DeleteDone(s.cases, i, p.active);
    var subs := multiset(Subs(s'.cases));
    if i < p.active {
      MissedOne(p.audience, subs, p.leftAfter, p.missed, ch);
    } else {
      LeftOne(p.audience, subs, p.leftAfter, p.missed, ch);
      DoneOne(p.delivered, multiset(s'.cases[p'.active..]), p.leftAfter, ch);
    }
  }

  lemma InvSend(s: FeedState)
    requires Inv(s) && s.phase.Sending?
    ensures SendInv(s) && s.cases != []
  {
  }

  lemma MissedOne(all: multiset<Chan>, a: multiset<Chan>, b: multiset<Chan>, c: multiset<Chan>, ch: Chan)
    requires all == a + multiset{ch} + b + c
    ensures all == a + b + (c + multiset{ch})
  {
  }

  lemma LeftOne(all: multiset<Chan>, a: multiset<Chan>, b: multiset<Chan>, c: multiset<Chan>, ch: Chan)
    requires all == a + multiset{ch} + b + c
    ensures all == a + (b + multiset{ch}) + c
  {
  }

  lemma DoneOne(all: multiset<Chan>, a: multiset<Chan>, b: multiset<Chan>, ch: Chan)
    requires all == a + multiset{ch} + b
    ensures all == a + (b + multiset{ch})
  {
  }

  /** The cases past the active ones lose the deleted one, if it was among them. */
  lemma DeleteDone(cs: seq<Chan>, i: nat, n: nat)
    requires i < |cs| && n <= |cs|
    ensures i < n ==> multiset(Delete(cs, i)[n - 1..]) == multiset(cs[n..])
    ensures n <= i ==> multiset(cs[n..]) == multiset(Delete(cs, i)[n..]) + multiset{cs[i]}
  {
    var ds := Delete(cs, i);
    if i < n {
      assert ds[n - 1..] == cs[n..];
    } else {
      assert ds[n..] == Delete(cs[n..], i - n);
      DeleteMultiset(cs[n..], i - n);
    }
  }

  lemma DeliverKeeps(s: FeedState, i: nat)
    requires Inv(s) && Enabled(s, Deliver(i))
    ensures Inv(Next(s, Deliver(i)))
  {
    hide Deactivate, Subs;
    var p, s' := s.phase, Next(s, Deliver(i));
    DeactivateSubs(s.cases, p.active, i);
    assert REMOVE_SUB !in multiset(Subs(s.cases)) && REMOVE_SUB !in multiset(Subs(s'.cases));
    AddToFirst(multiset(s.cases[p.active..]), p.leftAfter, s.cases[i]);
  }

  lemma AddToFirst(a: multiset<Chan>, b: multiset<Chan>, x: Chan)
    ensures a + b + multiset{x} == (a + multiset{x}) + b && |a + b + multiset{x}| == |a + b| + 1
  {
  }

  lemma BeginKeeps(s: FeedState)
    requires Inv(s) && Enabled(s, BeginSend)
    ensures Inv(Next(s, BeginSend))
  {
    hide Subs;
    SubsAppend(s.cases, s.inbox);
    var cs := s.cases + s.inbox;
    assert cs[|cs|..] == [];
    assert multiset(cs[|cs|..]) == multiset{};
    assert multiset(Subs(cs)) == s.live;
  }

  lemma SubsAppend(cs: seq<Chan>, more: seq<Chan>)
    requires cs != []
    ensures Subs(cs + more) == Subs(cs) + more
  {
  }

  lemma SubscribeKeeps(s: FeedState, ch: Chan)
    requires Inv(s) && Enabled(s, Subscribe(ch))
    ensures Inv(Next(s, Subscribe(ch)))
  {
    hide Subs, SendInv;
    assert multiset(s.inbox + [ch]) == multiset(s.inbox) + multiset{ch};
    assert Next(s, Subscribe(ch)).phase.Sending?
           ==> SendInv(Next(s, Subscribe(ch))) by { SameSend(s, Next(s, Subscribe(ch))); }
  }

  lemma UnsubscribeKeeps(s: FeedState, ch: Chan)
    requires Inv(s) && Enabled(s, Unsubscribe(ch))
    ensures Inv(Next(s, Unsubscribe(ch)))
  {
    hide Subs, SendInv, Delete;
    SameSend(s, Next(s, Unsubscribe(ch)));
    var i := Find(s.inbox, ch);
    if i != -1 {
      DeleteMultiset(s.inbox, i);
      TakeOne(s.live, multiset(s.inbox), multiset(Delete(s.inbox, i)), multiset(Subs(s.cases)), ch);
      assert REMOVE_SUB !in multiset(s.inbox);
    } else {
      assert ch !in multiset(s.inbox);
      OneMore(s.leaving, multiset(Subs(s.cases)), ch);
    }
  }

  lemma TakeOne(all: multiset<Chan>, a: multiset<Chan>, a': multiset<Chan>, b: multiset<Chan>, ch: Chan)
    requires all == a + b && a == a' + multiset{ch}
    ensures all - multiset{ch} == a' + b
  {
  }

  lemma OneMore(a: multiset<Chan>, b: multiset<Chan>, ch: Chan)
    requires a <= b && a[ch] < b[ch]
    ensures a + multiset{ch} <= b
  {
  }

  lemma SameSend(s: FeedState, s': FeedState)
    requires s.cases == s'.cases && s.phase == s'.phase && (s.phase.Sending? ==> SendInv(s))
    ensures s'.phase.Sending? ==> SendInv(s')
  {
  }

  /** Every step keeps the books. */
  lemma StepKeeps(s: FeedState, a: Action)
    requires Inv(s) && Enabled(s, a)
    ensures Inv(Next(s, a))
  {
    match a
    case Subscribe(ch) => SubscribeKeeps(s, ch);
    case Unsubscribe(ch) => UnsubscribeKeeps(s, ch);
    case RemoveIdle(ch) => RemovedKeeps(s, ch);
    case BeginSend => BeginKeeps(s);
    case Deliver(i) => DeliverKeeps(s, i);
    case RemoveDuring(ch) => RemoveDuringKeeps(s, ch);
    case EndSend =>
  }

  ghost predicate LegalTrace(s: FeedState, trace: seq<Action>)
    decreases |trace|
  {
    trace != [] ==> Enabled(s, trace[0]) && LegalTrace(Next(s, trace[0]), trace[1..])
  }

  ghost function Run(s: FeedState, trace: seq<Action>): FeedState
    requires LegalTrace(s, trace)
    decreases |trace|
  {
    if trace == [] then s else Run(Next(s, trace[0]), trace[1..])
  }

  /** In every interleaving the live subscriptions are exactly the inbox and the case list, and a waiting
      cancellation always finds its channel. */
  lemma {:induction false} RunKeeps(s: FeedState, trace: seq<Action>)
    requires Inv(s) && LegalTrace(s, trace)
    ensures Inv(Run(s, trace))
    decreases |trace|
  {
    if trace != [] {
      StepKeeps(s, trace[0]);
      RunKeeps(Next(s, trace[0]), trace[1..]);
    }
  }

  lemma {:induction false} TraceConcat(s: FeedState, t: seq<Action>, u: seq<Action>)
    ensures LegalTrace(s, t + u) <==> LegalTrace(s, t) && LegalTrace(Run(s, t), u)
    ensures LegalTrace(s, t + u) ==> Run(s, t + u) == Run(Run(s, t), u)
    decreases |t|
  {
    if t == [] {
      assert t + u == u;
    } else {
      assert (t + u)[0] == t[0] && (t + u)[1..] == t[1..] + u;
      if Enabled(s, t[0]) {
        TraceConcat(Next(s, t[0]), t[1..], u);
      }
    }
  }

  /** A feed nobody has subscribed to. */
  function Fresh(): FeedState {
    FeedState([REMOVE_SUB], [], multiset{}, multiset{}, Idle)
  }

  ghost predicate Reached(trace: seq<Action>, s: FeedState) {
    LegalTrace(Fresh(), trace) && Run(Fresh(), trace) == s
  }

  /** Every state a new feed can reach keeps the books. */
  lemma ReachedInv(trace: seq<Action>, s: FeedState)
    requires Reached(trace, s)
    ensures Inv(s)
  {
    RunKeeps(Fresh(), trace);
  }

  /** So a waiting cancellation always finds its channel. */
  lemma ReachedFound(trace: seq<Action>, s: FeedState, ch: Chan)
    requires Reached(trace, s) && ch in s.leaving
    ensures FIRST_SUB <= Find(s.cases, ch) < |s.cases|
  {
    ReachedInv(trace, s);
    FoundCase(s, ch);
  }

  /** And the active cases are part of the list. */
  lemma ReachedActive(trace: seq<Action>, s: FeedState)
    requires Reached(trace, s) && s.phase.Sending?
    ensures FIRST_SUB <= s.phase.active <= |s.cases|
  {
    ReachedInv(trace, s);
  }

  lemma ReachStep(trace: seq<Action>, s: FeedState, a: Action)
    requires Reached(trace, s) && Enabled(s, a)
    ensures Reached(trace + [a], Next(s, a))
  {
    hide Enabled, Next;
    TraceConcat(Fresh(), trace, [a]);
    assert LegalTrace(s, [a]) && Run(s, [a]) == Next(s, a);
  }

  // ---- where the live subscriptions come from ----

  ghost function One(b: bool): nat { if b then 1 else 0 }

  /** How often an action occurs. */
  ghost function Times(trace: seq<Action>, a: Action): nat {
    if trace == [] then 0 else One(trace[0] == a) + Times(trace[1..], a)
  }

  /** How many cancellations of a channel find it in the inbox, so that they take effect at once. */
  ghost function AtOnce(s: FeedState, trace: seq<Action>, ch: Chan): nat
    requires LegalTrace(s, trace)
    decreases |trace|
  {
    if trace == [] then 0
    else One(trace[0] == Unsubscribe(ch) && ch in s.inbox) + AtOnce(Next(s, trace[0]), trace[1..], ch)
  }

  lemma StepCounts(s: FeedState, a: Action, ch: Chan)
    requires Inv(s) && Enabled(s, a)
    ensures var off := One(a == Unsubscribe(ch) && ch in s.inbox) + One(a == RemoveIdle(ch))
                       + One(a == RemoveDuring(ch));
            && Next(s, a).live[ch] + off == s.live[ch] + One(a == Subscribe(ch))
            && Next(s, a).leaving[ch] + off == s.leaving[ch] + One(a == Unsubscribe(ch))
  {
    hide Inv, Subs, Delete, Find, SendInv, Deactivate;
    LeavingLive(s, ch);
    match a
    case Subscribe(_) =>
    case Unsubscribe(other) => if other != ch { LeavingLive(s, other); }
    case RemoveIdle(other) => OffList(s, other, ch);
    case BeginSend =>
    case Deliver(_) =>
    case RemoveDuring(other) => OffList(s, other, ch);
    case EndSend =>
  }

  lemma LeavingLive(s: FeedState, ch: Chan)
    requires Inv(s)
    ensures s.leaving[ch] <= s.live[ch] && (Find(s.inbox, ch) != -1 <==> ch in s.inbox)
    ensures ch in s.inbox ==> s.live[ch] > 0
  {
    assert ch in s.inbox ==> ch in multiset(s.inbox);
  }

  lemma OffList(s: FeedState, other: Chan, ch: Chan)
    requires Inv(s) && other in s.leaving
    ensures (s.live - multiset{other})[ch] + One(other == ch) == s.live[ch]
    ensures (s.leaving - multiset{other})[ch] + One(other == ch) == s.leaving[ch]
  {
    LeavingLive(s, other);
  }

  lemma {:induction false} RunCounts(s: FeedState, trace: seq<Action>, ch: Chan)
    requires Inv(s) && LegalTrace(s, trace)
    ensures var off := AtOnce(s, trace, ch) + Times(trace, RemoveIdle(ch)) + Times(trace, RemoveDuring(ch));
            && Run(s, trace).live[ch] + off == s.live[ch] + Times(trace, Subscribe(ch))
            && Run(s, trace).leaving[ch] + off == s.leaving[ch] + Times(trace, Unsubscribe(ch))
    decreases |trace|
  {
    hide Inv, Next, Enabled;
    if trace != [] {
      StepKeeps(s, trace[0]);
      StepCounts(s, trace[0], ch);
      RunCounts(Next(s, trace[0]), trace[1..], ch);
    }
  }

  /** In every state a feed can reach, a channel is live as often as it was subscribed, less the cancellations that took
      effect: at once, on the idle feed or during a send. Every other cancellation is still waiting. */
  lemma LiveCounts(trace: seq<Action>, s: FeedState, ch: Chan)
    requires Reached(trace, s)
    ensures var off := AtOnce(Fresh(), trace, ch) + Times(trace, RemoveIdle(ch)) + Times(trace, RemoveDuring(ch));
            s.live[ch] + off == Times(trace, Subscribe(ch)) && s.leaving[ch] + off == Times(trace, Unsubscribe(ch))
  {
    RunCounts(Fresh(), trace, ch);
  }

  lemma {:induction false} TimesNone(trace: seq<Action>, a: Action)
    ensures Times(trace, a) == 0 <==> a !in trace
  {
    if trace != [] { TimesNone(trace[1..], a); }
  }

  /** A channel that was never cancelled is live as often as it was subscribed, and is never removed. */
  lemma NeverCancelled(trace: seq<Action>, s: FeedState, ch: Chan)
    requires Reached(trace, s) && Unsubscribe(ch) !in trace
    ensures s.live[ch] == Times(trace, Subscribe(ch)) && RemoveDuring(ch) !in trace
  {
    LiveCounts(trace, s, ch);
    TimesNone(trace, Unsubscribe(ch));
    TimesNone(trace, RemoveDuring(ch));
  }

  lemma StepOfSend(s: FeedState, a: Action)
    requires s.phase.Sending? && Enabled(s, a) && a != EndSend
    ensures Next(s, a).phase.Sending? && Next(s, a).phase.audience == s.phase.audience
    ensures forall ch :: a != RemoveDuring(ch) ==> Next(s, a).phase.missed[ch] == s.phase.missed[ch]
  {
  }

  /** Whatever happens during a send, its audience stays and a channel is missed only by being removed. */
  lemma {:induction false} DuringSend(s: FeedState, mid: seq<Action>)
    requires s.phase.Sending? && LegalTrace(s, mid) && EndSend !in mid
    ensures Run(s, mid).phase.Sending? && Run(s, mid).phase.audience == s.phase.audience
    ensures forall ch :: RemoveDuring(ch) !in mid ==> Run(s, mid).phase.missed[ch] == s.phase.missed[ch]
    decreases |mid|
  {
    hide Next, Enabled;
    if mid != [] {
      assert mid[0] in mid;
      assert forall a :: a in mid[1..] ==> a in mid;
      StepOfSend(s, mid[0]);
      DuringSend(Next(s, mid[0]), mid[1..]);
    }
  }

  lemma BeginAudience(s: FeedState)
    requires Inv(s) && s.phase.Idle?
    ensures Enabled(s, BeginSend) && Next(s, BeginSend).phase.Sending?
    ensures Next(s, BeginSend).phase.audience == s.live && Next(s, BeginSend).phase.missed == multiset{}
  {
    assert Subs(s.cases + s.inbox) == Subs(s.cases) + s.inbox;
  }

  /** A whole send, however it is interleaved with subscriptions and cancellations: the value goes to everyone
      who was subscribed at its start except those removed before their turn, as often as they were subscribed,
      and every channel nobody removes gets it. */
  lemma WholeSend(s: FeedState, mid: seq<Action>)
    requires Inv(s) && s.phase.Idle? && LegalTrace(s, [BeginSend] + mid) && EndSend !in mid
    requires Enabled(Run(s, [BeginSend] + mid), EndSend)
    ensures var p := Run(s, [BeginSend] + mid).phase;
            p.Sending?
            && p.audience == s.live
            && p.delivered + p.missed == p.audience
            && p.nsent == |p.audience| - |p.missed|
            && (forall ch :: RemoveDuring(ch) !in mid ==> p.delivered[ch] == s.live[ch])
  {
    hide Inv, Next, Enabled;
    var b, f := Next(s, BeginSend), Run(s, [BeginSend] + mid);
    assert ([BeginSend] + mid)[1..] == mid;
    StepKeeps(s, BeginSend);
    BeginAudience(s);
    DuringSend(b, mid);
    RunKeeps(b, mid);
    SendComplete(f);
    forall ch | RemoveDuring(ch) !in mid
      ensures f.phase.delivered[ch] == s.live[ch]
    {
      assert f.phase.missed[ch] == 0;
    }
  }

  /** What removing a channel during a send does, field by field. */
  lemma RemovedDuring(s: FeedState, ch: Chan)
    requires Enabled(s, RemoveDuring(ch))
    ensures var i, t := Find(s.cases, ch), Next(s, RemoveDuring(ch));
            && t == FeedState(Delete(s.cases, i), s.inbox, s.live - multiset{ch}, s.leaving - multiset{ch}, t.phase)
            && t.phase.Sending? && t.phase.nsent == s.phase.nsent
            && t.phase.active == if i < s.phase.active then s.phase.active - 1 else s.phase.active
  {
  }

  /** When a send can end, the value went to everyone subscribed at its start except those removed before
      their turn, and the count is the number of deliveries. */
  lemma SendComplete(s: FeedState)
    requires Inv(s) && Enabled(s, EndSend)
    ensures s.phase.Sending? && s.phase.delivered + s.phase.missed == s.phase.audience
    ensures s.phase.nsent == |s.phase.audience| - |s.phase.missed|
  {
    assert Subs(s.cases) == s.cases[1..];
  }

  /** With distinct channels, a channel that stays subscribed gets the value exactly once and any other
      channel at most once, never without having been subscribed at the start. */
  lemma ExactlyOnce(s: FeedState, ch: Chan)
    requires Inv(s) && Enabled(s, EndSend) && s.phase.audience[ch] <= 1
    ensures s.phase.delivered[ch] <= s.phase.audience[ch]
    ensures ch in s.phase.audience && ch in multiset(Subs(s.cases)) ==> s.phase.delivered[ch] == 1
  {
    SendComplete(s);
    assert s.phase.audience[ch] == multiset(Subs(s.cases))[ch] + s.phase.leftAfter[ch] + s.phase.missed[ch];
  }

  /** Every turn of a send shrinks the active cases or the case list. */
  lemma TurnShrinks(s: FeedState, a: Action)
    requires Inv(s) && Enabled(s, a) && (a.Deliver? || a.RemoveDuring?)
    ensures Next(s, a).phase.Sending? && Next(s, a).phase.active <= s.phase.active && |Next(s, a).cases| <= |s.cases|
    ensures Next(s, a).phase.active + |Next(s, a).cases| < s.phase.active + |s.cases|
  {
    if a.RemoveDuring? { FoundCase(s, a.ch); }
  }
}
