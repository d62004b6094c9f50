/** The event feed itself: the case list lives in an array that is swapped, shifted and grown in place, and
    the loop of Send is interrupted by whatever other goroutines do. */
module Feed {
  import opened FeedSpec

  class Feed {
    /** Backing array of sendCases, of which the first count are in use. */
    var cases: array<Chan>
    var count: nat
    var inbox: seq<Chan>
    /** The goroutines waiting in remove, and the subscriptions not yet off the lists. */
    var leaving: multiset<Chan>
    var live: multiset<Chan>
    ghost var phase: Phase
    /** Every atomic step taken since the feed was made. */
    ghost var trace: seq<Action>

    ghost predicate Sized()
      reads this
    {
      FIRST_SUB <= count <= cases.Length
    }

    ghost function State(): FeedState
      requires Sized()
      reads this, cases
    {
      FeedState(cases[..count], inbox, live, leaving, phase)
    }

    ghost predicate Valid()
      reads this, cases
    {
      Sized() && Reached(trace, State())
    }

    constructor ()
      ensures Valid() && fresh(cases) && State() == Fresh() && trace == []
    {
      cases := new Chan[1](_ => REMOVE_SUB);
      count, inbox, leaving, live := 1, [], multiset{}, multiset{};
      phase, trace := Idle, [];
      new;
      assert cases[..count] == [REMOVE_SUB];
    }

    method Subscribe(ch: Chan)
      requires Valid() && ch != REMOVE_SUB
      modifies this
      ensures Valid() && cases == old(cases)
      ensures State() == Next(old(State()), FeedSpec.Subscribe(ch)) && trace == old(trace) + [FeedSpec.Subscribe(ch)]
      ensures inbox == old(inbox) + [ch] && live[ch] == old(live)[ch] + 1
    {
      hide Inv, Reached, FeedSpec.Find, FeedSpec.Delete, Subs;
      ReachStep(trace, State(), FeedSpec.Subscribe(ch));
      inbox := inbox + [ch];
      live := live + multiset{ch};
      trace := trace + [FeedSpec.Subscribe(ch)];
    }

    /** The part of remove before it waits: a channel still in the inbox is gone at once. */
    method Unsubscribe(ch: Chan)
      requires Valid() && Enabled(State(), FeedSpec.Unsubscribe(ch))
      modifies this
      ensures Valid() && cases == old(cases)
      ensures State() == Next(old(State()), FeedSpec.Unsubscribe(ch))
              && trace == old(trace) + [FeedSpec.Unsubscribe(ch)]
      ensures ch in old(inbox) ==> live[ch] == old(live)[ch] - 1 && multiset(inbox)[ch] == multiset(old(inbox))[ch] - 1
      ensures ch !in old(inbox) ==> inbox == old(inbox) && leaving[ch] == old(leaving)[ch] + 1
    {
      hide Inv, Reached, FeedSpec.Find, FeedSpec.Delete, Subs;
      ReachStep(trace, State(), FeedSpec.Unsubscribe(ch));
      var index := FeedSpec.Find(inbox, ch);
      if index != -1 {
        DeleteMultiset(inbox, index);
        inbox := FeedSpec.Delete(inbox, index);
        live := live - multiset{ch};
      } else {
        leaving := leaving + multiset{ch};
      }
      trace := trace + [FeedSpec.Unsubscribe(ch)];
    }

    method FindCase(ch: Chan) returns (index: int)
      requires Sized()
      ensures index == FeedSpec.Find(cases[..count], ch)
    {
      var i := 0;
      while i < count
        invariant i <= count
        invariant forall j :: 0 <= j < i ==> cases[j] != ch
      {
        if cases[i] == ch {
          FindFirst(cases[..count], i, ch);
          return i;
        }
        i := i + 1;
      }
      return -1;
    }

    /** Shift everything after index one place down and shorten the list. */
    method DeleteCase(index: nat)
      requires FIRST_SUB <= index < count && Sized()
      modifies cases, `count
      ensures Sized() && cases[..count] == FeedSpec.Delete(old(cases[..count]), index)
    {
      hide FeedSpec.Delete, Shifted;
      ghost var was := cases[..count];
      ShiftStart(was, index);
      var i := index;
      while i + 1 < count
        invariant index <= i < count && count == old(count) && Sized()
        invariant cases[..count] == Shifted(was, index, i)
      {
        ghost var now := cases[..count];
        cases[i] := cases[i + 1];
        assert cases[..count] == now[i := now[i + 1]];
        ShiftStep(was, index, i);
        i := i + 1;
      }
      count := count - 1;
      ShiftEnd(was, index, cases[..count + 1]);
    }

    /** Take a channel off the list for good. */
    method TakeOff(ch: Chan) returns (index: int)
      requires Sized() && FIRST_SUB <= FeedSpec.Find(cases[..count], ch)
      modifies cases, `count, `live, `leaving
      ensures Sized() && index == FeedSpec.Find(old(cases[..count]), ch)
      ensures cases[..count] == FeedSpec.Delete(old(cases[..count]), index)
      ensures live == old(live) - multiset{ch} && leaving == old(leaving) - multiset{ch} && count == old(count) - 1
    {
      hide FeedSpec.Find, FeedSpec.Delete;
      index := FindCase(ch);
      DeleteCase(index);
      live, leaving := live - multiset{ch}, leaving - multiset{ch};
    }

    /** A cancellation that finds no send in progress takes its channel off the list itself. */
    method RemoveIdle(ch: Chan)
      requires Valid() && Enabled(State(), FeedSpec.RemoveIdle(ch))
      modifies this, cases
      ensures Valid() && cases == old(cases)
      ensures State() == Next(old(State()), FeedSpec.RemoveIdle(ch)) && trace == old(trace) + [FeedSpec.RemoveIdle(ch)]
    {
      hide Inv, Reached, FeedSpec.Find, FeedSpec.Delete, Subs;
      ReachStep(trace, State(), FeedSpec.RemoveIdle(ch));
      ReachedFound(trace, State(), ch);
      var _ := TakeOff(ch);
      trace := trace + [FeedSpec.RemoveIdle(ch)];
    }

    /** Take over the inbox, in place where the array has room. */
    method Begin()
      requires Valid() && phase.Idle?
      modifies this, cases
      ensures Valid() && (cases == old(cases) || fresh(cases))
      ensures State() == Next(old(State()), BeginSend) && trace == old(trace) + [BeginSend]
    {
      hide Inv, Reached, FeedSpec.Find, FeedSpec.Delete, Subs;
      ghost var s := State();
      ReachStep(trace, s, BeginSend);
      var total := count + |inbox|;
      var target := cases;
      if total > cases.Length {
        target := new Chan[total];
        forall i | 0 <= i < count { target[i] := cases[i]; }
      }
      assert target[..count] == s.cases;
      forall i | count <= i < total { target[i] := inbox[i - count]; }
      assert target[..total] == s.cases + s.inbox;
      cases, count, inbox := target, total, [];
      phase := Next(s, BeginSend).phase;
      trace := trace + [BeginSend];
    }

    /** A value went to the channel at index: swap its case behind the active ones. */
    method DeliverTo(n: nat, index: nat) returns (m: nat)
      requires Valid() && phase.Sending? && n == phase.active && FIRST_SUB <= index < n
      modifies this, cases
      ensures Valid() && cases == old(cases) && phase.Sending? && m == phase.active
      ensures m == n - 1 && count == old(count) && phase.nsent == old(phase).nsent + 1
      ensures State() == Next(old(State()), Deliver(index)) && trace == old(trace) + [Deliver(index)]
    {
      hide Reached, Inv;
      ghost var s := State();
      ReachStep(trace, s, Deliver(index));
      ReachedActive(trace, s);
      m := n - 1;
      cases[index], cases[m] := cases[m], cases[index];
      phase := Next(s, Deliver(index)).phase;
      assert cases[..count] == FeedSpec.Deactivate(s.cases, n, index);
      trace := trace + [Deliver(index)];
    }

    /** A cancellation reached the send: the channel leaves the list, and the active part if it was in it. */
    method Receive(n: nat, ch: Chan) returns (m: nat)
      requires Valid() && phase.Sending? && n == phase.active && Enabled(State(), RemoveDuring(ch))
      modifies this, cases
      ensures Valid() && cases == old(cases) && phase.Sending? && m == phase.active
      ensures FIRST_SUB <= m <= n && count == old(count) - 1 && phase.nsent == old(phase).nsent
      ensures State() == Next(old(State()), RemoveDuring(ch)) && trace == old(trace) + [RemoveDuring(ch)]
    {
      hide Inv, Reached, FeedSpec.Find, FeedSpec.Delete, Subs, Next;
      ghost var s := State();
      RemovedDuring(s, ch);
      ReachStep(trace, s, RemoveDuring(ch));
      ReachedFound(trace, s, ch);
      ReachedActive(trace, s);
      var index := TakeOff(ch);
      m := if index < n then n - 1 else n;
      phase, trace := Next(s, RemoveDuring(ch)).phase, trace + [RemoveDuring(ch)];
    }

    /** What other goroutines may do at any point of a send: any number of subscriptions and cancellations. */
    method Others() returns (ghost steps: seq<Action>)
      requires Valid()
      modifies this
      ensures Valid() && cases == old(cases) && count == old(count) && phase == old(phase)
      ensures trace == old(trace) + steps && EndSend !in steps
    {
      hide Inv, Reached, FeedSpec.Find, FeedSpec.Delete, Subs;
      var turns: nat := *;
      steps := [];
      while turns > 0
        invariant Valid() && cases == old(cases) && count == old(count) && phase == old(phase)
        invariant trace == old(trace) + steps && EndSend !in steps
      {
        var ch: Chan := *;
        var joins: bool := *;
        if joins && ch != REMOVE_SUB {
          Subscribe(ch);
          steps := steps + [FeedSpec.Subscribe(ch)];
        } else if leaving[ch] < live[ch] {
          Unsubscribe(ch);
          steps := steps + [FeedSpec.Unsubscribe(ch)];
        }
        turns := turns - 1;
      }
    }

    /** Between Begin and End: a send with its n active cases and its count. */
    ghost predicate Under(n: nat, nsent: nat)
      reads this, cases
    {
      Valid() && phase.Sending? && n == phase.active && nsent == phase.nsent && FIRST_SUB <= n
    }

    /** Try every active channel without blocking. */
    method FastPath(n: nat, nsent: nat) returns (m: nat, sent: nat, ghost steps: seq<Action>)
      requires Under(n, nsent)
      modifies this, cases
      ensures Under(m, sent) && m <= n && count == old(count) && cases == old(cases)
      ensures trace == old(trace) + steps && EndSend !in steps
    {
      hide Reached, Inv, Next;
      m, sent, steps := n, nsent, [];
      var i := FIRST_SUB;
      while i < m
        invariant Under(m, sent) && m <= n && count == old(count) && cases == old(cases) && FIRST_SUB <= i
        invariant trace == old(trace) + steps && EndSend !in steps
        decreases m - i
      {
        ghost var others := Others();
        steps := steps + others;
        var ok: bool := *;
        if ok {
          sent := sent + 1;
          m := DeliverTo(m, i);
          steps := steps + [Deliver(i)];
        } else {
          i := i + 1;
        }
      }
    }

    /** Block until a channel takes the value or a cancellation comes in. */
    method Select(n: nat, nsent: nat) returns (m: nat, sent: nat, ghost steps: seq<Action>)
      requires Under(n, nsent) && n > FIRST_SUB
      modifies this, cases
      ensures Under(m, sent) && m <= n && m + count < n + old(count) && cases == old(cases)
      ensures trace == old(trace) + steps && EndSend !in steps
    {
      hide Reached, Inv, Next;
      steps := Others();
      sent := nsent;
      var ch: Chan := *;
      var received: bool := *;
      if received && ch in leaving {
        m := Receive(n, ch);
        steps := steps + [RemoveDuring(ch)];
      } else {
        var chosen: nat :| FIRST_SUB <= chosen < n;
        m := DeliverTo(n, chosen);
        sent := sent + 1;
        steps := steps + [Deliver(chosen)];
      }
    }

    method End()
      requires Valid() && Enabled(State(), EndSend)
      modifies this
      ensures Valid() && cases == old(cases) && phase.Idle?
      ensures State() == Next(old(State()), EndSend) && trace == old(trace) + [EndSend]
    {
      hide Reached, Inv;
      ReachStep(trace, State(), EndSend);
      phase := Idle;
      trace := trace + [EndSend];
    }

    /** Deliver to everyone subscribed. Whatever other goroutines do meanwhile, it ends; the value went to every
        subscription that was live when it began, except those cancelled before their turn; a channel that was
        not cancelled got it exactly as often as it was subscribed; the result counts the deliveries. */
    method Send() returns (nsent: nat, ghost mid: seq<Action>, ghost last: Phase)
      requires Valid() && phase.Idle?
      modifies this, cases
      ensures Valid() && phase.Idle? && trace == old(trace) + ([BeginSend] + mid + [EndSend]) && EndSend !in mid
      ensures last.Sending? && last.audience == old(live) && last.delivered + last.missed == old(live)
      ensures forall ch :: RemoveDuring(ch) !in mid ==> last.delivered[ch] == old(live)[ch]
      ensures nsent == |last.delivered| && nsent == |old(live)| - |last.missed|
      ensures forall ch :: FeedSpec.Unsubscribe(ch) !in trace
                ==> last.delivered[ch] == Times(old(trace), FeedSpec.Subscribe(ch))
    {
      hide Reached, Inv, Next;
      ghost var s, t := State(), trace;
      Begin();
      BeginCount(t, s);
      var n: nat := count;
      nsent, mid := 0, [];
      while true
        invariant Under(n, nsent) && (cases == old(cases) || fresh(cases))
        invariant trace == t + ([BeginSend] + mid) && EndSend !in mid
        decreases n + count
      {
        ghost var steps;
        n, nsent, steps := FastPath(n, nsent);
        assert t + ([BeginSend] + mid) + steps == t + ([BeginSend] + (mid + steps));
        mid := mid + steps;
        if n == FIRST_SUB {
          break;
        }
        n, nsent, steps := Select(n, nsent);
        assert t + ([BeginSend] + mid) + steps == t + ([BeginSend] + (mid + steps));
        mid := mid + steps;
      }
      last := phase;
      SendTrace(t, s, mid, State());
      End();
      assert t + ([BeginSend] + mid) + [EndSend] == t + ([BeginSend] + mid + [EndSend]);
      forall ch | FeedSpec.Unsubscribe(ch) !in trace
        ensures last.delivered[ch] == Times(t, FeedSpec.Subscribe(ch))
      {
        NeverRemoved(t, s, trace, State(), mid, ch);
      }
    }
  }

  lemma NeverRemoved(t: seq<Action>, s: FeedState, trace: seq<Action>, s': FeedState, mid: seq<Action>, ch: Chan)
    requires Reached(t, s) && Reached(trace, s') && trace == t + ([BeginSend] + mid + [EndSend])
             && Unsubscribe(ch) !in trace
    ensures RemoveDuring(ch) !in mid && s.live[ch] == Times(t, Subscribe(ch))
  {
    assert forall a :: a in mid || a in t ==> a in trace;
    NeverCancelled(t, s, ch);
    NeverCancelled(trace, s', ch);
  }

  /** The list with everything after index moved down as far as i; what is at i is there twice. */
  ghost function Shifted(cs: seq<Chan>, index: nat, i: nat): (r: seq<Chan>)
    requires index <= i < |cs|
    ensures |r| == |cs|
  {
    cs[..index] + cs[index + 1..i + 1] + cs[i..]
  }

  lemma ShiftStep(cs: seq<Chan>, index: nat, i: nat)
    requires index <= i && i + 1 < |cs|
    ensures var now := Shifted(cs, index, i); now[i := now[i + 1]] == Shifted(cs, index, i + 1)
  {
  }

  lemma ShiftStart(cs: seq<Chan>, index: nat)
    requires index < |cs|
    ensures Shifted(cs, index, index) == cs
  {
  }

  lemma ShiftEnd(cs: seq<Chan>, index: nat, now: seq<Chan>)
    requires index < |cs| && now == Shifted(cs, index, |cs| - 1)
    ensures now[..|cs| - 1] == FeedSpec.Delete(cs, index)
  {
  }

  lemma BeginCount(t: seq<Action>, s: FeedState)
    requires Reached(t, s) && s.phase.Idle?
    ensures Next(s, BeginSend).phase.Sending? && Next(s, BeginSend).phase.active == |Next(s, BeginSend).cases|
            && Next(s, BeginSend).phase.nsent == 0
  {
  }

  lemma SendTrace(t: seq<Action>, s: FeedState, mid: seq<Action>, f: FeedState)
    requires Reached(t, s) && s.phase.Idle? && Reached(t + ([BeginSend] + mid), f) && EndSend !in mid
             && Enabled(f, EndSend)
    ensures f.phase.Sending? && f.phase.audience == s.live && f.phase.delivered + f.phase.missed == s.live
    ensures forall ch :: RemoveDuring(ch) !in mid ==> f.phase.delivered[ch] == s.live[ch]
    ensures f.phase.nsent == |f.phase.delivered| == |s.live| - |f.phase.missed|
  {
    hide Inv, Next, Enabled;
    TraceConcat(Fresh(), t, [BeginSend] + mid);
    ReachedInv(t, s);
    WholeSend(s, mid);
  }

  lemma {:induction false} FindFirst(cs: seq<Chan>, i: nat, ch: Chan)
    requires i < |cs| && cs[i] == ch && (forall j :: 0 <= j < i ==> cs[j] != ch)
    ensures FeedSpec.Find(cs, ch) == i
  {
    if i > 0 {
      assert cs[0] != ch;
      FindFirst(cs[1..], i - 1, ch);
    }
  }
}
