/**
 * The list of blocked polls of kitch-linux/lib/emu/FD.C and its one notification, setPollStatus.
 */
module PollList {
  import opened Prelude

  type Tid = nat

  /** The bits of a poll state. */
  datatype Flag = ReadAvail | EndOfFile | Destroyed | OtherFlag(bit: nat)

  datatype Pollfd = Pollfd(fd: nat, events: set<Flag>, revents: set<Flag>)

  datatype Code = NotWoken | Ready | Invalid

  /** PollBlockElem: one blocked poll. */
  datatype Elem = Elem(waiter: Option<Tid>, pfd: seq<Pollfd>, retcode: Code, waker: Option<nat>)

  /** The first entry for the descriptor; the length of the array if there is none. */
  function First(pfd: seq<Pollfd>, fd: nat): (i: nat)
    ensures i <= |pfd| && (i < |pfd| ==> pfd[i].fd == fd)
    ensures forall j :: 0 <= j < i ==> pfd[j].fd != fd
  {
    if pfd == [] || pfd[0].fd == fd then 0 else 1 + First(pfd[1..], fd)
  }

  /** End of file counts as readable. */
  function Effective(state: set<Flag>): set<Flag> {
    if EndOfFile in state then state + {ReadAvail} else state
  }

  /** The notification wakes this poll. */
  predicate Hit(e: Elem, fd: nat, state: set<Flag>) {
    var i := First(e.pfd, fd);
    i < |e.pfd| && state * (e.pfd[i].events + {Destroyed}) != {}
  }

  /** Some entry of the poll asks for what is notified. */
  ghost predicate Wants(e: Elem, fd: nat, state: set<Flag>) {
    exists i :: 0 <= i < |e.pfd| && e.pfd[i].fd == fd && state * (e.pfd[i].events + {Destroyed}) != {}
  }

  /**
   * Only the first entry for the descriptor is looked at: a poll that asks for what is notified
   * is woken exactly if the descriptor is destroyed or its first entry asks.
   */
  lemma WokenExact(e: Elem, fd: nat, state: set<Flag>)
    ensures Hit(e, fd, state) ==> Wants(e, fd, state)
    ensures Wants(e, fd, state) ==>
              && First(e.pfd, fd) < |e.pfd|
              && (Hit(e, fd, state) <==> Destroyed in state || state * e.pfd[First(e.pfd, fd)].events != {})
  {
    var i := First(e.pfd, fd);
    if i < |e.pfd| {
      var events := e.pfd[i].events;
      assert state * (events + {Destroyed}) == state * events + state * {Destroyed};
      assert Destroyed in state <==> state * {Destroyed} != {} by {
        assert Destroyed in state ==> Destroyed in state * {Destroyed};
      }
    }
  }

  /**
   * The notification, as it is given, wakes this poll: the descriptor is destroyed, or the first
   * entry for it asks for a state given, or for reading at end of file.
   */
  predicate Wakes(e: Elem, fd: nat, given: set<Flag>) {
    var i := First(e.pfd, fd);
    && i < |e.pfd|
    && var events := e.pfd[i].events;
       Destroyed in given || given * events != {} || (EndOfFile in given && ReadAvail in events)
  }

  /** End of file counts as readable, and nothing else is added to what is given. */
  lemma EffectiveExact(given: set<Flag>, f: Flag)
    ensures f in Effective(given) <==> f in given || (f == ReadAvail && EndOfFile in given)
  {
  }

  /** A poll is hit exactly if the notification wakes it. */
  lemma HitIffWakes(e: Elem, fd: nat, given: set<Flag>)
    ensures Hit(e, fd, Effective(given)) <==> Wakes(e, fd, given)
  {
    var i, state := First(e.pfd, fd), Effective(given);
    if i < |e.pfd| {
      var asked := e.pfd[i].events + {Destroyed};
      EffectiveExact(given, Destroyed);
      EffectiveExact(given, ReadAvail);
      if Hit(e, fd, state) {
        var f :| f in state * asked;
        EffectiveExact(given, f);
        assert f in given && f in e.pfd[i].events ==> f in given * e.pfd[i].events;
      }
      if Destroyed in given {
        assert Destroyed in state * asked;
      }
      if EndOfFile in given && ReadAvail in e.pfd[i].events {
        assert ReadAvail in state * asked;
      }
      if f :| f in given * e.pfd[i].events {
        EffectiveExact(given, f);
        assert f in state * asked;
      }
    }
  }

  /** A poll for writing and, in a second entry, for reading misses that the descriptor is readable. */
  lemma SecondEntryMissed() returns (e: Elem)
    ensures Wants(e, 3, {ReadAvail}) && !Hit(e, 3, {ReadAvail})
  {
    e := Elem(Some(1), [Pollfd(3, {OtherFlag(4)}, {}), Pollfd(3, {ReadAvail}, {})], NotWoken, None);
    assert ReadAvail in {ReadAvail} * (e.pfd[1].events + {Destroyed});
    assert First(e.pfd, 3) == 0 && {ReadAvail} * (e.pfd[0].events + {Destroyed}) == {};
  }

  /** What a woken poll finds. */
  function Woken(e: Elem, fd: nat, state: set<Flag>): Elem
    requires First(e.pfd, fd) < |e.pfd|
  {
    var i := First(e.pfd, fd);
    Elem(None, e.pfd[i := e.pfd[i].(revents := state)],
         if Destroyed in state then Invalid else Ready,
         if Destroyed in state then e.waker else Some(fd))
  }

  /** The polls that stay on the list. */
  function Kept(es: seq<Elem>, fd: nat, state: set<Flag>): seq<Elem> {
    if es == [] then [] else
    var n, e := |es| - 1, es[|es| - 1];
    Kept(es[..n], fd, state) + (if Hit(e, fd, state) then [] else [e])
  }

  /** The polls that are woken. */
  function Hits(es: seq<Elem>, fd: nat, state: set<Flag>): seq<Elem> {
    if es == [] then [] else
    var n, e := |es| - 1, es[|es| - 1];
    Hits(es[..n], fd, state) + (if Hit(e, fd, state) then [e] else [])
  }

  /** What the woken polls find, in order. */
  function Results(es: seq<Elem>, fd: nat, state: set<Flag>): seq<Elem> {
    if es == [] then [] else
    var n, e := |es| - 1, es[|es| - 1];
    Results(es[..n], fd, state) + (if Hit(e, fd, state) then [Woken(e, fd, state)] else [])
  }

  function Pending(id: Option<Tid>): seq<Tid> {
    if id.Some? then [id.value] else []
  }

  /** The threads waiting on a list of polls, in order. */
  function Waiters(es: seq<Elem>): seq<Tid> {
    if es == [] then [] else Waiters(es[..|es| - 1]) + Pending(es[|es| - 1].waiter)
  }

  /** The threads of the woken polls, in order. */
  function Roused(es: seq<Elem>, fd: nat, state: set<Flag>): seq<Tid> {
    if es == [] then [] else
    var n, e := |es| - 1, es[|es| - 1];
    Roused(es[..n], fd, state) + (if Hit(e, fd, state) then Pending(e.waiter) else [])
  }

  lemma OneMore(list: seq<Elem>, p: nat, fd: nat, state: set<Flag>)
    requires p < |list|
    ensures var seen, e := list[..p], list[p];
            if Hit(e, fd, state) then
              && Kept(list[..p + 1], fd, state) == Kept(seen, fd, state)
              && Results(list[..p + 1], fd, state) == Results(seen, fd, state) + [Woken(e, fd, state)]
              && Roused(list[..p + 1], fd, state) == Roused(seen, fd, state) + Pending(e.waiter)
            else
              && Kept(list[..p + 1], fd, state) == Kept(seen, fd, state) + [e]
              && Results(list[..p + 1], fd, state) == Results(seen, fd, state)
              && Roused(list[..p + 1], fd, state) == Roused(seen, fd, state)
  {
    assert list[..p + 1][..p] == list[..p];
  }

  /** blockedPolls */
  class Polls {
    var blocked: seq<Elem>

    constructor ()
      ensures blocked == []
    {
      blocked := [];
    }

    method FindEntry(pfd: seq<Pollfd>, fd: nat) returns (i: nat)
      ensures i == First(pfd, fd)
    {
      i := 0;
      while i < |pfd| && pfd[i].fd != fd
        invariant i <= |pfd| && forall j :: 0 <= j < i ==> pfd[j].fd != fd
      {
        i := i + 1;
      }
    }

    /**
     * setPollStatus: each poll that is hit leaves the list with its result, and its thread is
     * unblocked one iteration later, the last after the loop. The results of the polls taken
     * off the list and the threads unblocked are given in order.
     */
    method SetPollStatus(fd: nat, given: set<Flag>) returns (results: seq<Elem>, unblocked: seq<Tid>)
      modifies this
      ensures blocked == Kept(old(blocked), fd, Effective(given))
      ensures results == Results(old(blocked), fd, Effective(given))
      ensures unblocked == Roused(old(blocked), fd, Effective(given))
      ensures forall e :: e in blocked <==> e in old(blocked) && !Wakes(e, fd, given)
    {
      var state := Effective(given);
      var id: Option<Tid> := None;
      var list, p := blocked, 0;
      var kept: seq<Elem> := [];
      results, unblocked := [], [];
      while p < |list|
        invariant p <= |list| && kept == Kept(list[..p], fd, state) && blocked == kept + list[p..]
        invariant results == Results(list[..p], fd, state)
        invariant unblocked + Pending(id) == Roused(list[..p], fd, state)
      {
        var be := list[p];
        OneMore(list, p, fd, state);
        var hit := IsHit(be, fd, state);
        Moved(kept, list, p);
        if hit {
          results := results + [Woken(be, fd, state)];
          unblocked := unblocked + Pending(id);
          id := be.waiter;
          blocked := kept + list[p + 1..];
        } else {
          kept := kept + [be];
        }
        p := p + 1;
      }
      assert list[..p] == list;
      unblocked := unblocked + Pending(id);
      KeptUnlessWoken(list, fd, given);
    }

    method IsHit(be: Elem, fd: nat, state: set<Flag>) returns (hit: bool)
      ensures hit == Hit(be, fd, state)
    {
      var i := FindEntry(be.pfd, fd);
      hit := i < |be.pfd| && state * (be.pfd[i].events + {Destroyed}) != {};
    }
  }

  lemma Moved(kept: seq<Elem>, list: seq<Elem>, p: nat)
    requires p < |list|
    ensures (kept + [list[p]]) + list[p + 1..] == kept + list[p..]
  {
  }

  // ------------------------------------------------- what it guarantees

  /** A poll stays on the list exactly if the notification does not wake it. */
  lemma {:induction false} KeptExactly(es: seq<Elem>, fd: nat, state: set<Flag>, e: Elem)
    ensures e in Kept(es, fd, state) <==> e in es && !Hit(e, fd, state)
    ensures e in Hits(es, fd, state) <==> e in es && Hit(e, fd, state)
  {
    if es != [] {
      var n := |es| - 1;
      KeptExactly(es[..n], fd, state, e);
      assert es == es[..n] + [es[n]];
    }
  }

  /** No poll is lost or duplicated: those kept and those woken are together the polls there were. */
  lemma {:induction false} Conserved(es: seq<Elem>, fd: nat, state: set<Flag>)
    ensures multiset(Kept(es, fd, state)) + multiset(Hits(es, fd, state)) == multiset(es)
  {
    if es != [] {
      var n := |es| - 1;
      Conserved(es[..n], fd, state);
      assert es == es[..n] + [es[n]];
      assert multiset(es) == multiset(es[..n]) + multiset{es[n]};
      if Hit(es[n], fd, state) {
        assert Kept(es, fd, state) == Kept(es[..n], fd, state);
      } else {
        assert Hits(es, fd, state) == Hits(es[..n], fd, state);
      }
    }
  }

  /** Every woken poll finds its own result: only the first entry for the descriptor is filled in. */
  lemma {:induction false} ResultsMatch(es: seq<Elem>, fd: nat, state: set<Flag>, k: nat)
    requires k < |Hits(es, fd, state)|
    ensures |Results(es, fd, state)| == |Hits(es, fd, state)|
    ensures var e, r := Hits(es, fd, state)[k], Results(es, fd, state)[k];
            && |r.pfd| == |e.pfd| && First(e.pfd, fd) < |e.pfd|
            && r.pfd[First(e.pfd, fd)].revents == state
            && (forall j :: 0 <= j < |e.pfd| && j != First(e.pfd, fd) ==> r.pfd[j] == e.pfd[j])
            && r.waiter == None
            && (Destroyed !in state ==> r.retcode == Ready && r.waker == Some(fd))
            && (Destroyed in state ==> r.retcode == Invalid && r.waker == e.waker)
  {
    var n := |es| - 1;
    SameLength(es[..n], fd, state);
    if k < |Hits(es[..n], fd, state)| {
      ResultsMatch(es[..n], fd, state, k);
    }
  }

  /** Exactly the polls that the notification does not wake stay. */
  lemma KeptUnlessWoken(es: seq<Elem>, fd: nat, given: set<Flag>)
    ensures forall e :: e in Kept(es, fd, Effective(given)) <==> e in es && !Wakes(e, fd, given)
  {
    forall e
      ensures e in Kept(es, fd, Effective(given)) <==> e in es && !Wakes(e, fd, given)
    {
      KeptExactly(es, fd, Effective(given), e);
      HitIffWakes(e, fd, given);
    }
  }

  /** A woken poll finds in its entry what was given, and that it can read at end of file; nothing else. */
  lemma ReventsExact(es: seq<Elem>, fd: nat, given: set<Flag>, k: nat, f: Flag)
    requires k < |Hits(es, fd, Effective(given))|
    ensures |Results(es, fd, Effective(given))| == |Hits(es, fd, Effective(given))|
    ensures var e, r := Hits(es, fd, Effective(given))[k], Results(es, fd, Effective(given))[k];
            && First(e.pfd, fd) < |r.pfd|
            && (f in r.pfd[First(e.pfd, fd)].revents <==> f in given || (f == ReadAvail && EndOfFile in given))
            && (r.retcode == Invalid <==> Destroyed in given)
  {
    ResultsMatch(es, fd, Effective(given), k);
    EffectiveExact(given, f);
    EffectiveExact(given, Destroyed);
  }

  lemma {:induction false} SameLength(es: seq<Elem>, fd: nat, state: set<Flag>)
    ensures |Results(es, fd, state)| == |Hits(es, fd, state)|
  {
    if es != [] {
      SameLength(es[..|es| - 1], fd, state);
    }
  }

  /**
   * A destroyed descriptor: no blocked poll names it any more, in any of its entries, and every
   * poll that named it has been woken with EINVAL.
   */
  lemma DestroyedLeavesNone(es: seq<Elem>, fd: nat, given: set<Flag>, e: Elem)
    requires Destroyed in given && e in es
    ensures var state := Effective(given);
            var names := exists j :: 0 <= j < |e.pfd| && e.pfd[j].fd == fd;
            && (e in Kept(es, fd, state) <==> !names)
            && (e in Hits(es, fd, state) <==> names)
            && (names ==> Woken(e, fd, state).retcode == Invalid)
  {
    var state := Effective(given);
    KeptExactly(es, fd, state, e);
    var i := First(e.pfd, fd);
    if i < |e.pfd| {
      assert Destroyed in state * (e.pfd[i].events + {Destroyed});
      assert e.pfd[i].fd == fd;
    }
  }

  /** The threads unblocked are those of the woken polls, in list order. */
  lemma {:induction false} RousedInOrder(es: seq<Elem>, fd: nat, state: set<Flag>)
    ensures Roused(es, fd, state) == Waiters(Hits(es, fd, state))
  {
    if es != [] {
      var n := |es| - 1;
      RousedInOrder(es[..n], fd, state);
      var before := Hits(es[..n], fd, state);
      if Hit(es[n], fd, state) {
        assert (before + [es[n]])[..|before|] == before;
      } else {
        assert Hits(es, fd, state) == before;
      }
    }
  }

  /** When every blocked poll has its own thread, no thread is unblocked twice. */
  lemma {:induction false} UnblockedOnce(es: seq<Elem>, fd: nat, state: set<Flag>)
    requires Distinct(Waiters(es))
    ensures Distinct(Roused(es, fd, state))
    ensures forall t :: t in Roused(es, fd, state) ==> t in Waiters(es)
  {
    if es != [] {
      var n := |es| - 1;
      var ws, before := Waiters(es), Waiters(es[..n]);
      assert ws == before + Pending(es[n].waiter);
      assert before == ws[..|before|];
      UnblockedOnce(es[..n], fd, state);
      assert es[n].waiter.Some? ==> ws[|before|] == es[n].waiter.value && es[n].waiter.value !in before;
    }
  }

  /** The threads unblocked are exactly those of the polls that the notification wakes. */
  lemma {:induction false} UnblockedExactly(es: seq<Elem>, fd: nat, given: set<Flag>, t: Tid)
    ensures t in Roused(es, fd, Effective(given)) <==> exists e :: e in es && Wakes(e, fd, given) && e.waiter == Some(t)
  {
    if es != [] {
      var n := |es| - 1;
      UnblockedExactly(es[..n], fd, given, t);
      HitIffWakes(es[n], fd, given);
      assert es == es[..n] + [es[n]];
    }
  }

  /** A list of polls that each have a thread has as many threads as polls, in the same order. */
  lemma {:induction false} WaitersInOrder(es: seq<Elem>, k: nat)
    requires k < |es| && forall e :: e in es ==> e.waiter.Some?
    ensures |Waiters(es)| == |es| && Waiters(es)[k] == es[k].waiter.value
  {
    var n := |es| - 1;
    assert es[n] in es;
    if n > 0 {
      WaitersInOrder(es[..n], if k < n then k else 0);
    }
  }
}
