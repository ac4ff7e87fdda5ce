/** The request to the broker that callers share, and those who wait for an opportunistic one with a time limit. */
module BrokerFlight {
  import opened Wrappers

  datatype Kind = Opportunistic | Demand | Unauthorized

  datatype Outcome = Succeeded | Failed | TimedOut

  datatype Request = Request(id: nat, kind: Kind)

  class Flight {
    var inFlight: Option<Request>
    var lastRequest: nat
    var lastWaiter: nat
    /** The waiters not resumed yet, with the request each waits for. */
    var waiters: map<nat, nat>

    /** The callers that await each request, the timers still to go off, and how often each waiter was resumed. */
    ghost var awaiting: map<nat, nat>
    ghost var timers: map<nat, nat>
    ghost var resumed: map<nat, seq<Outcome>>

    /** Every waiter that ever joined either has been resumed once, or waits for a request that a caller still awaits
        and has its timer still to go off. */
    ghost predicate Valid()
      reads this
    {
      && (inFlight.Some? ==> IsAwaited(inFlight.value.id))
      && (forall id :: id in awaiting ==> 1 <= id <= lastRequest)
      && (forall w :: w in waiters ==> IsAwaited(waiters[w]) && w in timers && timers[w] == waiters[w])
      && (forall w :: w in resumed <==> 1 <= w <= lastWaiter)
      && AreResumedOnce(waiters, resumed)
    }

    /** The waiters are among those that joined, and have not been resumed; all others have, once. */
    static ghost predicate AreResumedOnce(waiters: map<nat, nat>, resumed: map<nat, seq<Outcome>>) {
      && (forall w :: w in waiters ==> w in resumed)
      && (forall w :: w in resumed ==> |resumed[w]| == if w in waiters then 0 else 1)
    }

    ghost predicate IsAwaited(id: nat)
      reads this
    {
      id in awaiting && awaiting[id] > 0
    }

    constructor ()
      ensures Valid() && inFlight.None? && waiters == map[] && resumed == map[]
    {
      inFlight, lastRequest, lastWaiter, waiters := None, 0, 0, map[];
      awaiting, timers, resumed := map[], map[], map[];
    }

    /** Whether a caller starts a request of its own, rather than await the one in flight. */
    predicate StartsOwn(bypasses: bool)
      reads this
    {
      inFlight.None? || (bypasses && inFlight.value.kind == Opportunistic)
    }

    /** A request of one's own takes the slot, even if a bypassed one is still in it. */
    method Start(kind: Kind, bypasses: bool) returns (request: Request)
      requires Valid() && StartsOwn(bypasses)
      modifies this
      ensures Valid()
      ensures request == Request(old(lastRequest) + 1, kind) && inFlight == Some(request) && lastRequest == request.id
      ensures awaiting == old(awaiting)[request.id := 1]
      ensures waiters == old(waiters) && resumed == old(resumed) && timers == old(timers)
      ensures lastWaiter == old(lastWaiter)
    {
      lastRequest := lastRequest + 1;
      request := Request(lastRequest, kind);
      inFlight := Some(request);
      awaiting := awaiting[request.id := 1];
    }

    method Await(bypasses: bool) returns (request: Request)
      requires Valid() && !StartsOwn(bypasses)
      modifies this`awaiting
      ensures Valid() && Some(request) == inFlight
      ensures awaiting == old(awaiting)[request.id := old(awaiting)[request.id] + 1]
    {
      request := inFlight.value;
      awaiting := awaiting[request.id := awaiting[request.id] + 1];
    }

    /** One of the callers that await a request learns its outcome, and with it all who wait for that request. */
    method Finish(request: Request, outcome: Outcome)
      requires Valid() && IsAwaited(request.id) && outcome != TimedOut
      modifies this
      ensures Valid()
      ensures inFlight == if old(inFlight).Some? && old(inFlight).value.id == request.id then None else old(inFlight)
      ensures var matching := set w | w in old(waiters) && old(waiters)[w] == request.id;
        waiters == old(waiters) - matching && resumed == After(old(resumed), matching, outcome)
      ensures awaiting == old(awaiting)[request.id := old(awaiting)[request.id] - 1]
      ensures timers == old(timers) && lastWaiter == old(lastWaiter) && lastRequest == old(lastRequest)
    {
      if inFlight.Some? && inFlight.value.id == request.id {
        inFlight := None;
      }
      awaiting := awaiting[request.id := awaiting[request.id] - 1];
      var matching := set w | w in waiters && waiters[w] == request.id;
      ResumingKeepsCount(waiters, resumed, matching, outcome);
      hide AreResumedOnce;
      ResumeAll(matching, outcome);
    }

    static lemma ResumingKeepsCount(waiters: map<nat, nat>, resumed: map<nat, seq<Outcome>>, matching: set<nat>,
                                    outcome: Outcome)
      requires AreResumedOnce(waiters, resumed) && matching <= waiters.Keys
      ensures waiters.Keys <= resumed.Keys
      ensures AreResumedOnce(waiters - matching, After(resumed, matching, outcome))
    {
    }

    method ResumeAll(matching: set<nat>, outcome: Outcome)
      requires matching <= waiters.Keys && waiters.Keys <= resumed.Keys
      modifies this`waiters, this`resumed
      ensures waiters == old(waiters) - matching
      ensures resumed == After(old(resumed), matching, outcome)
    {
      var rest := matching;
      while rest != {}
        invariant rest <= matching && rest <= waiters.Keys && waiters.Keys <= resumed.Keys
        invariant waiters == old(waiters) - (matching - rest)
        invariant resumed == After(old(resumed), matching - rest, outcome)
        decreases rest
      {
        var waiter :| waiter in rest;
        assert matching - (rest - {waiter}) == (matching - rest) + {waiter};
        Resume(waiter, outcome);
        rest := rest - {waiter};
      }
      assert matching - rest == matching;
    }

    static ghost function After(before: map<nat, seq<Outcome>>, chosen: set<nat>, outcome: Outcome)
      : map<nat, seq<Outcome>>
    {
      map w | w in before :: if w in chosen then before[w] + [outcome] else before[w]
    }

    /** A waiter is removed as it is resumed. */
    method Resume(waiter: nat, outcome: Outcome)
      requires waiter in waiters && waiter in resumed
      modifies this`waiters, this`resumed
      ensures waiters == old(waiters) - {waiter}
      ensures resumed == old(resumed)[waiter := old(resumed)[waiter] + [outcome]]
    {
      waiters := waiters - {waiter};
      resumed := resumed[waiter := resumed[waiter] + [outcome]];
    }

    /** Joins an opportunistic request; None when none is in flight. */
    method JoinActiveOpportunistic(timeout: nat) returns (joined: Option<nat>)
      requires Valid()
      modifies this
      ensures Valid()
      ensures joined.Some? <==> old(inFlight).Some? && old(inFlight).value.kind == Opportunistic && timeout > 0
      ensures joined.Some? ==>
        && joined.value == old(lastWaiter) + 1 && waiters == old(waiters)[joined.value := old(inFlight).value.id]
        && resumed == old(resumed)[joined.value := []] && timers == old(timers)[joined.value := old(inFlight).value.id]
      ensures joined.None? ==> waiters == old(waiters) && resumed == old(resumed) && timers == old(timers)
      ensures inFlight == old(inFlight) && awaiting == old(awaiting)
    {
      if inFlight.None? || inFlight.value.kind != Opportunistic || timeout == 0 {
        return None;
      }
      lastWaiter := lastWaiter + 1;
      waiters := waiters[lastWaiter := inFlight.value.id];
      timers := timers[lastWaiter := inFlight.value.id];
      resumed := resumed[lastWaiter := []];
      return Some(lastWaiter);
    }

    method TimeOutWaiter(waiter: nat, request: nat)
      requires Valid() && waiter in timers && timers[waiter] == request
      modifies this
      ensures Valid()
      ensures timers == old(timers) - {waiter} && waiters == old(waiters) - {waiter}
      ensures resumed == if waiter in old(waiters) then old(resumed)[waiter := [TimedOut]] else old(resumed)
      ensures inFlight == old(inFlight) && awaiting == old(awaiting)
    {
      timers := timers - {waiter};
      if waiter in waiters && waiters[waiter] == request {
        assert resumed[waiter] + [TimedOut] == [TimedOut];
        Resume(waiter, TimedOut);
      }
    }

    /** When all timers have gone off, or all requests have finished, every waiter has been resumed exactly once. */
    lemma EachWaiterIsResumedOnce(waiter: nat)
      requires Valid() && 1 <= waiter <= lastWaiter
      ensures |resumed[waiter]| <= 1
      ensures timers == map[] || (forall id :: id in awaiting ==> awaiting[id] == 0) ==> |resumed[waiter]| == 1
    {
    }
  }
}
