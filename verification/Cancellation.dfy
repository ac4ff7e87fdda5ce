/** The cancellation that the requests of one operation share. */
module Cancellation {

  class RequestCancellation {
    var isCancelled: bool
    var actions: set<nat>
    /** The actions run so far, each as often as it was run. */
    ghost var ran: multiset<nat>

    /** A cancelled object holds no action back, and no action has run twice or runs again. */
    ghost predicate Valid()
      reads this
    {
      && (isCancelled ==> actions == {})
      && (forall id :: ran[id] <= 1)
      && (forall id :: id in actions ==> ran[id] == 0)
    }

    constructor ()
      ensures Valid() && !isCancelled && actions == {} && ran == multiset{}
    {
      isCancelled, actions, ran := false, {}, multiset{};
    }

    /** Cancelling runs every registered action, the first time only; `performs` says that it was the first time, and so
        that what the caller wanted to perform with the cancellation has been performed. */
    method Cancel() returns (performs: bool)
      requires Valid()
      modifies this
      ensures Valid() && isCancelled
      ensures performs <==> !old(isCancelled)
      ensures ran == old(ran) + (if performs then multiset(old(actions)) else multiset{})
    {
      if isCancelled {
        return false;
      }
      isCancelled := true;
      var pending := actions;
      actions := {};
      ghost var before := ran;
      ghost var all := pending;
      while pending != {}
        invariant pending <= all && actions == {} && isCancelled
        invariant ran == before + multiset(all - pending)
        decreases pending
      {
        var id :| id in pending;
        assert all - (pending - {id}) == (all - pending) + {id};
        pending := pending - {id};
        ran := ran + multiset{id};
      }
      assert all - pending == all;
      return true;
    }

    /** An action registered too late runs at once. */
    method Register(id: nat) returns (registered: bool)
      requires Valid() && id !in actions && ran[id] == 0
      modifies this
      ensures Valid() && isCancelled == old(isCancelled) && registered == !isCancelled
      ensures if registered then actions == old(actions) + {id} && ran == old(ran)
              else actions == old(actions) && ran == old(ran) + multiset{id}
    {
      if isCancelled {
        ran := ran + multiset{id};
        return false;
      }
      actions := actions + {id};
      return true;
    }

    /** An action whose request has finished never runs. */
    method Finish(id: nat)
      requires Valid()
      modifies this`actions
      ensures Valid() && actions == old(actions) - {id}
    {
      actions := actions - {id};
    }
  }
}
