/** Refreshes that callers with the same key share. */
module RefreshFlights {
  class Coordinator {
    var inFlight: map<string, nat>
    var lastIdentifier: nat

    /** The key of every refresh, those whose task has not completed, and the callers still to clear each. */
    ghost var keys: map<nat, string>
    ghost var running: set<nat>
    ghost var awaiting: map<nat, nat>

    /** A running refresh is the one in flight for its key: there is at most one. Whatever is in flight is awaited, so
        it will be cleared. */
    ghost predicate Valid()
      reads this
    {
      && (forall id :: id in keys ==> id <= lastIdentifier)
      && (forall id :: id in running ==> id in keys && keys[id] in inFlight && inFlight[keys[id]] == id)
      && (forall key :: key in inFlight ==>
            inFlight[key] in keys && keys[inFlight[key]] == key && IsAwaited(inFlight[key]))
    }

    ghost predicate IsAwaited(id: nat)
      reads this
    {
      id in awaiting && awaiting[id] > 0
    }

    constructor ()
      ensures Valid() && inFlight == map[] && running == {}
    {
      inFlight, lastIdentifier, keys, running, awaiting := map[], 0, map[], {}, map[];
    }

    /** Joins the refresh in flight for the key, or starts one. */
    method Run(key: string) returns (id: nat, starts: bool)
      requires Valid()
      modifies this
      ensures Valid()
      ensures starts <==> key !in old(inFlight)
      ensures inFlight == old(inFlight)[key := id] && keys == old(keys)[id := key]
      ensures if starts then id == old(lastIdentifier) + 1 && running == old(running) + {id}
              else id == old(inFlight)[key] && running == old(running)
      ensures awaiting == old(awaiting)[id := if starts then 1 else old(awaiting)[id] + 1]
    {
      starts := key !in inFlight;
      if starts {
        lastIdentifier := lastIdentifier + 1;
        inFlight := inFlight[key := lastIdentifier];
        keys := keys[lastIdentifier := key];
        running := running + {lastIdentifier};
        awaiting := awaiting[lastIdentifier := 1];
      } else {
        awaiting := awaiting[inFlight[key] := awaiting[inFlight[key]] + 1];
      }
      id := inFlight[key];
    }

    /** The task of a refresh completes by itself. */
    ghost method Complete(id: nat)
      requires Valid() && id in running
      modifies this`running
      ensures Valid() && running == old(running) - {id}
    {
      running := running - {id};
    }

    /** A caller that has the value clears the refresh, unless another has taken its place. */
    method Clear(id: nat, key: string)
      requires Valid() && IsAwaited(id) && id !in running && id in keys && keys[id] == key
      modifies this
      ensures Valid() && running == old(running) && keys == old(keys)
      ensures inFlight == if key in old(inFlight) && old(inFlight)[key] == id then old(inFlight) - {key}
                          else old(inFlight)
      ensures awaiting == old(awaiting)[id := old(awaiting)[id] - 1]
    {
      awaiting := awaiting[id := awaiting[id] - 1];
      if key in inFlight && inFlight[key] == id {
        inFlight := inFlight - {key};
      }
    }

    lemma OneRefreshForEachKey(a: nat, b: nat)
      requires Valid() && a in running && b in running && keys[a] == keys[b]
      ensures a == b
    {
    }
  }
}
