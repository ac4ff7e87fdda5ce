/** The loop that repairs what could not be stored: it runs until a run that saw the latest change is clean. */
module RepairCoordinator {
  import opened Wrappers
  import opened JwtState

  function Doubled(initial: nat, times: nat): nat {
    if times == 0 then initial else 2 * Doubled(initial, times - 1)
  }

  lemma {:induction false} DoubledGrows(initial: nat, a: nat, b: nat)
    requires a <= b
    ensures Doubled(initial, a) <= Doubled(initial, b)
  {
    if a < b {
      DoubledGrows(initial, a, b - 1);
    }
  }

  /** The cooldown after some failed windows: doubled with each of them after the first, up to the maximum. */
  function Cooldown(initial: nat, maximum: nat, failures: nat): nat {
    var unbounded := Doubled(initial, if failures > 0 then failures - 1 else 0);
    if unbounded < maximum then unbounded else maximum
  }

  /** It is computed in 64-bit arithmetic. */
  method CooldownNanoseconds(initial: nat, maximum: nat, failures: nat) returns (cooldown: nat)
    requires 1 <= initial <= UINT64_MAX && 1 <= maximum <= UINT64_MAX
    ensures cooldown == Cooldown(initial, maximum, failures)
  {
    cooldown := initial;
    var remaining := if failures > 0 then failures - 1 else 0;
    ghost var all, done := remaining, 0;
    while remaining > 0 && cooldown < maximum
      invariant done + remaining == all && remaining >= 0
      invariant cooldown == Doubled(initial, done) || (cooldown == maximum && Doubled(initial, done) >= maximum)
    {
      var doubled := 2 * cooldown;
      if doubled > UINT64_MAX {
        cooldown := maximum;
      } else {
        cooldown := if doubled < maximum then doubled else maximum;
      }
      remaining, done := remaining - 1, done + 1;
    }
    DoubledGrows(initial, done, all);
    if cooldown > maximum {
      cooldown := maximum;
    }
  }

  class Coordinator {
    var generation: nat
    var lastIdentifier: nat
    var hasOperation: bool
    var active: Option<nat>
    var failedWindows: nat
    const initialCooldown: nat
    const maximumCooldown: nat

    /** The runs and cooldowns under way, a run with the generation it has observed; the last generation a clean run
        observed; and whether the last cooldown was cancelled. */
    ghost var runs: map<nat, nat>
    ghost var cooldowns: set<nat>
    ghost var cleanGeneration: nat
    ghost var isGivenUp: bool

    /** While something is active it will report back. When nothing is, a clean run has observed the latest change,
        unless a cooldown was cancelled. */
    ghost predicate Valid()
      reads this
    {
      && (forall id :: id in runs ==> id <= lastIdentifier && runs[id] <= generation)
      && (forall id :: id in cooldowns ==> id <= lastIdentifier && id !in runs)
      && (active.Some? ==> active.value in runs || active.value in cooldowns)
      && (active.None? ==> isGivenUp || cleanGeneration == generation)
      && cleanGeneration <= generation
      && (hasOperation <==> generation > 0)
      && (active.Some? ==> hasOperation)
      && failedWindows <= 5
      && 1 <= initialCooldown <= UINT64_MAX && 1 <= maximumCooldown <= UINT64_MAX
    }

    constructor (initialCooldown: nat, maximumCooldown: nat)
      requires initialCooldown <= UINT64_MAX && maximumCooldown <= UINT64_MAX
      ensures Valid() && active.None? && generation == 0 && failedWindows == 0
      ensures this.initialCooldown == if initialCooldown >= 1 then initialCooldown else 1
      ensures this.maximumCooldown == if maximumCooldown >= 1 then maximumCooldown else 1
    {
      this.initialCooldown := if initialCooldown >= 1 then initialCooldown else 1;
      this.maximumCooldown := if maximumCooldown >= 1 then maximumCooldown else 1;
      generation, lastIdentifier, hasOperation, active, failedWindows := 0, 0, false, None, 0;
      runs, cooldowns, cleanGeneration, isGivenUp := map[], {}, 0, false;
    }

    /** A change to be repaired; it starts a run unless one, or a cooldown, is active. */
    method MarkDirty()
      requires Valid()
      modifies this
      ensures Valid() && generation == old(generation) + 1 && active.Some?
      ensures old(active).Some? ==> active == old(active) && runs == old(runs)
      ensures old(active).None? ==>
        active == Some(old(lastIdentifier) + 1) && runs == old(runs)[active.value := generation]
      ensures cooldowns == old(cooldowns) && failedWindows == old(failedWindows)
    {
      generation := generation + 1;
      hasOperation := true;
      if active.None? {
        StartRepair();
      }
    }

    method StartRepair()
      requires hasOperation
      requires forall id :: id in runs || id in cooldowns ==> id <= lastIdentifier
      modifies this`lastIdentifier, this`active, this`runs, this`isGivenUp
      ensures lastIdentifier == old(lastIdentifier) + 1 && active == Some(lastIdentifier)
      ensures runs == old(runs)[lastIdentifier := generation] && !isGivenUp
    {
      lastIdentifier := lastIdentifier + 1;
      active := Some(lastIdentifier);
      runs := runs[lastIdentifier := generation];
      isGivenUp := false;
    }

    /** A run reports: if a change came after it began, or it was not clean, another will follow; after one that was not
        clean, once a cooldown is over that grows with every such run since the last clean one. */
    method RepairCompleted(id: nat, observed: nat, isClean: bool) returns (cooldown: Option<nat>)
      requires Valid() && id in runs && runs[id] == observed
      modifies this
      ensures Valid() && generation == old(generation)
      ensures old(active) != Some(id) ==>
        && cooldown.None? && active == old(active) && failedWindows == old(failedWindows)
        && runs == old(runs) - {id} && cooldowns == old(cooldowns)
      ensures old(active) == Some(id) && isClean ==>
        && cooldown.None? && failedWindows == 0
        && if observed == generation then active.None? && cleanGeneration == generation
           else active.Some? && active.value in runs && runs[active.value] == generation
      ensures old(active) == Some(id) && !isClean ==>
        && active.Some? && active.value in cooldowns
        && failedWindows == (if old(failedWindows) < 5 then old(failedWindows) + 1 else 5)
        && cooldown == Some(Cooldown(initialCooldown, maximumCooldown, failedWindows))
    {
      cooldown := None;
      runs := runs - {id};
      if active != Some(id) {
        return;
      }
      if isClean {
        active := None;
        failedWindows := 0;
        cleanGeneration := observed;
        if generation != observed {
          StartRepair();
        }
        return;
      }
      failedWindows := if failedWindows + 1 < 5 then failedWindows + 1 else 5;
      var nanoseconds := CooldownNanoseconds(initialCooldown, maximumCooldown, failedWindows);
      cooldown := Some(nanoseconds);
      lastIdentifier := lastIdentifier + 1;
      active := Some(lastIdentifier);
      cooldowns := cooldowns + {lastIdentifier};
    }

    method CooldownCompleted(id: nat)
      requires Valid() && id in cooldowns
      modifies this
      ensures Valid() && generation == old(generation) && cooldowns == old(cooldowns) - {id}
      ensures old(active) == Some(id) ==> active.Some? && active.value in runs && runs[active.value] == generation
      ensures old(active) != Some(id) ==> active == old(active) && runs == old(runs)
      ensures failedWindows == old(failedWindows)
    {
      cooldowns := cooldowns - {id};
      if active != Some(id) {
        return;
      }
      active := None;
      if hasOperation {
        StartRepair();
      }
    }

    method CooldownCancelled(id: nat)
      requires Valid() && id in cooldowns
      modifies this
      ensures Valid() && generation == old(generation) && cooldowns == old(cooldowns) - {id} && runs == old(runs)
      ensures active == if old(active) == Some(id) then None else old(active)
      ensures isGivenUp <==> old(isGivenUp) || old(active) == Some(id)
      ensures failedWindows == old(failedWindows)
    {
      cooldowns := cooldowns - {id};
      if active != Some(id) {
        return;
      }
      active := None;
      isGivenUp := true;
    }
  }
}
