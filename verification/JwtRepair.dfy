/** Whether storing the best that is available leaves anything to repair. */
module JwtRepair {
  import opened Wrappers
  import opened JwtState
  import opened JwtTombstones
  import opened JwtSystem
  import opened JwtProvider

  /** The cached record has not been stored, and storing the best one will not mark it as stored: nothing is stored at
      all, or neither that record nor one issued later. */
  predicate IsStuck(s: State, now: int) {
    && s.cached.Some? && s.cached.value.revision.None?
    && (IsStoredAlready(s, now)
        || var best := BestPersistable(s, now);
           best.None? || (best.value.token != s.cached.value.record.token
                          && best.value.issuedAt <= s.cached.value.record.issuedAt))
  }

  /** A state at rest at `now`: nothing more to trim or to drop. */
  predicate IsClean(s: State, now: int) {
    Trimmed(s.tombstones, now, None) == s.tombstones && Kept(s.cached, s.tombstones, now) == s.cached
  }

  lemma {:induction false} TrimmedIsSmaller(tombstones: Tombstones, now: int, preserved: Option<Token>)
    ensures var trimmed := Trimmed(tombstones, now, preserved);
      forall token :: token in trimmed ==> token in tombstones && trimmed[token] == tombstones[token]
  {
  }

  lemma {:induction false} LoadedIsClean(s: State, envelope: Option<Envelope>, now: int)
    ensures IsClean(Snapshotted(MergedWith(s, envelope, now), now), now)
  {
    hide Trimmed, Joined, Live, ShouldInstall;
    var merged := MergedWith(s, envelope, now);
    TrimmingTwice(merged.tombstones, now, None);
    TrimmedIsSmaller(merged.tombstones, now, None);
  }

  lemma {:induction false} BestIsPersistable(s: State, now: int)
    ensures BestPersistable(s, now).Some? ==> IsPersistable(BestPersistable(s, now).value, s.tombstones, now)
  {
  }

  lemma {:induction false} JoinedWithItself(s: State, now: int)
    requires Trimmed(s.tombstones, now, None) == s.tombstones
    ensures Joined(s.tombstones, Live(s.tombstones, now)) == s.tombstones
  {
    assert Live(s.tombstones, now) == s.tombstones;
  }

  /** What a state becomes when it reads the envelope it has just stored. */
  lemma {:induction false} SettlingKeepsClean(s: State, now: int)
    requires IsClean(s, now) && s.Revision() < UINT64_MAX
    ensures var best := BestPersistable(s, now);
      var envelope := Envelope(s.Revision() + 1, best, s.tombstones);
      var after := MergedWith(s, Some(envelope), now);
      && after.last == Some(envelope) && after.tombstones == s.tombstones
      && after.cached == (if best.Some? && ShouldInstall(s.cached, best.value, envelope.revision)
                          then Some(Cached(best.value, Some(envelope.revision))) else s.cached)
  {
    hide Trimmed, Live, Joined, ShouldInstall, BestPersistable;
    BestIsPersistable(s, now);
    JoinedWithItself(s, now);
  }

  /** Storing the best available state leaves something to repair if and only if the loaded state is stuck. */
  lemma {:induction false} RepairEndsExactly(s: State, store: Option<Envelope>, now: int)
    requires IsBehind(s.last, store) && (store.Some? ==> store.value.revision < UINT64_MAX)
    ensures var loaded := Snapshotted(MergedWith(s, store, now), now);
      NeedsRepair(BestStored(s, store, true, now).0) <==> IsStuck(loaded, now)
  {
    hide Trimmed, MergedWith, BestPersistable, Kept;
    var loaded := Snapshotted(MergedWith(s, store, now), now);
    MergingKeepsBehind(s, store, now);
    LoadedIsClean(s, store, now);
    BestIsPersistable(loaded, now);
    SettlingKeepsClean(loaded, now);
  }

  /** A state that has nothing new to store, and has stored what there is, is left alone by a repair, and so is the
      store; so a stuck one stays stuck. */
  lemma {:induction false} StoredAlreadyStays(s: State, now: int)
    requires IsClean(s, now) && IsStoredAlready(s, now)
    ensures BestStored(s, s.last, true, now) == (s, s.last)
  {
    hide Trimmed, BestPersistable;
  }

  // ----- two tokens of one second

  predicate AreRivals(cached: Record, stored: Record, now: int) {
    && cached.IsUsable(now) && stored.IsUsable(now)
    && cached.issuedAt == stored.issuedAt && IsBetter(stored, cached)
  }

  /** The one cached but never stored, the better one stored and read. */
  function Deadlocked(cached: Record, stored: Record, revision: nat): State {
    State(Some(Cached(cached, None)), map[], Some(Envelope(revision, Some(stored), map[])))
  }

  /** The cached one gives way to the stored one in the store, which gives way to it in the cache: a repair changes
      neither, and there is still something to repair. */
  lemma {:induction false} DeadlockStays(cached: Record, stored: Record, revision: nat, now: int)
    requires AreRivals(cached, stored, now)
    ensures var s := Deadlocked(cached, stored, revision);
      BestStored(s, s.last, true, now) == (s, s.last) && NeedsRepair(s)
  {
    EmptyIsTrimmed(now, None);
    StoredAlreadyStays(Deadlocked(cached, stored, revision), now);
  }

  /** A process that fetched the one, and has yet to read that the other is stored, gets there with its first repair. */
  lemma {:induction false} DeadlockArises(cached: Record, stored: Record, revision: nat, now: int)
    requires AreRivals(cached, stored, now)
    ensures var s := Deadlocked(cached, stored, revision);
      BestStored(s.(last := None), s.last, true, now) == (s, s.last)
  {
    var s := Deadlocked(cached, stored, revision);
    hide BestPersistable;
    EmptyIsTrimmed(now, None);
    assert Joined(map[], Live(map[], now)) == map[];
    EmptyIsTrimmed(now, Some(stored.token));
    assert Snapshotted(MergedWith(s.(last := None), s.last, now), now) == s;
    BestOfRivals(cached, stored, revision, now);
  }

  lemma {:induction false} BestOfRivals(cached: Record, stored: Record, revision: nat, now: int)
    requires AreRivals(cached, stored, now)
    ensures BestPersistable(Deadlocked(cached, stored, revision), now) == Some(stored)
  {
  }

  /** Repairing again and again. */
  function Repaired(s: State, store: Option<Envelope>, times: seq<int>): (State, Option<Envelope>)
    decreases |times|
  {
    if times == [] then (s, store)
    else
      var (before, stored) := Repaired(s, store, times[..|times| - 1]);
      BestStored(before, stored, true, times[|times| - 1])
  }

  /** Two tokens issued in the same second, one cached and the better one stored: however often the process repairs, as
      long as both are good, there is something to repair. */
  lemma {:induction false} TokensOfOneSecondNeverSettle(cached: Record, stored: Record, revision: nat, times: seq<int>)
    requires forall i :: 0 <= i < |times| ==> AreRivals(cached, stored, times[i])
    ensures var s := Deadlocked(cached, stored, revision);
      && Repaired(s, s.last, times) == (s, s.last)
      && NeedsRepair(s) && NeedsRepair(s.(last := None))
      && (times != [] ==> Repaired(s.(last := None), s.last, times) == (s, s.last))
    decreases |times|
  {
    hide BestStored;
    if times != [] {
      var earlier, now := times[..|times| - 1], times[|times| - 1];
      TokensOfOneSecondNeverSettle(cached, stored, revision, earlier);
      DeadlockStays(cached, stored, revision, now);
      DeadlockArises(cached, stored, revision, now);
    }
  }

  lemma {:induction false} EmptyIsTrimmed(now: int, preserved: Option<Token>)
    ensures Trimmed(map[], now, preserved) == map[]
  {
  }
}
