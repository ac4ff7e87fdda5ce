/** That storing works: whoever gets the lock has a fetched record or a rejection stored, and others come to use it. */
module JwtProgress {
  import opened Wrappers
  import opened JwtState
  import opened JwtTombstones
  import opened JwtSystem
  import opened JwtUse
  import opened JwtProvider

  /** A process works through the lock without a failure. */
  function Storing(i: nat, at: int, purpose: Purpose): seq<Move> {
    [Acquires(i), Loads(i, at), Prepares(i, purpose), Saves(i, true), Settles(i), Releases(i)]
  }

  function StoringRejection(i: nat, at: int, token: Token, known: Option<Record>): seq<Move> {
    [Acquires(i), Loads(i, at), Rejects(i, token, known, at), Prepares(i, ToStoreBest), Saves(i, true), Settles(i),
     Releases(i)]
  }

  lemma {:induction false} NextRun(system: System, moves: seq<Move>, k: nat)
    requires k < |moves|
    ensures Runs(system, moves[..k + 1]) == Next(Runs(system, moves[..k]), moves[k])
    ensures Runs(system, moves[..0]) == system
  {
    hide Next;
    assert moves[..k + 1][..k] == moves[..k];
  }

  predicate IsFree(system: System, i: nat) {
    system.holder.None? && i in system.processes && system.processes[i].stage.Idle?
  }

  /** The lock has been acquired and the store read. */
  predicate HasLoaded(before: System, after: System, i: nat, at: int) {
    && after.holder == Some(i) && after.store == before.store && i in before.processes && i in after.processes
    && after.processes[i].stage == Loaded(at)
    && after.processes[i].state == MergedWith(before.processes[i].state, before.store, at)
  }

  lemma {:induction false} LoadingWorks(system: System, i: nat, at: int)
    requires IsFree(system, i)
    ensures HasLoaded(system, Next(Next(system, Acquires(i)), Loads(i, at)), i, at)
  {
    hide MergedWith;
  }

  /** The envelope has been stored, and the process that stored it has read it and given the lock back. */
  predicate HasStored(after: System, i: nat, envelope: Envelope) {
    && after.store == Some(envelope) && after.holder.None? && i in after.processes
    && after.processes[i].stage.Idle? && after.processes[i].state.last == Some(envelope)
  }

  function Saving(system: System, i: nat, purpose: Purpose): System {
    Next(Next(Next(Next(system, Prepares(i, purpose)), Saves(i, true)), Settles(i)), Releases(i))
  }

  /** The process holds the lock and has read the store. */
  predicate IsUpToDate(system: System, i: nat) {
    && system.holder == Some(i) && i in system.processes && system.processes[i].stage.Loaded?
    && system.processes[i].state.last == system.store
  }

  lemma {:induction false} SavingWorks(system: System, i: nat, purpose: Purpose)
    requires IsUpToDate(system, i)
    requires var p := Prepared(system.processes[i], purpose);
      p.stage.Ready? && p.state.last == system.store && Succeeds(system.store, p.stage.envelope, p.stage.at)
    ensures HasStored(Saving(system, i, purpose), i, Prepared(system.processes[i], purpose).stage.envelope)
  {
    hide MergedWith, Prepared, Succeeds, Snapshotted, FetchedEnvelope, BestEnvelope;
    var p := Prepared(system.processes[i], purpose);
    SucceedingIsAhead(system.store, p.stage.envelope, p.stage.at);
    MergingKeepsBehind(p.state, Some(p.stage.envelope), p.stage.at);
    PreparingWorks(system, i, purpose);
    SettlingWorks(Next(system, Prepares(i, purpose)), i);
  }

  lemma {:induction false} SucceedingIsAhead(store: Option<Envelope>, envelope: Envelope, at: int)
    requires Succeeds(store, envelope, at)
    ensures IsBehind(store, Some(envelope))
  {
  }

  lemma {:induction false} PreparingWorks(system: System, i: nat, purpose: Purpose)
    requires IsUpToDate(system, i)
    ensures var after := Next(system, Prepares(i, purpose));
      after.holder == Some(i) && i in after.processes && after.processes[i] == Prepared(system.processes[i], purpose)
  {
    hide Prepared;
  }

  lemma {:induction false} SettlingWorks(system: System, i: nat)
    requires system.holder == Some(i) && i in system.processes && system.processes[i].stage.Ready?
    requires var p := system.processes[i];
      MergedWith(p.state, Some(p.stage.envelope), p.stage.at).last == Some(p.stage.envelope)
    ensures HasStored(Next(Next(Next(system, Saves(i, true)), Settles(i)), Releases(i)), i,
                      system.processes[i].stage.envelope)
  {
    hide MergedWith;
  }

  /** What gets stored, once the store has been read. */
  lemma {:induction false} FetchGetsStored(system: System, i: nat, record: Record)
    requires IsUpToDate(system, i)
    ensures var read := Snapshotted(system.processes[i].state, system.processes[i].stage.at);
      var after := Saving(system, i, ToStoreFetched(record));
      record.token !in read.tombstones && read.Revision() < UINT64_MAX ==>
        && after.store.Some? && HasStored(after, i, after.store.value)
        && after.store.value.revision == read.Revision() + 1 && after.store.value.tombstones == read.tombstones
        && IsLaterOf(after.store.value.record,
                     GoodRecord(system.store, read.tombstones, system.processes[i].stage.at), record)
  {
    hide Saving, Snapshotted, IsPersistable, Succeeds, IsLaterOf, Prepared;
    var p := system.processes[i];
    SnapshotKeepsLast(p.state, p.stage.at);
    EnvelopeSucceeds(p, ToStoreFetched(record));
    EnvelopeIsNext(p, ToStoreFetched(record));
    if Prepared(p, ToStoreFetched(record)).stage.Ready? {
      SavingWorks(system, i, ToStoreFetched(record));
    }
  }

  lemma {:induction false} EnvelopeIsNext(p: Process, purpose: Purpose)
    requires p.stage.Loaded?
    ensures var after := Prepared(p, purpose);
      && after.state == Snapshotted(p.state, p.stage.at)
      && (after.stage.Ready? ==> after.stage.envelope.revision == p.state.Revision() + 1)
  {
    hide Trimmed;
  }

  lemma {:induction false} SnapshotKeepsLast(s: State, at: int)
    ensures Snapshotted(s, at).last == s.last && Snapshotted(s, at).Revision() == s.Revision()
  {
  }

  lemma {:induction false} StoringRuns(system: System, i: nat, at: int, purpose: Purpose)
    ensures Runs(system, Storing(i, at, purpose))
         == Saving(Next(Next(system, Acquires(i)), Loads(i, at)), i, purpose)
  {
    hide Next, Runs;
    var moves := Storing(i, at, purpose);
    NextRun(system, moves, 0);
    NextRun(system, moves, 1);
    NextRun(system, moves, 2);
    NextRun(system, moves, 3);
    NextRun(system, moves, 4);
    NextRun(system, moves, 5);
    assert moves[..6] == moves;
  }

  /** A fetched record that has not been rejected: the later of it and the stored one, if that is good, ends up in the
      store under the next revision, with all the rejections the process knows. */
  lemma {:induction false} FetchIsStored(system: System, i: nat, record: Record, at: int)
    requires RevisionInv(system) && IsFree(system, i)
    ensures var read := Snapshotted(MergedWith(system.processes[i].state, system.store, at), at);
      var after := Runs(system, Storing(i, at, ToStoreFetched(record)));
      record.token !in read.tombstones && read.Revision() < UINT64_MAX ==>
        && after.store.Some? && HasStored(after, i, after.store.value)
        && after.store.value.revision == read.Revision() + 1 && after.store.value.tombstones == read.tombstones
        && IsLaterOf(after.store.value.record, GoodRecord(system.store, read.tombstones, at), record)
  {
    assert ProcessHolds(system, i);
    hide Next, Runs, Storing, MergedWith, Snapshotted, Saving, HasStored, IsLaterOf, GoodRecord;
    StoringRuns(system, i, at, ToStoreFetched(record));
    LoadingWorks(system, i, at);
    MergingKeepsBehind(system.processes[i].state, system.store, at);
    FetchGetsStored(Next(Next(system, Acquires(i)), Loads(i, at)), i, record);
  }

  // ----- rejections

  /** The rejection is among the tombstones, and stays there when they are trimmed again at the same time. */
  lemma {:induction false} RejectedIsKnown(s: State, token: Token, known: Option<Record>, at: int)
    ensures token in Snapshotted(Rejected(s, token, known, at), at).tombstones
  {
    hide Rank;
    var record := KnownRecord(s, token, known);
    var tombstone := Tombstone(at, RejectionExpiry(record, at));
    var previous := if token in s.tombstones then s.tombstones[token].rejectedAt else at;
    var marked :=
      if record.Some? then s.tombstones[token := tombstone.(rejectedAt := Max(previous, at))]
      else Merged(s.tombstones, token, tombstone);
    PreservedStays(marked, at, token);
    TrimmingTwice(marked, at, Some(token));
  }

  lemma {:induction false} RejectingWorks(system: System, i: nat, token: Token, known: Option<Record>, at: int)
    requires IsUpToDate(system, i)
    ensures var after := Next(system, Rejects(i, token, known, at)); var p := system.processes[i];
      && IsUpToDate(after, i) && after.store == system.store
      && after.processes[i].stage == p.stage && after.processes[i].state == Rejected(p.state, token, known, at)
  {
    RejectingKeepsLast(system.processes[i].state, token, known, at);
    hide Rejected;
  }

  lemma {:induction false} RejectionGetsStored(system: System, i: nat, token: Token, known: Option<Record>, at: int)
    requires IsUpToDate(system, i) && system.processes[i].stage.at == at
    ensures var after := Saving(Next(system, Rejects(i, token, known, at)), i, ToStoreBest);
      (system.store.Some? ==> system.store.value.revision < UINT64_MAX) ==>
        && after.store.Some? && HasStored(after, i, after.store.value) && token in after.store.value.tombstones
        && (after.store.value.record.Some? ==> after.store.value.record.value.token != token)
  {
    hide Saving, Next, Snapshotted, Succeeds, Prepared, Rejected, Serves;
    var rejected := Next(system, Rejects(i, token, known, at));
    RejectingWorks(system, i, token, known, at);
    RejectedIsKnown(system.processes[i].state, token, known, at);
    EnvelopeSucceeds(rejected.processes[i], ToStoreBest);
    EnvelopeIsNext(rejected.processes[i], ToStoreBest);
    if Prepared(rejected.processes[i], ToStoreBest).stage.Ready? {
      SavingWorks(rejected, i, ToStoreBest);
      SavedIsNotRejected(rejected.processes[i].state.last,
                         Prepared(rejected.processes[i], ToStoreBest).stage.envelope, at, token);
    }
  }

  lemma {:induction false} SavedIsNotRejected(store: Option<Envelope>, envelope: Envelope, at: int, token: Token)
    requires Succeeds(store, envelope, at) && token in envelope.tombstones
    ensures envelope.record.Some? ==> envelope.record.value.token != token
  {
  }

  lemma {:induction false} StoringRejectionRuns(system: System, i: nat, at: int, token: Token, known: Option<Record>)
    ensures Runs(system, StoringRejection(i, at, token, known))
         == Saving(Next(Next(Next(system, Acquires(i)), Loads(i, at)), Rejects(i, token, known, at)), i, ToStoreBest)
  {
    hide Next, Runs;
    var moves := StoringRejection(i, at, token, known);
    NextRun(system, moves, 0);
    NextRun(system, moves, 1);
    NextRun(system, moves, 2);
    NextRun(system, moves, 3);
    NextRun(system, moves, 4);
    NextRun(system, moves, 5);
    NextRun(system, moves, 6);
    assert moves[..7] == moves;
  }

  /** A rejection that is taken in under the lock ends up in the store, and its token leaves it. */
  lemma {:induction false} RejectionIsStored(system: System, i: nat, token: Token, known: Option<Record>, at: int)
    requires RevisionInv(system) && IsFree(system, i)
    ensures var after := Runs(system, StoringRejection(i, at, token, known));
      (system.store.Some? ==> system.store.value.revision < UINT64_MAX) ==>
        && after.store.Some? && HasStored(after, i, after.store.value) && token in after.store.value.tombstones
        && (after.store.value.record.Some? ==> after.store.value.record.value.token != token)
  {
    assert ProcessHolds(system, i);
    hide Next, Runs, StoringRejection, MergedWith, Saving, HasStored;
    StoringRejectionRuns(system, i, at, token, known);
    LoadingWorks(system, i, at);
    MergingKeepsBehind(system.processes[i].state, system.store, at);
    RejectionGetsStored(Next(Next(system, Acquires(i)), Loads(i, at)), i, token, known, at);
  }

  // ----- others

  /** Any other process without a good record of its own comes to use the stored one by reading it. */
  lemma {:induction false} StoredIsUsed(system: System, j: nat, at: int)
    requires RevisionInv(system) && j in system.processes && system.store.Some?
    requires system.processes[j].state.last != system.store && system.processes[j].state.cached.None?
    requires system.store.value.record.Some?
    ensures var after := Next(system, Reads(j, system.store, at));
      && j in after.processes
      && var s := after.processes[j].state;
      && s.last == system.store
      && (IsPersistable(system.store.value.record.value, s.tombstones, at) ==>
            s.cached == Some(Cached(system.store.value.record.value, Some(system.store.value.revision))))
  {
    assert ProcessHolds(system, j);
    hide MergedWith, IsPersistable;
    MergingKeepsBehind(system.processes[j].state, system.store, at);
    ReadingServes(system.processes[j].state, system.store.value, at);
  }

  /** A process that crashes and starts again gives the lock up, and begins afresh. */
  lemma {:induction false} CrashFreesTheLock(system: System, i: nat)
    ensures var after := Next(system, Starts(i));
      && i in after.processes && after.processes[i].state == Fresh() && after.processes[i].stage.Idle?
      && after.holder == (if system.holder == Some(i) then None else system.holder) && after.store == system.store
  {
  }

  /** What could not be saved leaves the store as it was, and the lock can be given back. */
  lemma {:induction false} FailedSaveIsGivenUp(system: System, i: nat)
    requires system.holder == Some(i) && i in system.processes && system.processes[i].stage.Ready?
    ensures var after := Next(Next(system, Saves(i, false)), Releases(i));
      && after.store == system.store && after.holder.None? && i in after.processes
      && after.processes[i].stage.Idle? && after.processes[i].state == system.processes[i].state
  {
  }

  // ----- the provider's own methods are such runs

  /** The process has worked as the provider's functions say, and given the lock back. */
  predicate HasWorked(after: System, i: nat, result: (State, Option<Envelope>)) {
    && after.holder.None? && i in after.processes && after.processes[i].stage.Idle?
    && after.processes[i].state == result.0 && after.store == result.1
  }

  lemma {:induction false} SavingIsSaving(system: System, i: nat, purpose: Purpose)
    requires IsUpToDate(system, i)
    ensures var p := system.processes[i];
      HasWorked(Saving(system, i, purpose), i, SavedFrom(p.state, system.store, purpose, true, p.stage.at))
  {
    hide MergedWith, Snapshotted, FetchedEnvelope, BestEnvelope;
    PreparingWorks(system, i, purpose);
    hide Prepared;
    var p := system.processes[i];
    PreparedIgnoresTheRest(p, purpose);
    var prepared := Next(system, Prepares(i, purpose));
    if Prepared(p, purpose).stage.Ready? {
      ReadyIsSaved(prepared, i);
    } else {
      NotReadyIsGivenUp(prepared, i);
    }
    StoreStaysUntilSaved(system, i, purpose);
  }

  lemma {:induction false} PreparedIgnoresTheRest(p: Process, purpose: Purpose)
    requires p.stage.Loaded?
    ensures var alone := Prepared(Process(p.state, Loaded(p.stage.at), {}), purpose);
      alone.state == Prepared(p, purpose).state && alone.stage == Prepared(p, purpose).stage
    ensures Prepared(p, purpose).stage.Ready? ==> Prepared(p, purpose).stage.at == p.stage.at
    ensures Prepared(p, purpose).stage.Ready? || Prepared(p, purpose).stage.Loaded?
  {
    hide Snapshotted, FetchedEnvelope, BestEnvelope;
  }

  lemma {:induction false} StoreStaysUntilSaved(system: System, i: nat, purpose: Purpose)
    requires IsUpToDate(system, i)
    ensures Next(system, Prepares(i, purpose)).store == system.store
  {
    hide Prepared;
  }

  lemma {:induction false} ReadyIsSaved(system: System, i: nat)
    requires system.holder == Some(i) && i in system.processes && system.processes[i].stage.Ready?
    ensures var p := system.processes[i];
      HasWorked(Next(Next(Next(system, Saves(i, true)), Settles(i)), Releases(i)), i,
                (MergedWith(p.state, Some(p.stage.envelope), p.stage.at), Some(p.stage.envelope)))
  {
    hide MergedWith;
  }

  lemma {:induction false} NotReadyIsGivenUp(system: System, i: nat)
    requires system.holder == Some(i) && i in system.processes && system.processes[i].stage.Loaded?
    ensures HasWorked(Next(Next(Next(system, Saves(i, true)), Settles(i)), Releases(i)), i,
                      (system.processes[i].state, system.store))
  {
  }

  /** Persisting a record, or the best there is, does to process and store what a run through the lock does. */
  lemma {:induction false} PersistingIsARun(system: System, i: nat, purpose: Purpose, at: int)
    requires RevisionInv(system) && IsFree(system, i)
    ensures var (state, contents) := Persisted(system.processes[i].state, Holds(system.store), purpose, true, at);
      HasWorked(Runs(system, Storing(i, at, purpose)), i, (state, contents.Readable()))
  {
    assert ProcessHolds(system, i);
    hide Next, Runs, Storing, MergedWith, Saving, HasWorked, SavedFrom;
    StoringRuns(system, i, at, purpose);
    LoadingWorks(system, i, at);
    MergingKeepsBehind(system.processes[i].state, system.store, at);
    SavingIsSaving(Next(Next(system, Acquires(i)), Loads(i, at)), i, purpose);
  }

  lemma {:induction false} TrimmingWorks(system: System, i: nat, at: int)
    requires IsUpToDate(system, i)
    ensures var after := Next(system, Trims(i, at));
      && IsUpToDate(after, i) && after.store == system.store
      && after.processes[i].stage == system.processes[i].stage
      && after.processes[i].state == Snapshotted(system.processes[i].state, at)
  {
    SnapshotKeepsLast(system.processes[i].state, at);
    hide Snapshotted;
  }

  /** And so does persisting a rejection. */
  lemma {:induction false} PersistingARejectionIsARun(system: System, i: nat, token: Token, known: Option<Record>,
                                                      at: int)
    requires RevisionInv(system) && IsFree(system, i)
    ensures var s := system.processes[i].state;
      var (state, contents) := RejectionPersisted(s, Holds(system.store), token, known, true, at);
      var read := Snapshotted(MergedWith(s, system.store, at), at);
      var loaded := Next(Next(Next(system, Acquires(i)), Loads(i, at)), Trims(i, at));
      HasWorked(Saving(Next(loaded, Rejects(i, token, known.Or(StoredFor(read, token)), at)), i, ToStoreBest), i,
                (state, contents.Readable()))
  {
    assert ProcessHolds(system, i);
    hide Next, MergedWith, Saving, HasWorked, SavedFrom, Rejected, Snapshotted, StoredFor;
    var s := system.processes[i].state;
    var read := Snapshotted(MergedWith(s, system.store, at), at);
    LoadingWorks(system, i, at);
    MergingKeepsBehind(s, system.store, at);
    var loaded := Next(Next(system, Acquires(i)), Loads(i, at));
    TrimmingWorks(loaded, i, at);
    var trimmed := Next(loaded, Trims(i, at));
    RejectingWorks(trimmed, i, token, known.Or(StoredFor(read, token)), at);
    SavingIsSaving(Next(trimmed, Rejects(i, token, known.Or(StoredFor(read, token)), at)), i, ToStoreBest);
  }

  /** Data that cannot be decoded is not read, and is replaced by what a save stores over it. */
  lemma {:induction false} UndecodableIsReplaced(s: State, record: Record, saves: bool, at: int)
    ensures var (after, contents) := Persisted(s, Undecodable, ToStoreFetched(record), saves, at);
      var read := Snapshotted(s, at);
      if saves && record.token !in read.tombstones && s.Revision() < UINT64_MAX
      then
        && contents.Holds? && contents.envelope.Some? && contents.envelope.value.revision == s.Revision() + 1
        && contents.envelope.value.tombstones == read.tombstones
        && IsLaterOf(contents.envelope.value.record, GoodRecord(s.last, read.tombstones, at), record)
      else contents == Undecodable && after == read
  {
    hide MergedWith, Trimmed, Record.IsUsable;
  }

  /** Persisting the best there is: nothing is stored if the store says it already, the trimmed state stays as it is,
      and otherwise it is a run through the lock. */
  lemma {:induction false} PersistingTheBestIsARun(system: System, i: nat, at: int)
    requires RevisionInv(system) && IsFree(system, i)
    ensures var s := system.processes[i].state; var read := Snapshotted(MergedWith(s, system.store, at), at);
      var (state, contents) := BestPersisted(s, Holds(system.store), true, at);
      if IsStoredAlready(read, at) then state == read && contents == Holds(system.store)
      else HasWorked(Runs(system, Storing(i, at, ToStoreBest)), i, (state, contents.Readable()))
  {
    hide Runs, Storing, MergedWith, HasWorked, SavedFrom, IsStoredAlready, Snapshotted;
    PersistingIsARun(system, i, ToStoreBest, at);
  }

  /** Data that cannot be decoded never says anything already: the best there is is stored over it. */
  lemma {:induction false} UndecodableIsReplacedByTheBest(s: State, saves: bool, at: int)
    ensures var (after, contents) := BestPersisted(s, Undecodable, saves, at); var read := Snapshotted(s, at);
      if saves && s.Revision() < UINT64_MAX
      then contents == Holds(Some(Envelope(s.Revision() + 1, BestPersistable(read, at), read.tombstones)))
      else contents == Undecodable && after == read
  {
    hide MergedWith, Trimmed, Record.IsUsable, BestPersistable;
  }
}
