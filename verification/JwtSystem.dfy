/** Any number of processes that share one store and one exclusive lock. */
module JwtSystem {
  import opened Wrappers
  import opened JwtState

  /** How far a process has come while it holds the lock: what it has loaded, is about to save, or has saved, with the
      time it took at the start. Its other tasks go on working on its state meanwhile. */
  datatype Stage =
    | Idle
    | Loaded(at: int)
    | Ready(at: int, envelope: Envelope, purpose: Purpose)
    | Saved(at: int, envelope: Envelope)

  /** A process; `rejected` are the tokens it has ever known to be rejected. */
  datatype Process = Process(state: State, stage: Stage, rejected: set<Token>)

  /** `past` is all that the store has ever held, and `shared` are the tokens whose rejection has ever been stored. */
  datatype System = System(
    clock: int, store: Option<Envelope>, past: set<Option<Envelope>>, holder: Option<nat>,
    processes: map<nat, Process>, shared: set<Token>)

  datatype Purpose = ToStoreFetched(record: Record) | ToStoreBest

  /** Reading without the lock merges what the store held at some time, as the merge may come long after the load. The
      cached record may be dropped, and the tombstones trimmed, at any time. */
  datatype Move =
    | Ticks(to: int)
    | Starts(process: nat)
    | Reads(process: nat, loaded: Option<Envelope>, at: int)
    | Drops(process: nat)
    | Trims(process: nat, at: int)
    | Rejects(process: nat, token: Token, known: Option<Record>, at: int)
    | Refreshes(process: nat, record: Record, at: int)
    | Acquires(process: nat)
    | Loads(process: nat, at: int)
    | Prepares(process: nat, purpose: Purpose)
    | Saves(process: nat, succeeds: bool)
    | Settles(process: nat)
    | Releases(process: nat)

  function Put(system: System, i: nat, p: Process): System {
    system.(processes := system.processes[i := p])
  }

  function Learned(p: Process, envelope: Option<Envelope>, state: State): Process {
    p.(state := state,
       rejected := if envelope.Some? && state.last == envelope then p.rejected + envelope.value.tombstones.Keys
                   else p.rejected)
  }

  function Merging(p: Process, envelope: Option<Envelope>, at: int): Process {
    Learned(p, envelope, MergedWith(p.state, envelope, at))
  }

  function Prepared(p: Process, purpose: Purpose): Process
    requires p.stage.Loaded?
  {
    var snapshot := Snapshotted(p.state, p.stage.at);
    var envelope :=
      match purpose
      case ToStoreFetched(record) => FetchedEnvelope(snapshot, record, p.stage.at)
      case ToStoreBest => BestEnvelope(snapshot, p.stage.at);
    p.(state := snapshot, stage := if envelope.Some? then Ready(p.stage.at, envelope.value, purpose) else p.stage)
  }

  function Next(system: System, move: Move): System {
    if move.Ticks? then (if move.to >= system.clock then system.(clock := move.to) else system)
    else if move.Starts? then
      Put(system, move.process, Process(Fresh(), Idle, {}))
      .(holder := if system.holder == Some(move.process) then None else system.holder)
    else if move.process !in system.processes then system
    else
      var i, p := move.process, system.processes[move.process];
      match move
      case Reads(_, loaded, at) => if loaded in system.past then Put(system, i, Merging(p, loaded, at)) else system
      case Drops(_) => Put(system, i, p.(state := p.state.(cached := None)))
      case Trims(_, at) => Put(system, i, p.(state := Snapshotted(p.state, at)))
      case Rejects(_, token, known, at) =>
        Put(system, i, p.(state := Rejected(p.state, token, known, at), rejected := p.rejected + {token}))
      case Refreshes(_, record, at) => Put(system, i, p.(state := Refreshed(p.state, record, at)))
      case Acquires(_) => if system.holder.None? then system.(holder := Some(i)) else system
      case Loads(_, at) =>
        if system.holder != Some(i) || p.stage != Idle then system
        else Put(system, i, Merging(p, system.store, at).(stage := Loaded(at)))
      case Prepares(_, purpose) => if p.stage.Loaded? then Put(system, i, Prepared(p, purpose)) else system
      case Saves(_, succeeds) =>
        if !p.stage.Ready? then system
        else if !succeeds then Put(system, i, p.(stage := Loaded(p.stage.at)))
        else Put(system, i, p.(stage := Saved(p.stage.at, p.stage.envelope)))
             .(store := Some(p.stage.envelope), past := system.past + {Some(p.stage.envelope)},
               shared := system.shared + p.stage.envelope.tombstones.Keys)
      case Settles(_) =>
        if !p.stage.Saved? then system
        else Put(system, i, Merging(p, Some(p.stage.envelope), p.stage.at).(stage := Idle))
      case Releases(_) =>
        if system.holder != Some(i) || p.stage.Ready? || p.stage.Saved? then system
        else Put(system, i, p.(stage := Idle)).(holder := None)
  }

  function Begin(clock: int, store: Option<Envelope>): System {
    System(clock, store, {store}, None, map[], if store.Some? then store.value.tombstones.Keys else {})
  }

  function Runs(system: System, moves: seq<Move>): System
    decreases |moves|
  {
    if moves == [] then system else Next(Runs(system, moves[..|moves| - 1]), moves[|moves| - 1])
  }

  // ----- revisions

  predicate IsBehind(last: Option<Envelope>, store: Option<Envelope>) {
    last.Some? ==>
      && store.Some? && last.value.revision <= store.value.revision
      && (last.value.revision == store.value.revision ==> last == store)
  }

  /** What an envelope owes to the store it replaces: a larger revision; a record it does not itself reject; and a
      record issued no earlier than the stored one, unless that has expired or been rejected. */
  predicate Succeeds(store: Option<Envelope>, envelope: Envelope, at: int) {
    && (store.Some? ==> envelope.revision > store.value.revision)
    && (envelope.record.Some? ==> envelope.record.value.token !in envelope.tombstones)
    && (store.Some? && store.value.record.Some?
        && IsPersistable(store.value.record.value, envelope.tombstones, at) ==>
          && envelope.record.Some?
          && envelope.record.value.issuedAt >= store.value.record.value.issuedAt)
  }

  /** The stored record, if an envelope with these tombstones may still carry it. */
  function GoodRecord(store: Option<Envelope>, tombstones: Tombstones, at: int): Option<Record> {
    if store.Some? && store.value.record.Some? && IsPersistable(store.value.record.value, tombstones, at)
    then store.value.record else None
  }

  /** One of the two, issued no earlier than either; the stored one if both were issued in the same second. */
  predicate IsLaterOf(chosen: Option<Record>, good: Option<Record>, fetched: Record) {
    && (chosen == Some(fetched) || (chosen == good && good.Some?))
    && chosen.value.issuedAt >= fetched.issuedAt
    && (good.Some? ==>
          && chosen.value.issuedAt >= good.value.issuedAt
          && (good.value.issuedAt == fetched.issuedAt ==> chosen == good))
  }

  /** What an envelope owes to its purpose: a fetch stores the later of the fetched and the stored record, a repair none
      that is worse than the stored one. */
  predicate Serves(store: Option<Envelope>, envelope: Envelope, purpose: Purpose, at: int) {
    var good := GoodRecord(store, envelope.tombstones, at);
    match purpose
    case ToStoreFetched(fetched) => IsLaterOf(envelope.record, good, fetched)
    case ToStoreBest =>
      && (envelope.record.Some? ==> IsPersistable(envelope.record.value, envelope.tombstones, at))
      && (good.Some? ==> envelope.record.Some? && !IsBetter(good.value, envelope.record.value))
  }

  predicate ProcessHolds(system: System, i: nat)
    requires i in system.processes
  {
    var p := system.processes[i];
    && IsBehind(p.state.last, system.store)
    && (!p.stage.Idle? ==> system.holder == Some(i))
    && (p.stage.Loaded? || p.stage.Ready? ==> p.state.last == system.store)
    && (p.stage.Ready? ==>
          && Succeeds(system.store, p.stage.envelope, p.stage.at)
          && Serves(system.store, p.stage.envelope, p.stage.purpose, p.stage.at))
    && (p.stage.Saved? ==> system.store == Some(p.stage.envelope))
  }

  predicate RevisionInv(system: System) {
    && system.store in system.past
    && (forall loaded :: loaded in system.past ==> IsBehind(loaded, system.store))
    && (forall i :: i in system.processes ==> ProcessHolds(system, i))
  }

  /** Merging what the store holds brings a process up to it; merging what it once held sets nobody back. */
  lemma {:induction false} MergingKeepsBehind(s: State, store: Option<Envelope>, at: int)
    requires IsBehind(s.last, store)
    ensures MergedWith(s, store, at).last == store
  {
  }

  lemma {:induction false} StaleMergeKeepsBehind(s: State, loaded: Option<Envelope>, store: Option<Envelope>, at: int)
    requires IsBehind(s.last, store) && IsBehind(loaded, store)
    ensures IsBehind(MergedWith(s, loaded, at).last, store)
    ensures s.last == store ==> MergedWith(s, loaded, at).last == store
  {
  }

  lemma {:induction false} RejectingKeepsLast(s: State, token: Token, known: Option<Record>, at: int)
    ensures Rejected(s, token, known, at).last == s.last
  {
  }

  lemma {:induction false} RefreshingKeepsLast(s: State, record: Record, at: int)
    ensures Refreshed(s, record, at).last == s.last
  {
  }

  lemma {:induction false} EnvelopeSucceeds(p: Process, purpose: Purpose)
    requires p.stage.Loaded?
    ensures var after := Prepared(p, purpose);
      after.stage.Ready? ==>
        && Succeeds(p.state.last, after.stage.envelope, after.stage.at)
        && Serves(p.state.last, after.stage.envelope, purpose, after.stage.at)
        && after.stage.purpose == purpose && after.stage.envelope.tombstones == after.state.tombstones
    ensures var after := Prepared(p, purpose);
      after.stage.Ready? <==>
        && p.state.Revision() < UINT64_MAX
        && (purpose.ToStoreFetched? ==> purpose.record.token !in after.state.tombstones)
    ensures Prepared(p, purpose).state.last == p.state.last
    ensures Prepared(p, purpose).stage.at == p.stage.at
    ensures Prepared(p, purpose).stage.Loaded? || Prepared(p, purpose).stage.Ready?
  {
    hide Trimmed;
  }

  lemma {:induction false} MoveKeepsRevisions(system: System, move: Move)
    requires RevisionInv(system)
    ensures RevisionInv(Next(system, move))
  {
    hide MergedWith, Rejected, Refreshed, Prepared, IsPersistable, Serves;
    var after := Next(system, move);
    if !move.Ticks? && !move.Starts? && move.process in system.processes {
      var p := system.processes[move.process];
      assert ProcessHolds(system, move.process);
      match move {
        case Reads(_, loaded, at) =>
          if loaded in system.past { StaleMergeKeepsBehind(p.state, loaded, system.store, at); }
        case Loads(_, at) => MergingKeepsBehind(p.state, system.store, at);
        case Settles(_) => if p.stage.Saved? { MergingKeepsBehind(p.state, system.store, p.stage.at); }
        case Prepares(_, purpose) => if p.stage.Loaded? { EnvelopeSucceeds(p, purpose); }
        case Rejects(_, token, known, at) => RejectingKeepsLast(p.state, token, known, at);
        case Refreshes(_, record, at) => RefreshingKeepsLast(p.state, record, at);
        case _ =>
      }
    }
    forall i | i in after.processes
      ensures ProcessHolds(after, i)
    {
      if i in system.processes {
        assert ProcessHolds(system, i);
      }
    }
  }

  lemma {:induction false} RevisionInvAlways(clock: int, store: Option<Envelope>, moves: seq<Move>)
    ensures RevisionInv(Runs(Begin(clock, store), moves))
    decreases |moves|
  {
    hide RevisionInv, Next;
    if moves == [] {
      NoProcessesAtFirst(clock, store);
    } else {
      RevisionInvAlways(clock, store, moves[..|moves| - 1]);
      MoveKeepsRevisions(Runs(Begin(clock, store), moves[..|moves| - 1]), moves[|moves| - 1]);
    }
  }

  lemma {:induction false} NoProcessesAtFirst(clock: int, store: Option<Envelope>)
    ensures RevisionInv(Begin(clock, store))
  {
  }

  /** Whatever the processes do, crash or restart: what a move stores has a larger revision than what it replaces, does
      not reject its own record, does not go back to an earlier record while the stored one is still good, and serves
      the purpose it was prepared for. */
  lemma {:induction false} EverySaveSucceedsTheLast(clock: int, store: Option<Envelope>, moves: seq<Move>, move: Move)
    ensures var before := Runs(Begin(clock, store), moves);
      var after := Next(before, move);
      after.store != before.store ==>
        && move.Saves? && after.store.Some?
        && move.process in before.processes && before.processes[move.process].stage.Ready?
        && var stage := before.processes[move.process].stage;
        && Succeeds(before.store, after.store.value, stage.at)
        && Serves(before.store, after.store.value, stage.purpose, stage.at)
  {
    RevisionInvAlways(clock, store, moves);
    hide Runs, Succeeds, Serves, MergedWith, Rejected, Refreshed, Prepared;
    var before := Runs(Begin(clock, store), moves);
    if move.Saves? && move.process in before.processes {
      assert ProcessHolds(before, move.process);
    }
  }

  // ----- the cache

  predicate CacheHolds(s: State) {
    s.cached.Some? ==> s.cached.value.record.token !in s.tombstones
  }

  lemma {:induction false} TrimmingOnlyRemoves(tombstones: Tombstones, now: int, preserved: Option<Token>)
    ensures Trimmed(tombstones, now, preserved).Keys <= tombstones.Keys
  {
  }

  lemma {:induction false} OperationsKeepCache(s: State, envelope: Option<Envelope>, token: Token,
                                               known: Option<Record>, record: Record, now: int)
    requires CacheHolds(s)
    ensures CacheHolds(MergedWith(s, envelope, now))
    ensures CacheHolds(Rejected(s, token, known, now))
    ensures CacheHolds(Refreshed(s, record, now))
    ensures CacheHolds(Snapshotted(s, now))
  {
    hide Trimmed, Joined, Live, ShouldInstall;
    TrimmingOnlyRemoves(s.tombstones, now, None);
    var tombstone := Tombstone(now, RejectionExpiry(KnownRecord(s, token, known), now));
    var previous := if token in s.tombstones then s.tombstones[token].rejectedAt else now;
    TrimmingOnlyRemoves(s.tombstones[token := tombstone.(rejectedAt := Max(previous, now))], now, Some(token));
    TrimmingOnlyRemoves(Merged(s.tombstones, token, tombstone), now, Some(token));
  }

  predicate SaysWhatItsTokenSays(record: Record) {
    record.issuedAt == record.token.iat
  }

  /** Neither reading the store nor a refresh replaces a cached record that is still good by one issued earlier. */
  lemma {:induction false} CacheNeverGoesBack(s: State, envelope: Option<Envelope>, fetched: Record, now: int)
    requires CacheHolds(s) && s.cached.Some?
    requires s.cached.value.record.IsTimeUsable(now) && SaysWhatItsTokenSays(s.cached.value.record)
    requires SaysWhatItsTokenSays(fetched)
    ensures var merged := MergedWith(s, envelope, now); var cached := s.cached.value.record;
      cached.token !in merged.tombstones ==>
        merged.cached.Some? && merged.cached.value.record.issuedAt >= cached.issuedAt
    ensures var refreshed := Refreshed(s, fetched, now);
      refreshed.cached.Some? && refreshed.cached.value.record.issuedAt >= s.cached.value.record.issuedAt
  {
    hide Trimmed, Joined, Live;
    TrimmingOnlyRemoves(s.tombstones, now, None);
  }

  /** What is stored is no older than anything that could be: neither the stored nor the cached record. */
  lemma {:induction false} BestIsBest(s: State, now: int)
    ensures var best := BestPersistable(s, now);
      && (best.Some? ==>
            && IsPersistable(best.value, s.tombstones, now)
            && ((s.last.Some? && best == s.last.value.record)
                || (s.cached.Some? && best.value == s.cached.value.record)))
      && (s.last.Some? && s.last.value.record.Some? && IsPersistable(s.last.value.record.value, s.tombstones, now) ==>
            best.Some? && !IsBetter(s.last.value.record.value, best.value))
      && (s.cached.Some? && IsPersistable(s.cached.value.record, s.tombstones, now) ==>
            best.Some? && !IsBetter(s.cached.value.record, best.value))
  {
  }

  lemma {:induction false} DroppingKeepsCache(s: State)
    ensures CacheHolds(s.(cached := None))
  {
  }

  /** In every run, no process ever caches a token it holds a tombstone for. */
  lemma {:induction false} CachedIsNeverTombstoned(clock: int, store: Option<Envelope>, moves: seq<Move>, i: nat)
    requires i in Runs(Begin(clock, store), moves).processes
    ensures CacheHolds(Runs(Begin(clock, store), moves).processes[i].state)
    decreases |moves|
  {
    hide MergedWith, Rejected, Refreshed, Snapshotted, CacheHolds, FetchedEnvelope, BestEnvelope;
    if moves != [] {
      var system, move := Runs(Begin(clock, store), moves[..|moves| - 1]), moves[|moves| - 1];
      if move.Starts? && move.process == i {
        FreshCacheHolds();
      } else {
        CachedIsNeverTombstoned(clock, store, moves[..|moves| - 1], i);
        MoveKeepsCache(system, move, i);
      }
    }
  }

  lemma {:induction false} FreshCacheHolds()
    ensures CacheHolds(Fresh())
  {
  }

  lemma {:induction false} MoveKeepsCache(system: System, move: Move, i: nat)
    requires i in system.processes && CacheHolds(system.processes[i].state)
    ensures i in Next(system, move).processes && CacheHolds(Next(system, move).processes[i].state)
  {
    hide MergedWith, Rejected, Refreshed, Snapshotted, CacheHolds, FetchedEnvelope, BestEnvelope;
    FreshCacheHolds();
    var s := system.processes[i].state;
    var token, record := Token(0, 0, 0, false), Record(Token(0, 0, 0, false), 0, 0);
    match move {
      case Reads(_, loaded, at) => OperationsKeepCache(s, loaded, token, None, record, at);
      case Drops(_) => DroppingKeepsCache(s);
      case Trims(_, at) => OperationsKeepCache(s, None, token, None, record, at);
      case Loads(_, at) => OperationsKeepCache(s, system.store, token, None, record, at);
      case Rejects(_, rejected, known, at) => OperationsKeepCache(s, None, rejected, known, record, at);
      case Refreshes(_, refreshed, at) => OperationsKeepCache(s, None, token, None, refreshed, at);
      case Prepares(_, _) =>
        if system.processes[i].stage.Loaded? {
          OperationsKeepCache(s, None, token, None, record, system.processes[i].stage.at);
        }
      case Settles(_) =>
        if system.processes[i].stage.Saved? {
          OperationsKeepCache(s, Some(system.processes[i].stage.envelope), token, None, record,
                              system.processes[i].stage.at);
        }
      case _ =>
    }
  }
}
