/** When a stored tombstone lasts as long as it says: unless a rejection shortens it, it is in everything that is stored
    until it expires. */
module JwtSurvival {
  import opened Wrappers
  import opened JwtState
  import opened JwtTombstones
  import opened JwtSystem
  import opened JwtRejections

  /** Every tombstone of `stored` that has not expired is in `held`, to expire no earlier. */
  predicate Survive(stored: Tombstones, held: Tombstones, clock: int) {
    forall token :: token in stored && stored[token].IsLive(clock) ==>
      token in held && held[token].expiresAt >= stored[token].expiresAt
  }

  predicate EnvelopeSurvives(stored: Option<Envelope>, held: Tombstones, clock: int) {
    stored.Some? ==> Survive(stored.value.tombstones, held, clock)
  }

  /** The rejection brings no record that expires before the live tombstone it replaces. */
  predicate ShortensNothing(s: State, token: Token, known: Option<Record>, at: int) {
    var record := KnownRecord(s, token, known);
    token in s.tombstones && s.tombstones[token].IsLive(at) && record.Some? ==>
      Max(record.value.expiresAt, at + 1) >= s.tombstones[token].expiresAt
  }

  // ----- each operation

  lemma {:induction false} LiveSurvive(stored: Tombstones, held: Tombstones, at: int, clock: int)
    requires at <= clock && Survive(stored, held, clock)
    ensures Survive(stored, Live(held, at), clock)
  {
  }

  lemma {:induction false} SnapshotSurvives(s: State, at: int, clock: int)
    requires at <= clock && |s.tombstones| <= MAXIMUM_TOMBSTONES && EnvelopeSurvives(s.last, s.tombstones, clock)
    ensures EnvelopeSurvives(s.last, Snapshotted(s, at).tombstones, clock)
  {
    hide Trimmed;
    CleaningIsLive(s.tombstones, at);
    if s.last.Some? {
      LiveSurvive(s.last.value.tombstones, s.tombstones, at, clock);
    }
  }

  lemma {:induction false} JoiningSurvives(held: Tombstones, incoming: Tombstones, stored: Tombstones, at: int,
                                           clock: int)
    requires at <= clock
    ensures var joined := Joined(Live(held, at), Live(incoming, at));
      && Survive(incoming, joined, clock)
      && (Survive(stored, held, clock) ==> Survive(stored, joined, clock))
  {
  }

  /** What is merged survives, and so does what the process had. */
  lemma {:induction false} MergingSurvives(s: State, envelope: Option<Envelope>, at: int, clock: int)
    requires at <= clock && |s.tombstones| <= MAXIMUM_TOMBSTONES && HasRoom(s, envelope, at)
    requires EnvelopeSurvives(s.last, s.tombstones, clock)
    ensures var after := MergedWith(s, envelope, at); EnvelopeSurvives(after.last, after.tombstones, clock)
  {
    hide Trimmed, Live, Joined, Survive, Record.IsUsable, ShouldInstall, Kept;
    CleaningIsLive(s.tombstones, at);
    if s.last.Some? {
      LiveSurvive(s.last.value.tombstones, s.tombstones, at, clock);
    }
    var cleaned := Cleaned(s, at);
    if envelope.Some? && IsNews(cleaned, envelope.value) {
      var incoming := envelope.value.tombstones;
      JoiningSurvives(s.tombstones, incoming, incoming, at, clock);
      JoinedTombstonesAre(s, envelope.value, at);
    }
  }

  lemma {:induction false} JoinedTombstonesAre(s: State, envelope: Envelope, at: int)
    requires |s.tombstones| <= MAXIMUM_TOMBSTONES && HaveRoom(s.tombstones, envelope.tombstones, at)
    ensures JoinedTombstones(Cleaned(s, at), envelope, at)
         == Joined(Live(s.tombstones, at), Live(envelope.tombstones, at))
  {
    hide Trimmed, Live, Joined, Record.IsUsable, Kept;
    CleaningIsLive(s.tombstones, at);
    JoiningKeepsAll(s.tombstones, envelope.tombstones, at, None);
    if envelope.record.Some? {
      JoiningKeepsAll(s.tombstones, envelope.tombstones, at, Some(envelope.record.value.token));
    }
  }

  lemma {:induction false} RejectingSurvives(s: State, token: Token, known: Option<Record>, at: int, clock: int)
    requires at <= clock && EnvelopeSurvives(s.last, s.tombstones, clock)
    requires |Live(s.tombstones, at).Keys + {token}| <= MAXIMUM_TOMBSTONES
    requires ShortensNothing(s, token, known, at)
    ensures EnvelopeSurvives(s.last, Rejected(s, token, known, at).tombstones, clock)
  {
    hide Trimmed;
    var record := KnownRecord(s, token, known);
    var tombstone := Tombstone(at, RejectionExpiry(record, at));
    var previous := if token in s.tombstones then s.tombstones[token].rejectedAt else at;
    var marked :=
      if record.Some? then s.tombstones[token := tombstone.(rejectedAt := Max(previous, at))]
      else Merged(s.tombstones, token, tombstone);
    LiveMarked(s.tombstones, token, marked, at);
    NothingLiveIsTrimmed(marked, at, Some(token));
    if s.last.Some? {
      hide Live;
      MarkedSurvives(s.last.value.tombstones, s.tombstones, token, marked, at, clock);
    }
  }

  lemma {:induction false} LiveMarked(tombstones: Tombstones, token: Token, marked: Tombstones, at: int)
    requires token in marked && marked == tombstones[token := marked[token]] && marked[token].IsLive(at)
    requires |Live(tombstones, at).Keys + {token}| <= MAXIMUM_TOMBSTONES
    ensures |Live(marked, at)| <= MAXIMUM_TOMBSTONES
  {
    assert Live(marked, at).Keys == Live(tombstones, at).Keys + {token};
    assert |Live(marked, at)| == |Live(marked, at).Keys|;
  }

  lemma {:induction false} MarkedSurvives(stored: Tombstones, held: Tombstones, token: Token, marked: Tombstones,
                                          at: int, clock: int)
    requires at <= clock && Survive(stored, held, clock)
    requires token in marked && marked == held[token := marked[token]]
    requires token in held && held[token].IsLive(at) ==> marked[token].expiresAt >= held[token].expiresAt
    ensures Survive(stored, Live(marked, at), clock)
  {
  }

  /** And a rejection that does shorten a tombstone loses the stored one: at the time it has set instead, the process
      holds none, while the stored one is still live. */
  lemma {:induction false} ShorteningLoses(s: State, token: Token, known: Option<Record>, now: int)
    requires token in s.tombstones && s.tombstones[token].IsLive(now)
    requires s.last.Some? && token in s.last.value.tombstones
    requires s.last.value.tombstones[token].expiresAt >= s.tombstones[token].expiresAt
    ensures token in Rejected(s, token, known, now).tombstones
    ensures var after := Rejected(s, token, known, now);
      var later := after.tombstones[token].expiresAt;
      && now < later && token !in Snapshotted(after, later).tombstones
      && (!ShortensNothing(s, token, known, now) ==> s.last.value.tombstones[token].IsLive(later))
  {
    RejectionShortensExactly(s, token, known, now);
    var record := KnownRecord(s, token, known);
    var tombstone := Tombstone(now, RejectionExpiry(record, now));
    var previous := if token in s.tombstones then s.tombstones[token].rejectedAt else now;
    var marked :=
      if record.Some? then s.tombstones[token := tombstone.(rejectedAt := Max(previous, now))]
      else Merged(s.tombstones, token, tombstone);
    PreservedStays(marked, now, token);
    hide Rank;
  }

  lemma {:induction false} RefreshingSurvives(s: State, record: Record, at: int, clock: int)
    requires at <= clock && |s.tombstones| <= MAXIMUM_TOMBSTONES && EnvelopeSurvives(s.last, s.tombstones, clock)
    ensures var after := Refreshed(s, record, at); EnvelopeSurvives(after.last, after.tombstones, clock)
  {
    hide Trimmed, Kept;
    SnapshotSurvives(s, at, clock);
  }

  /** No state ever holds more than sixteen. */
  lemma {:induction false} TrimmedFits(tombstones: Tombstones, now: int, preserved: Option<Token>)
    ensures |Trimmed(tombstones, now, preserved)| <= MAXIMUM_TOMBSTONES
  {
    TrimmedFill(tombstones, now, preserved);
  }

  lemma {:induction false} OperationsFit(s: State, envelope: Option<Envelope>, token: Token, known: Option<Record>,
                                         record: Record, now: int)
    ensures |MergedWith(s, envelope, now).tombstones| <= MAXIMUM_TOMBSTONES
    ensures |Rejected(s, token, known, now).tombstones| <= MAXIMUM_TOMBSTONES
    ensures |Refreshed(s, record, now).tombstones| <= MAXIMUM_TOMBSTONES
    ensures |Snapshotted(s, now).tombstones| <= MAXIMUM_TOMBSTONES
  {
    hide Trimmed, Joined, Live, Kept, ShouldInstall, Record.IsUsable;
    TrimmedFits(s.tombstones, now, None);
    if envelope.Some? {
      JoinedFit(Cleaned(s, now), envelope.value, now);
    }
    RejectedFit(s, token, known, now);
  }

  lemma {:induction false} JoinedFit(s: State, envelope: Envelope, now: int)
    ensures |JoinedTombstones(s, envelope, now)| <= MAXIMUM_TOMBSTONES
  {
    hide Trimmed, Joined, Live, Record.IsUsable;
    var joined := Joined(s.tombstones, Live(envelope.tombstones, now));
    TrimmedFits(joined, now, None);
    if envelope.record.Some? {
      TrimmedFits(joined, now, Some(envelope.record.value.token));
    }
  }

  lemma {:induction false} RejectedFit(s: State, token: Token, known: Option<Record>, now: int)
    ensures |RejectedTombstones(s, token, known, now)| <= MAXIMUM_TOMBSTONES
  {
    hide Trimmed;
    var record := KnownRecord(s, token, known);
    var tombstone := Tombstone(now, RejectionExpiry(record, now));
    var previous := if token in s.tombstones then s.tombstones[token].rejectedAt else now;
    TrimmedFits(s.tombstones[token := tombstone.(rejectedAt := Max(previous, now))], now, Some(token));
    TrimmedFits(Merged(s.tombstones, token, tombstone), now, Some(token));
  }

  // ----- every run

  /** Time does not run ahead of the clock, no more than sixteen tombstones are live, and no rejection shortens one. */
  predicate IsLasting(system: System, move: Move) {
    !move.Ticks? && !move.Starts? && move.process in system.processes ==>
      var p := system.processes[move.process];
      match move
      case Reads(_, loaded, at) => at <= system.clock && HasRoom(p.state, loaded, at)
      case Loads(_, at) => at <= system.clock && HasRoom(p.state, system.store, at)
      case Settles(_) => p.stage.Saved? ==> HasRoom(p.state, Some(p.stage.envelope), p.stage.at)
      case Rejects(_, token, known, at) =>
        && at <= system.clock && ShortensNothing(p.state, token, known, at)
        && |Live(p.state.tombstones, at).Keys + {token}| <= MAXIMUM_TOMBSTONES
      case Refreshes(_, _, at) => at <= system.clock
      case Trims(_, at) => at <= system.clock
      case _ => true
  }

  predicate AreLasting(system: System, moves: seq<Move>)
    decreases |moves|
  {
    moves == [] ||
      (AreLasting(system, moves[..|moves| - 1]) && IsLasting(Runs(system, moves[..|moves| - 1]), moves[|moves| - 1]))
  }

  /** A process holds what it last saw stored; what it is about to store holds what is stored. */
  predicate ProcessLasts(system: System, i: nat)
    requires i in system.processes
  {
    var p := system.processes[i];
    && |p.state.tombstones| <= MAXIMUM_TOMBSTONES
    && EnvelopeSurvives(p.state.last, p.state.tombstones, system.clock)
    && (!p.stage.Idle? ==> p.stage.at <= system.clock)
    && (p.stage.Ready? ==> EnvelopeSurvives(system.store, p.stage.envelope.tombstones, system.clock))
  }

  predicate PastSurvives(system: System) {
    forall stored :: stored in system.past && stored.Some? ==>
      system.store.Some? && Survive(stored.value.tombstones, system.store.value.tombstones, system.clock)
  }

  predicate SurvivalInv(system: System) {
    PastSurvives(system) && (forall i :: i in system.processes ==> ProcessLasts(system, i))
  }

  lemma {:induction false} SurvivalIsTransitive(a: Tombstones, b: Tombstones, c: Tombstones, clock: int)
    requires Survive(a, b, clock) && Survive(b, c, clock)
    ensures Survive(a, c, clock)
  {
  }

  lemma {:induction false} MoverLasts(system: System, move: Move)
    requires RevisionInv(system) && SurvivalInv(system) && IsLasting(system, move)
    requires !move.Ticks? && !move.Starts? && move.process in system.processes
    ensures ProcessLasts(Next(system, move), move.process)
  {
    hide MergedWith, Rejected, Refreshed, Snapshotted, HaveRoom, ShortensNothing, Survive, Succeeds, PastSurvives;
    var i, p := move.process, system.processes[move.process];
    assert ProcessHolds(system, i) && ProcessLasts(system, i);
    var token, record := Token(0, 0, 0, false), Record(Token(0, 0, 0, false), 0, 0);
    match move {
      case Reads(_, loaded, at) =>
        if loaded in system.past {
          MergingSurvives(p.state, loaded, at, system.clock);
          OperationsFit(p.state, loaded, token, None, record, at);
        }
      case Loads(_, at) =>
        MergingSurvives(p.state, system.store, at, system.clock);
        OperationsFit(p.state, system.store, token, None, record, at);
      case Settles(_) =>
        if p.stage.Saved? {
          MergingSurvives(p.state, Some(p.stage.envelope), p.stage.at, system.clock);
          OperationsFit(p.state, Some(p.stage.envelope), token, None, record, p.stage.at);
        }
      case Rejects(_, rejected, known, at) =>
        RejectingSurvives(p.state, rejected, known, at, system.clock);
        RejectingKeepsLast(p.state, rejected, known, at);
        OperationsFit(p.state, None, rejected, known, record, at);
      case Refreshes(_, refreshed, at) =>
        RefreshingSurvives(p.state, refreshed, at, system.clock);
        OperationsFit(p.state, None, token, None, refreshed, at);
      case Trims(_, at) => TrimmingLasts(p.state, at, system.clock);
      case Prepares(_, purpose) =>
        if p.stage.Loaded? {
          TrimmingLasts(p.state, p.stage.at, system.clock);
          PreparedCarries(p, purpose);
        }
      case _ =>
    }
  }

  lemma {:induction false} TrimmingLasts(s: State, at: int, clock: int)
    requires at <= clock && |s.tombstones| <= MAXIMUM_TOMBSTONES && EnvelopeSurvives(s.last, s.tombstones, clock)
    ensures var after := Snapshotted(s, at);
      && after.last == s.last && |after.tombstones| <= MAXIMUM_TOMBSTONES
      && EnvelopeSurvives(after.last, after.tombstones, clock)
  {
    SnapshotSurvives(s, at, clock);
    TrimmedFits(s.tombstones, at, None);
    hide Trimmed, Survive;
  }

  /** An envelope carries the tombstones of the state it is prepared from. */
  lemma {:induction false} PreparedCarries(p: Process, purpose: Purpose)
    requires p.stage.Loaded?
    ensures var after := Prepared(p, purpose);
      && after.state == Snapshotted(p.state, p.stage.at) && after.stage.at == p.stage.at
      && (after.stage.Ready? ==> after.stage.envelope.tombstones == after.state.tombstones)
  {
    hide Snapshotted, BestPersistable, IsPersistable;
  }

  lemma {:induction false} OthersLast(system: System, move: Move, i: nat)
    requires RevisionInv(system) && SurvivalInv(system) && i in system.processes
    requires move.Ticks? || move.process != i
    ensures i in Next(system, move).processes && ProcessLasts(Next(system, move), i)
  {
    hide MergedWith, Rejected, Refreshed, Snapshotted, Prepared, Succeeds, PastSurvives;
    assert ProcessHolds(system, i) && ProcessLasts(system, i);
    if !move.Ticks? && move.process in system.processes {
      assert ProcessHolds(system, move.process);
    }
  }

  lemma {:induction false} PastLasts(system: System, move: Move)
    requires RevisionInv(system) && SurvivalInv(system)
    ensures PastSurvives(Next(system, move))
  {
    hide MergedWith, Rejected, Refreshed, Snapshotted, Prepared, Succeeds;
    var after := Next(system, move);
    if !move.Ticks? && !move.Starts? && move.process in system.processes {
      assert ProcessLasts(system, move.process);
    }
    forall stored | stored in after.past && stored.Some?
      ensures after.store.Some? && Survive(stored.value.tombstones, after.store.value.tombstones, after.clock)
    {
      if stored in system.past && after.store != system.store {
        SurvivalIsTransitive(stored.value.tombstones, system.store.value.tombstones, after.store.value.tombstones,
                             system.clock);
      }
    }
  }

  lemma {:induction false} MoveKeepsSurvival(system: System, move: Move)
    requires RevisionInv(system) && SurvivalInv(system) && IsLasting(system, move)
    ensures SurvivalInv(Next(system, move))
  {
    PastLasts(system, move);
    var after := Next(system, move);
    hide Next, IsLasting, PastSurvives, ProcessLasts;
    forall i | i in after.processes
      ensures ProcessLasts(after, i)
    {
      if i in system.processes && (move.Ticks? || move.process != i) {
        OthersLast(system, move, i);
      } else {
        MoversLast(system, move, i);
      }
    }
  }

  lemma {:induction false} MoversLast(system: System, move: Move, i: nat)
    requires RevisionInv(system) && SurvivalInv(system) && IsLasting(system, move)
    requires i in Next(system, move).processes && (i !in system.processes || (!move.Ticks? && move.process == i))
    ensures ProcessLasts(Next(system, move), i)
  {
    hide MergedWith, Rejected, Refreshed, Snapshotted, Prepared, Succeeds, IsLasting, PastSurvives;
    if !move.Starts? {
      MoverLasts(system, move);
    }
  }

  lemma {:induction false} SurvivalInvAlways(clock: int, store: Option<Envelope>, moves: seq<Move>)
    requires AreLasting(Begin(clock, store), moves)
    ensures SurvivalInv(Runs(Begin(clock, store), moves))
    decreases |moves|
  {
    hide SurvivalInv, RevisionInv, Next, IsLasting;
    if moves == [] {
      AllSurviveAtFirst(clock, store);
    } else {
      RevisionInvAlways(clock, store, moves[..|moves| - 1]);
      SurvivalInvAlways(clock, store, moves[..|moves| - 1]);
      MoveKeepsSurvival(Runs(Begin(clock, store), moves[..|moves| - 1]), moves[|moves| - 1]);
    }
  }

  lemma {:induction false} AllSurviveAtFirst(clock: int, store: Option<Envelope>)
    ensures SurvivalInv(Begin(clock, store))
  {
  }

  /** In every run in which no rejection shortens a tombstone: whatever is stored carries every unexpired tombstone of
      all that was ever stored before, to expire no earlier. */
  lemma {:induction false} StoredTombstonesSurvive(clock: int, store: Option<Envelope>, moves: seq<Move>,
                                                   stored: Option<Envelope>)
    requires AreLasting(Begin(clock, store), moves)
    ensures var system := Runs(Begin(clock, store), moves);
      stored in system.past && stored.Some? ==>
        system.store.Some? && Survive(stored.value.tombstones, system.store.value.tombstones, system.clock)
  {
    SurvivalInvAlways(clock, store, moves);
    hide Runs, AreLasting, Survive, ProcessLasts;
  }

  /** In particular every save carries each unexpired tombstone of the envelope it replaces. */
  lemma {:induction false} SavesCarryStoredTombstones(clock: int, store: Option<Envelope>, moves: seq<Move>, move: Move)
    requires AreLasting(Begin(clock, store), moves)
    ensures var before := Runs(Begin(clock, store), moves); var after := Next(before, move);
      before.store.Some? && after.store != before.store ==>
        after.store.Some? && Survive(before.store.value.tombstones, after.store.value.tombstones, before.clock)
  {
    SurvivalInvAlways(clock, store, moves);
    hide Runs, AreLasting, Survive, MergedWith, Rejected, Refreshed, Snapshotted, Prepared, PastSurvives;
    var before := Runs(Begin(clock, store), moves);
    if move.Saves? && move.process in before.processes {
      assert ProcessLasts(before, move.process);
    }
  }
}
