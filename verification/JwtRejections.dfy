/** A rejected token stays rejected: in every process that has heard of it, and in every envelope stored after it. */
module JwtRejections {
  import opened Wrappers
  import opened JwtState
  import opened JwtTombstones
  import opened JwtSystem

  /** The record says what its token says. */
  predicate IsHonest(record: Record) {
    record.expiresAt == record.token.exp
  }

  /** Every tombstone lasts at least as long as the token it rejects. */
  predicate Outlasts(tombstones: Tombstones) {
    forall token :: token in tombstones ==> tombstones[token].expiresAt >= token.exp
  }

  /** What every token that passed for usable by `now` satisfies. */
  predicate CouldBeVended(token: Token, now: int) {
    token.iat <= now + MAXIMUM_CLOCK_SKEW && token.exp <= token.iat + MAXIMUM_LIFETIME && token.exp <= INT64_MAX
  }

  lemma {:induction false} UsableMeansVended(record: Record, earlier: int, now: int)
    requires record.IsUsable(earlier) && earlier <= now
    ensures IsHonest(record) && CouldBeVended(record.token, now)
  {
  }

  /** A rejection of a vended token outlasts it, whether or not its record is known. */
  lemma {:induction false} RejectionOutlasts(token: Token, known: Option<Record>, now: int)
    requires known.Some? ==> IsHonest(known.value) && known.value.token == token
    requires known.None? ==> CouldBeVended(token, now)
    ensures RejectionExpiry(known, now) >= token.exp && RejectionExpiry(known, now) > now
  {
  }

  /** And a token whose record is not known is not remembered for longer than the longest-lived one could be good. */
  lemma {:induction false} RejectionIsNoLongerThanNeeded(name: nat, now: int)
    requires 0 <= now <= INT64_MAX - UNKNOWN_TOKEN_TOMBSTONE_LIFETIME
    ensures var expiry := RejectionExpiry(None, now);
      var token := Token(name, now + MAXIMUM_CLOCK_SKEW, expiry, true);
      Record(token, token.iat, token.exp).IsUsable(now)
  {
  }

  /** What was rejected before is rejected after, or has expired. */
  predicate Remembers(rejected: set<Token>, tombstones: Tombstones, clock: int) {
    forall token :: token in rejected ==> token in tombstones || token.exp <= clock
  }

  predicate Knows(s: State, rejected: set<Token>, clock: int) {
    && Outlasts(s.tombstones) && |s.tombstones| <= MAXIMUM_TOMBSTONES
    && Remembers(rejected, s.tombstones, clock)
    && (s.cached.Some? ==> s.cached.value.record.token !in s.tombstones && IsHonest(s.cached.value.record))
    && (s.last.Some? ==> IsSound(s.last.value) && s.last.value.tombstones.Keys <= rejected)
  }

  predicate IsSound(envelope: Envelope) {
    Outlasts(envelope.tombstones) && (envelope.record.Some? ==> IsHonest(envelope.record.value))
  }

  lemma {:induction false} LiveRemembers(tombstones: Tombstones, rejected: set<Token>, at: int, clock: int)
    requires at <= clock && Outlasts(tombstones) && Remembers(rejected, tombstones, clock)
    ensures Remembers(rejected, Live(tombstones, at), clock) && Outlasts(Live(tombstones, at))
  {
  }

  lemma {:induction false} LiveIsSmaller(tombstones: Tombstones, at: int)
    ensures |Live(tombstones, at)| <= |tombstones|
  {
    var live := Live(tombstones, at);
    assert |live| == |live.Keys| && |tombstones| == |tombstones.Keys|;
    SubsetIsNoLarger(live.Keys, tombstones.Keys);
  }

  lemma {:induction false} CleaningIsLive(tombstones: Tombstones, at: int)
    requires |tombstones| <= MAXIMUM_TOMBSTONES
    ensures Trimmed(tombstones, at, None) == Live(tombstones, at)
    ensures |Live(tombstones, at)| <= MAXIMUM_TOMBSTONES
  {
    LiveIsSmaller(tombstones, at);
    NothingLiveIsTrimmed(tombstones, at, None);
  }

  /** There is room for what two sets of tombstones list between them. */
  predicate HaveRoom(tombstones: Tombstones, incoming: Tombstones, at: int) {
    |Live(Joined(tombstones, incoming), at)| <= MAXIMUM_TOMBSTONES
  }

  lemma {:induction false} JoiningLive(tombstones: Tombstones, incoming: Tombstones, at: int)
    ensures Live(Joined(tombstones, incoming), at).Keys == Live(tombstones, at).Keys + Live(incoming, at).Keys
    ensures Joined(Live(tombstones, at), Live(incoming, at)).Keys == Live(tombstones, at).Keys + Live(incoming, at).Keys
    ensures var joined := Joined(Live(tombstones, at), Live(incoming, at)); Live(joined, at) == joined
  {
  }

  lemma {:induction false} JoiningKeepsAll(tombstones: Tombstones, incoming: Tombstones, at: int,
                                           preserved: Option<Token>)
    requires HaveRoom(tombstones, incoming, at)
    ensures var joined := Joined(Live(tombstones, at), Live(incoming, at));
      Trimmed(joined, at, preserved) == joined && |joined| <= MAXIMUM_TOMBSTONES
  {
    hide Trimmed, Joined, Live;
    var joined, listed := Joined(Live(tombstones, at), Live(incoming, at)), Live(Joined(tombstones, incoming), at);
    JoiningLive(tombstones, incoming, at);
    assert |joined| == |joined.Keys| && |listed| == |listed.Keys|;
    NothingLiveIsTrimmed(joined, at, preserved);
  }

  /** Merging the store into a state makes every stored rejection the state's own. */
  lemma {:induction false} MergingKnows(s: State, rejected: set<Token>, envelope: Option<Envelope>, at: int, clock: int)
    requires Knows(s, rejected, clock) && at <= clock
    requires envelope.Some? ==> IsSound(envelope.value) && HaveRoom(s.tombstones, envelope.value.tombstones, at)
    ensures var after := MergedWith(s, envelope, at);
      Knows(after,
            if envelope.Some? && after.last == envelope then rejected + envelope.value.tombstones.Keys else rejected,
            clock)
  {
    hide Trimmed, Live, Joined, Record.IsUsable, ShouldInstall;
    var live := Live(s.tombstones, at);
    CleaningIsLive(s.tombstones, at);
    LiveRemembers(s.tombstones, rejected, at, clock);
    var cleaned := Cleaned(s, at);
    if envelope.Some? && IsNews(cleaned, envelope.value) {
      var incoming := Live(envelope.value.tombstones, at);
      var joined := Joined(live, incoming);
      JoiningRemembers(s.tombstones, envelope.value.tombstones, rejected, at, clock);
      var candidate := envelope.value.record;
      JoiningKeepsAll(s.tombstones, envelope.value.tombstones, at, None);
      if candidate.Some? {
        JoiningKeepsAll(s.tombstones, envelope.value.tombstones, at, Some(candidate.value.token));
      }
      assert JoinedTombstones(cleaned, envelope.value, at) == joined;
    }
  }

  lemma {:induction false} JoiningRemembers(tombstones: Tombstones, incoming: Tombstones, rejected: set<Token>, at: int,
                                            clock: int)
    requires at <= clock && Outlasts(tombstones) && Outlasts(incoming) && Remembers(rejected, tombstones, clock)
    ensures var joined := Joined(Live(tombstones, at), Live(incoming, at));
      Outlasts(joined) && Remembers(rejected + incoming.Keys, joined, clock)
  {
  }

  lemma {:induction false} RejectingKnows(s: State, rejected: set<Token>, token: Token, known: Option<Record>, at: int,
                                          clock: int)
    requires Knows(s, rejected, clock) && at <= clock
    requires known.Some? ==> IsHonest(known.value) && known.value.token == token
    requires known.None? ==> CouldBeVended(token, at)
    requires |Live(s.tombstones, at).Keys + {token}| <= MAXIMUM_TOMBSTONES
    ensures Knows(Rejected(s, token, known, at), rejected + {token}, clock)
  {
    hide Trimmed, CouldBeVended;
    var record := KnownRecord(s, token, known);
    RejectionOutlasts(token, record, at);
    var tombstone := Tombstone(at, RejectionExpiry(record, at));
    var previous := if token in s.tombstones then s.tombstones[token].rejectedAt else at;
    var marked :=
      if record.Some? then s.tombstones[token := tombstone.(rejectedAt := Max(previous, at))]
      else Merged(s.tombstones, token, tombstone);
    MarkedIsKnown(s.tombstones, rejected, token, marked, at, clock);
    NothingLiveIsTrimmed(marked, at, Some(token));
    hide Live;
    LiveRemembers(marked, rejected + {token}, at, clock);
  }

  lemma {:induction false} MarkedIsKnown(tombstones: Tombstones, rejected: set<Token>, token: Token, marked: Tombstones,
                                         at: int, clock: int)
    requires Outlasts(tombstones) && Remembers(rejected, tombstones, clock)
    requires |Live(tombstones, at).Keys + {token}| <= MAXIMUM_TOMBSTONES
    requires token in marked && marked == tombstones[token := marked[token]]
    requires marked[token].expiresAt >= token.exp && marked[token].IsLive(at)
    ensures |Live(marked, at)| <= MAXIMUM_TOMBSTONES
    ensures Outlasts(marked) && Remembers(rejected + {token}, marked, clock)
  {
    assert Live(marked, at).Keys == Live(tombstones, at).Keys + {token};
    assert |Live(marked, at)| == |Live(marked, at).Keys|;
  }

  lemma {:induction false} RefreshingKnows(s: State, rejected: set<Token>, record: Record, at: int, clock: int)
    requires Knows(s, rejected, clock) && at <= clock && IsHonest(record)
    ensures Knows(Refreshed(s, record, at), rejected, clock)
  {
    hide Trimmed, Live;
    CleaningIsLive(s.tombstones, at);
    LiveRemembers(s.tombstones, rejected, at, clock);
  }

  lemma {:induction false} SnapshottingKnows(s: State, rejected: set<Token>, at: int, clock: int)
    requires Knows(s, rejected, clock) && at <= clock
    ensures Knows(Snapshotted(s, at), rejected, clock)
  {
    CleaningIsLive(s.tombstones, at);
    hide Trimmed;
    LiveRemembers(s.tombstones, rejected, at, clock);
  }

  // ----- runs

  predicate HasRoom(s: State, envelope: Option<Envelope>, at: int) {
    envelope.Some? ==> HaveRoom(s.tombstones, envelope.value.tombstones, at)
  }

  /** What the theorems take from the world: time does not run ahead of the clock; a rejected token was vended, and a
      record that is known of it, or fetched, says what its token says; and no more than sixteen rejections are live. */
  predicate IsLegitimate(system: System, move: Move) {
    !move.Ticks? && !move.Starts? && move.process in system.processes ==>
      var p := system.processes[move.process];
      match move
      case Reads(_, loaded, at) => at <= system.clock && HasRoom(p.state, loaded, at)
      case Trims(_, at) => at <= system.clock
      case Loads(_, at) => at <= system.clock && HasRoom(p.state, system.store, at)
      case Settles(_) => p.stage.Saved? ==> HasRoom(p.state, Some(p.stage.envelope), p.stage.at)
      case Rejects(_, token, known, at) =>
        && at <= system.clock
        && (known.Some? ==> IsHonest(known.value) && known.value.token == token)
        && (known.None? ==> CouldBeVended(token, at))
        && |Live(p.state.tombstones, at).Keys + {token}| <= MAXIMUM_TOMBSTONES
      case Refreshes(_, record, at) => at <= system.clock && IsHonest(record)
      case Prepares(_, purpose) => purpose.ToStoreFetched? ==> IsHonest(purpose.record)
      case _ => true
  }

  predicate AreLegitimate(system: System, moves: seq<Move>)
    decreases |moves|
  {
    moves == [] ||
      (AreLegitimate(system, moves[..|moves| - 1])
       && IsLegitimate(Runs(system, moves[..|moves| - 1]), moves[|moves| - 1]))
  }

  predicate StageHolds(system: System, stage: Stage) {
    && (!stage.Idle? ==> stage.at <= system.clock)
    && (stage.Ready? || stage.Saved? ==> IsSound(stage.envelope))
    && (stage.Ready? ==> Remembers(system.shared, stage.envelope.tombstones, system.clock))
  }

  predicate ProcessKnows(system: System, i: nat)
    requires i in system.processes
  {
    var p := system.processes[i];
    Knows(p.state, p.rejected, system.clock) && StageHolds(system, p.stage)
  }

  predicate StoreKnows(system: System) {
    system.store.Some? ==>
      && IsSound(system.store.value)
      && system.store.value.tombstones.Keys <= system.shared
      && Remembers(system.shared, system.store.value.tombstones, system.clock)
  }

  predicate RejectionInv(system: System) {
    && (system.store.None? ==> system.shared == {})
    && (forall loaded :: loaded in system.past && loaded.Some? ==> IsSound(loaded.value))
    && StoreKnows(system)
    && (forall i :: i in system.processes ==> ProcessKnows(system, i))
  }

  lemma {:induction false} TimePasses(s: State, rejected: set<Token>, clock: int, later: int)
    requires clock <= later && Knows(s, rejected, clock)
    ensures Knows(s, rejected, later)
  {
  }

  /** What is about to be stored remembers every rejection that was ever stored. */
  lemma {:induction false} PreparedRemembers(system: System, i: nat, purpose: Purpose)
    requires i in system.processes && system.processes[i].stage.Loaded?
    requires RejectionInv(system) && ProcessHolds(system, i)
    requires purpose.ToStoreFetched? ==> IsHonest(purpose.record)
    ensures var p := Prepared(system.processes[i], purpose);
      Knows(p.state, p.rejected, system.clock) && StageHolds(system, p.stage)
  {
    hide Trimmed, IsPersistable;
    var p := system.processes[i];
    assert ProcessKnows(system, i);
    SnapshottingKnows(p.state, p.rejected, p.stage.at, system.clock);
    var snapshot := Snapshotted(p.state, p.stage.at);
    forall token | token in system.shared
      ensures token in snapshot.tombstones || token.exp <= system.clock
    {
      assert system.store.Some?;
    }
  }

  lemma {:induction false} MoveKeepsKnowledge(system: System, move: Move)
    requires RevisionInv(system) && RejectionInv(system) && IsLegitimate(system, move)
    requires !move.Ticks? && !move.Starts? && move.process in system.processes
    ensures ProcessKnows(Next(system, move), move.process)
  {
    hide MergedWith, Rejected, Refreshed, Prepared, Knows, IsSound, HaveRoom, CouldBeVended, Remembers, Succeeds;
    var i, p := move.process, system.processes[move.process];
    assert ProcessHolds(system, i) && ProcessKnows(system, i);
    match move {
      case Reads(_, loaded, at) =>
        if loaded in system.past { MergingKnows(p.state, p.rejected, loaded, at, system.clock); }
      case Drops(_) => DroppingKnows(p.state, p.rejected, system.clock);
      case Trims(_, at) => SnapshottingKnows(p.state, p.rejected, at, system.clock);
      case Loads(_, at) => MergingKnows(p.state, p.rejected, system.store, at, system.clock);
      case Settles(_) =>
        if p.stage.Saved? {
          MergingKnows(p.state, p.rejected, Some(p.stage.envelope), p.stage.at, system.clock);
        }
      case Rejects(_, token, known, at) => RejectingKnows(p.state, p.rejected, token, known, at, system.clock);
      case Refreshes(_, record, at) => RefreshingKnows(p.state, p.rejected, record, at, system.clock);
      case Prepares(_, purpose) =>
        if p.stage.Loaded? {
          PreparedRemembers(system, i, purpose);
        }
      case _ =>
    }
  }

  /** What the others hold is not touched; a save is theirs to remember only once they hold the lock again. */
  lemma {:induction false} MoveKeepsOthers(system: System, move: Move, i: nat)
    requires RevisionInv(system) && RejectionInv(system) && i in system.processes
    requires move.Ticks? || move.process != i
    ensures i in Next(system, move).processes && ProcessKnows(Next(system, move), i)
  {
    hide MergedWith, Rejected, Refreshed, Prepared, Knows, IsSound, Succeeds;
    assert ProcessHolds(system, i) && ProcessKnows(system, i);
    if move.Ticks? && system.clock <= move.to {
      TimePasses(system.processes[i].state, system.processes[i].rejected, system.clock, move.to);
    } else if !move.Ticks? && move.process in system.processes {
      assert ProcessHolds(system, move.process);
    }
  }

  lemma {:induction false} DroppingKnows(s: State, rejected: set<Token>, clock: int)
    requires Knows(s, rejected, clock)
    ensures Knows(s.(cached := None), rejected, clock)
  {
  }

  lemma {:induction false} FreshKnows(clock: int)
    ensures Knows(Fresh(), {}, clock)
  {
  }

  lemma {:induction false} MoveKeepsStore(system: System, move: Move)
    requires RevisionInv(system) && RejectionInv(system)
    ensures var after := Next(system, move);
      && StoreKnows(after) && (after.store.None? ==> after.shared == {})
      && (forall loaded :: loaded in after.past && loaded.Some? ==> IsSound(loaded.value))
  {
    hide MergedWith, Rejected, Refreshed, Prepared, Knows, IsSound, Succeeds;
    if !move.Ticks? && move.process in system.processes {
      assert ProcessKnows(system, move.process);
    }
  }

  lemma {:induction false} MoveKeepsRejections(system: System, move: Move)
    requires RevisionInv(system) && RejectionInv(system) && IsLegitimate(system, move)
    ensures RejectionInv(Next(system, move))
  {
    var after := Next(system, move);
    MoveKeepsStore(system, move);
    hide Next, IsLegitimate, StoreKnows, ProcessKnows;
    forall i | i in after.processes
      ensures ProcessKnows(after, i)
    {
      if i in system.processes && (move.Ticks? || move.process != i) {
        MoveKeepsOthers(system, move, i);
      } else {
        MoversKnow(system, move, i);
      }
    }
  }

  lemma {:induction false} MoversKnow(system: System, move: Move, i: nat)
    requires RevisionInv(system) && RejectionInv(system) && IsLegitimate(system, move)
    requires i in Next(system, move).processes && (i !in system.processes || (!move.Ticks? && move.process == i))
    ensures ProcessKnows(Next(system, move), i)
  {
    hide MergedWith, Rejected, Refreshed, Prepared, Knows, IsSound, Succeeds, IsLegitimate;
    if move.Starts? {
      FreshKnows(system.clock);
    } else {
      MoveKeepsKnowledge(system, move);
    }
  }

  /** A store to begin with: what it holds is sound, or it is empty. */
  lemma {:induction false} RejectionInvAlways(clock: int, store: Option<Envelope>, moves: seq<Move>)
    requires store.Some? ==> IsSound(store.value)
    requires AreLegitimate(Begin(clock, store), moves)
    ensures RejectionInv(Runs(Begin(clock, store), moves))
    decreases |moves|
  {
    hide RejectionInv, RevisionInv, Next, IsLegitimate;
    if moves == [] {
      NothingForgottenAtFirst(clock, store);
    } else {
      RevisionInvAlways(clock, store, moves[..|moves| - 1]);
      RejectionInvAlways(clock, store, moves[..|moves| - 1]);
      MoveKeepsRejections(Runs(Begin(clock, store), moves[..|moves| - 1]), moves[|moves| - 1]);
    }
  }

  lemma {:induction false} NothingForgottenAtFirst(clock: int, store: Option<Envelope>)
    requires store.Some? ==> IsSound(store.value)
    ensures RejectionInv(Begin(clock, store))
  {
  }

  /** No process ever caches a token it knows to be rejected, be it its own rejection or one it has read, as long as
      the token has not expired. */
  lemma {:induction false} RejectedIsNeverCached(clock: int, store: Option<Envelope>, moves: seq<Move>, i: nat)
    requires store.Some? ==> IsSound(store.value)
    requires AreLegitimate(Begin(clock, store), moves)
    requires i in Runs(Begin(clock, store), moves).processes
    ensures var system := Runs(Begin(clock, store), moves); var p := system.processes[i];
      p.state.cached.Some? && p.state.cached.value.record.token in p.rejected
      ==> p.state.cached.value.record.token.exp <= system.clock
  {
    RejectionInvAlways(clock, store, moves);
    hide Runs, AreLegitimate, Outlasts, IsSound;
    assert ProcessKnows(Runs(Begin(clock, store), moves), i);
  }

  /** A rejection that was ever stored is in the store until the token expires, and with it in every process that has
      read the store. */
  lemma {:induction false} StoredRejectionsStay(clock: int, store: Option<Envelope>, moves: seq<Move>, token: Token)
    requires store.Some? ==> IsSound(store.value)
    requires AreLegitimate(Begin(clock, store), moves)
    requires token in Runs(Begin(clock, store), moves).shared
    ensures var system := Runs(Begin(clock, store), moves);
      && system.store.Some?
      && (system.clock < token.exp ==> token in system.store.value.tombstones)
      && (system.clock < token.exp ==>
            forall i :: i in system.processes && system.processes[i].state.last == system.store ==>
              token in system.processes[i].state.tombstones)
  {
    RejectionInvAlways(clock, store, moves);
    hide Runs, AreLegitimate, Outlasts, IsSound;
    var system := Runs(Begin(clock, store), moves);
    forall i | i in system.processes && system.processes[i].state.last == system.store && system.clock < token.exp
      ensures token in system.processes[i].state.tombstones
    {
      assert ProcessKnows(system, i);
    }
  }

  // ----- tombstones can be shortened

  /** A rejection keeps a tombstone at least as long as it was to last if and only if it brings no record, its own or
      the cached one, or one that expires no earlier. */
  lemma {:induction false} RejectionShortensExactly(s: State, token: Token, known: Option<Record>, now: int)
    requires token in s.tombstones && s.tombstones[token].IsLive(now)
    ensures var record := KnownRecord(s, token, known);
      var after := Rejected(s, token, known, now).tombstones;
      && token in after
      && (after[token].expiresAt >= s.tombstones[token].expiresAt
          <==> record.None? || Max(record.value.expiresAt, now + 1) >= s.tombstones[token].expiresAt)
  {
    hide Trimmed;
    var record := KnownRecord(s, token, known);
    var tombstone := Tombstone(now, RejectionExpiry(record, now));
    var marked :=
      if record.Some? then s.tombstones[token := tombstone.(rejectedAt := Max(s.tombstones[token].rejectedAt, now))]
      else Merged(s.tombstones, token, tombstone);
    PreservedStays(marked, now, token);
  }

  /** So a stored tombstone need not survive to its own end: first rejected without its record, then with it, this one
      is gone from the process, and from what it stores, while the stored one still has hours to go. */
  lemma {:induction false} UnexpiredTombstoneCanGo()
    returns (s: State, token: Token, known: Record, now: int, later: int)
    ensures IsHonest(known) && known.token == token && CouldBeVended(token, now) && now < later
    ensures s.last.Some? && s.tombstones == s.last.value.tombstones
    ensures token in s.last.value.tombstones && s.last.value.tombstones[token].IsLive(later)
    ensures token !in Snapshotted(Rejected(s, token, Some(known), now), later).tombstones
  {
    token, now, later := Token(1, 0, 3600, true), 1, 4000;
    known := Record(token, 0, 3600);
    var tombstones: Tombstones := map[token := Tombstone(0, 21900)];
    s := State(None, tombstones, Some(Envelope(1, None, tombstones)));
    var marked: Tombstones := map[token := Tombstone(1, 3600)];
    assert s.tombstones[token := Tombstone(1, 3600)] == marked;
    var after := Rejected(s, token, Some(known), now).tombstones;
    assert after == Trimmed(marked, 1, Some(token));
    PreservedStays(marked, 1, token);
    assert after[token] == Tombstone(1, 3600);
    assert token !in Live(after, later);
  }
}
