/** The provider's own state, updated in place, and the store it shares. */
module JwtProvider {
  import opened Wrappers
  import opened JwtState
  import opened JwtTombstones
  import opened JwtSystem

  /** What the store holds: an envelope, nothing, or data that cannot be decoded. */
  datatype Contents = Holds(envelope: Option<Envelope>) | Undecodable {
    function Readable(): Option<Envelope> {
      if Holds? then envelope else None
    }

    /** The contents once `stored` is what can be read: undecodable data stays until something is saved over it. */
    function With(stored: Option<Envelope>): Contents {
      if Undecodable? && stored.None? then this else Holds(stored)
    }
  }

  class Store {
    var contents: Contents

    constructor (contents: Contents)
      ensures this.contents == contents
    {
      this.contents := contents;
    }
  }

  /** What has been taken comes before what has not. */
  predicate IsSplit(live: Tombstones, contenders: set<Token>, taken: set<Token>, room: nat)
    requires contenders <= live.Keys
  {
    && taken <= contenders && |taken| <= room
    && forall a, b :: a in taken && b in contenders - taken ==> Before(live, a, b)
  }

  lemma {:induction false} TakingTheFirst(live: Tombstones, contenders: set<Token>, taken: set<Token>, room: nat,
                                          first: Token)
    requires contenders <= live.Keys && IsSplit(live, contenders, taken, room) && |taken| < room
    requires IsFirst(live, contenders - taken, first)
    ensures IsSplit(live, contenders, taken + {first}, room)
    ensures |taken + {first}| == |taken| + 1
  {
  }

  lemma {:induction false} SplitIsFirst(live: Tombstones, contenders: set<Token>, taken: set<Token>, room: nat)
    requires contenders <= live.Keys && IsSplit(live, contenders, taken, room)
    requires |taken| == room || contenders - taken == {}
    ensures taken == First(live, contenders, room)
  {
    forall token | token in contenders
      ensures Rank(live, contenders, token) < room <==> token in taken
    {
      var earlier := Earlier(live, contenders, token);
      assert Rank(live, contenders, token) == |earlier|;
      if token in taken {
        forall other | other in earlier
          ensures other in taken - {token}
        {
          BeforeIsAnOrder(live, other, token, other);
        }
        SubsetIsNoLarger(earlier, taken - {token});
      } else {
        SubsetIsNoLarger(taken, earlier);
      }
    }
  }

  /** Takes tombstones in their order, until there is no more room. */
  method TakeFirst(live: Tombstones, contenders: set<Token>, room: nat) returns (taken: set<Token>)
    requires contenders <= live.Keys
    ensures taken == First(live, contenders, room)
  {
    hide IsSplit, IsFirst, Before;
    taken := {};
    assert IsSplit(live, contenders, taken, room) by { NothingTaken(live, contenders, room); }
    var rest := contenders;
    while |taken| < room && rest != {}
      invariant IsSplit(live, contenders, taken, room) && |taken| <= room && rest == contenders - taken
      decreases rest
    {
      ghost var earliest := FirstExists(live, rest);
      var first :| first in rest && IsFirst(live, rest, first);
      TakingTheFirst(live, contenders, taken, room, first);
      taken, rest := taken + {first}, rest - {first};
    }
    SplitIsFirst(live, contenders, taken, room);
  }

  lemma {:induction false} NothingTaken(live: Tombstones, contenders: set<Token>, room: nat)
    requires contenders <= live.Keys
    ensures IsSplit(live, contenders, {}, room)
  {
  }

  method TrimmedTombstones(tombstones: Tombstones, now: int, preserved: Option<Token>) returns (retained: Tombstones)
    ensures retained == Trimmed(tombstones, now, preserved)
  {
    hide Rank;
    var live := Live(tombstones, now);
    var contenders, room, keys := live.Keys, MAXIMUM_TOMBSTONES, {};
    if preserved.Some? && preserved.value in live {
      keys, contenders, room := {preserved.value}, contenders - {preserved.value}, room - 1;
    }
    assert contenders == Contenders(live, preserved);
    var taken := TakeFirst(live, contenders, room);
    keys := keys + taken;
    retained := map token | token in live && token in keys :: live[token];
  }

  function RecordOf(cached: Option<Cached>): Option<Record> {
    if cached.Some? then Some(cached.value.record) else None
  }

  /** Undecodable data is passed over: it is not merged, and what is saved replaces it. */
  function ReadInto(s: State, contents: Contents, at: int): State {
    if contents.Holds? then MergedWith(s, contents.envelope, at) else s
  }

  /** Loading, preparing, saving and settling under the lock, with nothing in between. */
  function Persisted(s: State, contents: Contents, purpose: Purpose, saves: bool, at: int): (State, Contents) {
    var (after, stored) := SavedFrom(ReadInto(s, contents, at), contents.Readable(), purpose, saves, at);
    (after, contents.With(stored))
  }

  function SavedFrom(loaded: State, store: Option<Envelope>, purpose: Purpose, saves: bool, at: int)
    : (State, Option<Envelope>)
  {
    var p := Prepared(Process(loaded, Loaded(at), {}), purpose);
    if p.stage.Ready? && saves then (MergedWith(p.state, Some(p.stage.envelope), at), Some(p.stage.envelope))
    else (p.state, store)
  }

  /** Storing the best that is available, unless it is stored already. */
  function BestStored(s: State, store: Option<Envelope>, saves: bool, at: int): (State, Option<Envelope>) {
    var loaded := MergedWith(s, store, at);
    if IsStoredAlready(Snapshotted(loaded, at), at) then (Snapshotted(loaded, at), store)
    else SavedFrom(loaded, store, ToStoreBest, saves, at)
  }

  /** Undecodable data is never taken for what is best. */
  function BestPersisted(s: State, contents: Contents, saves: bool, at: int): (State, Contents) {
    if contents.Undecodable? then Persisted(s, contents, ToStoreBest, saves, at)
    else
      var (after, stored) := BestStored(s, contents.envelope, saves, at);
      (after, Holds(stored))
  }

  /** The record stored for a token, if it is that token's. */
  function StoredFor(s: State, token: Token): Option<Record> {
    if s.last.Some? && s.last.value.record.Some? && s.last.value.record.value.token == token
    then s.last.value.record else None
  }

  /** A rejection is taken in between reading and saving; what is stored tells when the token would have expired. */
  function RejectionPersisted(s: State, contents: Contents, token: Token, known: Option<Record>, saves: bool, at: int)
    : (State, Contents)
  {
    var read := Snapshotted(ReadInto(s, contents, at), at);
    var rejected := Rejected(read, token, known.Or(StoredFor(read, token)), at);
    var (after, stored) := SavedFrom(rejected, contents.Readable(), ToStoreBest, saves, at);
    (after, contents.With(stored))
  }

  class Provider {
    var cached: Option<Cached>
    var tombstones: Tombstones
    var last: Option<Envelope>

    function Now(): State
      reads this
    {
      State(cached, tombstones, last)
    }

    constructor ()
      ensures Now() == Fresh()
    {
      cached, tombstones, last := None, map[], None;
    }

    method DropUnusable(now: int)
      modifies this`cached
      ensures cached == Kept(old(cached), tombstones, now)
    {
      if cached.Some? {
        if cached.value.record.token in tombstones || !cached.value.record.IsTimeUsable(now) {
          cached := None;
        }
      }
    }

    method Clean(now: int)
      modifies this
      ensures Now() == Cleaned(old(Now()), now)
    {
      tombstones := TrimmedTombstones(tombstones, now, None);
      DropUnusable(now);
    }

    method MergePersistedState(envelope: Option<Envelope>, now: int) returns (usable: Option<Record>)
      modifies this
      ensures Now() == MergedWith(old(Now()), envelope, now)
      ensures usable == RecordOf(cached)
    {
      hide Trimmed, Live, Joined, Record.IsUsable, Kept, ShouldInstall;
      Clean(now);
      if envelope.None? {
        return RecordOf(cached);
      }
      if last.Some? && envelope.value.revision <= last.value.revision {
        return RecordOf(cached);
      }
      var candidate := envelope.value.record;
      tombstones := Joined(tombstones, Live(envelope.value.tombstones, now));
      var isUsable := candidate.Some? && candidate.value.IsUsable(now);
      tombstones := TrimmedTombstones(
        tombstones, now, if isUsable && candidate.value.token in tombstones then Some(candidate.value.token) else None);
      last := envelope;
      DropUnusable(now);
      if !isUsable || candidate.value.token in tombstones {
        return RecordOf(cached);
      }
      if ShouldInstall(cached, candidate.value, envelope.value.revision) {
        cached := Some(Cached(candidate.value, Some(envelope.value.revision)));
      }
      return RecordOf(cached);
    }

    method MarkRejectedLocally(token: Token, known: Option<Record>, now: int) returns (rejected: Option<Record>)
      modifies this
      ensures Now() == Rejected(old(Now()), token, known, now)
      ensures rejected == KnownRecord(old(Now()), token, known)
    {
      hide Trimmed;
      var matching := if cached.Some? && cached.value.record.token == token then Some(cached.value.record) else None;
      rejected := known.Or(matching);
      var tombstone := Tombstone(now, RejectionExpiry(rejected, now));
      if rejected.Some? {
        var previous := if token in tombstones then tombstones[token].rejectedAt else now;
        tombstones := tombstones[token := tombstone.(rejectedAt := Max(previous, now))];
      } else {
        tombstones := Merged(tombstones, token, tombstone);
      }
      tombstones := TrimmedTombstones(tombstones, now, Some(token));
      if matching.Some? {
        cached := None;
      }
    }

    /** The record that is cached afterwards; None when the new one is rejected. */
    method RecordRefreshSuccess(record: Record, now: int) returns (installed: Option<Record>)
      modifies this
      ensures Now() == Refreshed(old(Now()), record, now)
      ensures installed == if record.token in tombstones then None else RecordOf(cached)
    {
      hide Trimmed;
      Clean(now);
      if record.token in tombstones {
        return None;
      }
      if !(cached.Some? && cached.value.record.token != record.token
           && cached.value.record.issuedAt >= record.issuedAt) {
        var revision: Option<nat> := None;
        if cached.Some? && cached.value.record.token == record.token {
          revision := cached.value.revision;
        }
        cached := Some(Cached(record, revision));
      }
      return RecordOf(cached);
    }

    method PersistenceSnapshot(now: int) returns (revision: nat, envelope: Option<Envelope>, listed: Tombstones)
      modifies this`tombstones
      ensures Now() == Snapshotted(old(Now()), now)
      ensures revision == Now().Revision() && envelope == last && listed == tombstones
    {
      hide Trimmed;
      tombstones := TrimmedTombstones(tombstones, now, None);
      return if last.Some? then last.value.revision else 0, last, tombstones;
    }

    /** Stores the later of a fetched record and the stored one, if that is still good; what is then in use is returned,
        and None exactly when the fetched one has been rejected or the revisions are exhausted. A fetched record is used
        as it is while the store cannot be read or written. */
    method PersistFetchedRecord(store: Store, fetched: Record, now: int, loads: bool, saves: bool)
      returns (used: Option<Record>)
      modifies this, store
      ensures (Now(), store.contents)
           == if loads then Persisted(old(Now()), old(store.contents), ToStoreFetched(fetched), saves, now)
              else (old(Now()), old(store.contents))
      ensures var read := Snapshotted(ReadInto(old(Now()), old(store.contents), now), now);
        && (used.None? <==> loads && (fetched.token in read.tombstones || read.Revision() >= UINT64_MAX))
        && (used.Some? && loads && saves ==> IsLaterOf(used, GoodRecord(read.last, read.tombstones, now), fetched))
      ensures used.Some? && !(loads && saves) ==> used == Some(fetched)
      ensures used.None? ==> store.contents == old(store.contents)
      ensures store.contents != old(store.contents) ==>
        used.Some? && store.contents.Readable().Some? && used == store.contents.Readable().value.record
    {
      hide Trimmed, MergedWith, Record.IsUsable;
      if !loads {
        return Some(fetched);
      }
      if store.contents.Holds? {
        var usable := MergePersistedState(store.contents.envelope, now);
      }
      var revision, envelope, listed := PersistenceSnapshot(now);
      if fetched.token in listed || revision >= UINT64_MAX {
        return None;
      }
      var stored: Option<Record> := None;
      if envelope.Some? && envelope.value.record.Some? && envelope.value.record.value.IsUsable(now)
         && envelope.value.record.value.token !in listed {
        stored := envelope.value.record;
      }
      var record := fetched;
      if stored.Some? && stored.value.issuedAt >= fetched.issuedAt {
        record := stored.value;
      }
      if !saves {
        return Some(fetched);
      }
      var saved := Envelope(revision + 1, Some(record), listed);
      store.contents := Holds(Some(saved));
      var usable := MergePersistedState(Some(saved), now);
      return Some(record);
    }

    /** Stores the best record with the rejections, once what could be read has been merged. */
    method SaveRejectionEnvelope(store: Store, now: int, saves: bool) returns (saved: bool)
      modifies this, store
      ensures var (after, stored) := SavedFrom(old(Now()), old(store.contents).Readable(), ToStoreBest, saves, now);
        Now() == after && store.contents == old(store.contents).With(stored)
      ensures saved <==> saves && old(Now()).Revision() < UINT64_MAX
    {
      hide Trimmed, MergedWith, BestPersistable;
      var revision, envelope, listed := PersistenceSnapshot(now);
      if revision >= UINT64_MAX {
        return false;
      }
      var record := BestPersistable(Now(), now);
      if !saves {
        return false;
      }
      store.contents := Holds(Some(Envelope(revision + 1, record, listed)));
      var usable := MergePersistedState(store.contents.envelope, now);
      return true;
    }

    /** Nothing is done unless the lock has been acquired and the store can be read. */
    method PersistRejection(store: Store, token: Token, known: Option<Record>, now: int, loads: bool, saves: bool)
      returns (saved: bool)
      modifies this, store
      ensures (Now(), store.contents)
           == if loads then RejectionPersisted(old(Now()), old(store.contents), token, known, saves, now)
              else (old(Now()), old(store.contents))
      ensures saved ==> loads && saves
    {
      hide Trimmed, MergedWith, Rejected, SavedFrom;
      if !loads {
        return false;
      }
      if store.contents.Holds? {
        var usable := MergePersistedState(store.contents.envelope, now);
      }
      var revision, envelope, listed := PersistenceSnapshot(now);
      var matching: Option<Record> := None;
      if envelope.Some? && envelope.value.record.Some? && envelope.value.record.value.token == token {
        matching := envelope.value.record;
      }
      var rejected := MarkRejectedLocally(token, known.Or(matching), now);
      saved := SaveRejectionEnvelope(store, now, saves);
    }

    method PersistBestAvailableState(store: Store, now: int, loads: bool, saves: bool) returns (persisted: bool)
      modifies this, store
      ensures (Now(), store.contents)
           == if loads then BestPersisted(old(Now()), old(store.contents), saves, now)
              else (old(Now()), old(store.contents))
      ensures persisted ==> loads && (saves || store.contents == old(store.contents))
    {
      hide Trimmed, MergedWith, BestPersistable;
      if !loads {
        return false;
      }
      if store.contents.Holds? {
        var usable := MergePersistedState(store.contents.envelope, now);
      }
      ghost var loaded := Now();
      var revision, envelope, listed := PersistenceSnapshot(now);
      if store.contents.Holds? && envelope.Some? && envelope.value.record == BestPersistable(Now(), now)
         && envelope.value.tombstones == listed {
        return true;
      }
      TrimmingTwice(loaded.tombstones, now, None);
      persisted := SaveRejectionEnvelope(store, now, saves);
    }

    method RequiresPersistenceRepair() returns (isRequired: bool)
      ensures isRequired <==> NeedsRepair(Now())
    {
      if cached.Some? && cached.value.revision.None? {
        return true;
      }
      var stored: Tombstones := map[];
      if last.Some? {
        stored := last.value.tombstones;
      }
      if tombstones == map[] && stored == map[] {
        return false;
      }
      if tombstones != stored {
        return true;
      }
      if last.None? || last.value.record.None? {
        return false;
      }
      return last.value.record.value.token in tombstones;
    }
  }
}
