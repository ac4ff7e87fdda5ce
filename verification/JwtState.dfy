/** The state a process keeps of the shared authorization token, and what each operation does to it. Times are in whole
    seconds. The token determines when it was issued and when it expires (sections 4.1.6 and 4.1.4 of RFC 7519), and
    stands for its own digest. */
module JwtState {
  import opened Wrappers

  const MAXIMUM_CLOCK_SKEW: int := 300
  const MAXIMUM_LIFETIME: int := 21_600
  const MINIMUM_LIFETIME: int := 3_600
  const EXPIRATION_SAFETY_MARGIN: int := 30
  const MAXIMUM_TOMBSTONES: nat := 16
  const UNKNOWN_TOKEN_TOMBSTONE_LIFETIME: int := 21_900
  const INT64_MAX: int := 0x7fff_ffff_ffff_ffff
  const UINT64_MAX: nat := 0xffff_ffff_ffff_ffff

  predicate IsInt64(n: int) {
    -INT64_MAX - 1 <= n <= INT64_MAX
  }

  function Saturated(n: int): int {
    if n > INT64_MAX then INT64_MAX else n
  }

  datatype Token = Token(name: nat, iat: int, exp: int, isWellFormed: bool)

  /** The order of digests. */
  predicate Precedes(a: Token, b: Token) {
    || a.name < b.name
    || (a.name == b.name && a.iat < b.iat)
    || (a.name == b.name && a.iat == b.iat && a.exp < b.exp)
    || (a.name == b.name && a.iat == b.iat && a.exp == b.exp && !a.isWellFormed && b.isWellFormed)
  }

  datatype Record = Record(token: Token, issuedAt: int, expiresAt: int) {
    predicate IsStructurallyValid(now: int) {
      && IsInt64(issuedAt) && IsInt64(expiresAt)
      && expiresAt > issuedAt && IsInt64(expiresAt - issuedAt)
      && MINIMUM_LIFETIME <= expiresAt - issuedAt <= MAXIMUM_LIFETIME
      && expiresAt > now
      && token.isWellFormed && token.iat == issuedAt && token.exp == expiresAt
    }

    predicate IsTimeUsable(now: int) {
      && IsInt64(now + MAXIMUM_CLOCK_SKEW) && IsInt64(now + EXPIRATION_SAFETY_MARGIN)
      && issuedAt <= now + MAXIMUM_CLOCK_SKEW
      && expiresAt > now + EXPIRATION_SAFETY_MARGIN
    }

    predicate IsUsable(now: int) {
      IsStructurallyValid(now) && IsTimeUsable(now)
    }
  }

  datatype Tombstone = Tombstone(rejectedAt: int, expiresAt: int) {
    predicate IsLive(now: int) {
      expiresAt > now
    }
  }

  type Tombstones = map<Token, Tombstone>

  datatype Envelope = Envelope(revision: nat, record: Option<Record>, tombstones: Tombstones)

  datatype Cached = Cached(record: Record, revision: Option<nat>)

  /** The part of a process's state that decides which token it uses and what it writes. */
  datatype State = State(cached: Option<Cached>, tombstones: Tombstones, last: Option<Envelope>) {
    function Revision(): nat {
      if last.Some? then last.value.revision else 0
    }
  }

  function Fresh(): State {
    State(None, map[], None)
  }

  // ----- tombstones

  function Max(a: int, b: int): int {
    if a < b then b else a
  }

  function Combined(a: Tombstone, b: Tombstone): Tombstone {
    Tombstone(Max(a.rejectedAt, b.rejectedAt), Max(a.expiresAt, b.expiresAt))
  }

  function Merged(tombstones: Tombstones, token: Token, tombstone: Tombstone): Tombstones {
    tombstones[token := if token in tombstones then Combined(tombstones[token], tombstone) else tombstone]
  }

  function Live(tombstones: Tombstones, now: int): Tombstones {
    map token | token in tombstones && tombstones[token].IsLive(now) :: tombstones[token]
  }

  function Joined(tombstones: Tombstones, incoming: Tombstones): Tombstones {
    map token | token in tombstones.Keys + incoming.Keys ::
      if token !in incoming then tombstones[token]
      else if token !in tombstones then incoming[token]
      else Combined(tombstones[token], incoming[token])
  }

  /** Later rejections come first. */
  predicate Before(tombstones: Tombstones, a: Token, b: Token)
    requires a in tombstones && b in tombstones
  {
    || tombstones[a].rejectedAt > tombstones[b].rejectedAt
    || (tombstones[a].rejectedAt == tombstones[b].rejectedAt && Precedes(a, b))
  }

  /** How many of `tokens` come before `token`. */
  function Rank(tombstones: Tombstones, tokens: set<Token>, token: Token): nat
    requires tokens <= tombstones.Keys && token in tombstones
  {
    |set other | other in tokens && Before(tombstones, other, token)|
  }

  function Contenders(live: Tombstones, preserved: Option<Token>): set<Token> {
    if preserved.Some? then live.Keys - {preserved.value} else live.Keys
  }

  function Room(live: Tombstones, preserved: Option<Token>): nat {
    if preserved.Some? && preserved.value in live then MAXIMUM_TOMBSTONES - 1 else MAXIMUM_TOMBSTONES
  }

  /** The live tombstones: the preserved one, and as many of the latest rejections as there is room for. */
  function Trimmed(tombstones: Tombstones, now: int, preserved: Option<Token>): Tombstones {
    var live := Live(tombstones, now);
    map token | token in live && (preserved == Some(token)
                                  || Rank(live, Contenders(live, preserved), token) < Room(live, preserved))
      :: live[token]
  }

  // ----- operations

  /** A cached record goes when it is rejected or no longer usable by time. */
  function Kept(cached: Option<Cached>, tombstones: Tombstones, now: int): Option<Cached> {
    if cached.Some? && cached.value.record.token !in tombstones && cached.value.record.IsTimeUsable(now)
    then cached else None
  }

  function Cleaned(s: State, now: int): State {
    var tombstones := Trimmed(s.tombstones, now, None);
    s.(tombstones := tombstones, cached := Kept(s.cached, tombstones, now))
  }

  predicate IsNews(s: State, envelope: Envelope) {
    s.last.Some? ==> envelope.revision > s.last.value.revision
  }

  /** The tombstones after an envelope has been read: its rejection of its own record is never crowded out. */
  function JoinedTombstones(s: State, envelope: Envelope, now: int): Tombstones {
    var joined := Joined(s.tombstones, Live(envelope.tombstones, now));
    var rejected :=
      if envelope.record.Some? && envelope.record.value.IsUsable(now) && envelope.record.value.token in joined
      then Some(envelope.record.value.token) else None;
    Trimmed(joined, now, rejected)
  }

  predicate ShouldInstall(current: Option<Cached>, candidate: Record, revision: nat) {
    current.Some? ==>
      || candidate.token == current.value.record.token
      || candidate.issuedAt > current.value.record.issuedAt
      || (candidate.issuedAt == current.value.record.issuedAt
          && current.value.revision.Some? && revision > current.value.revision.value)
  }

  /** Reading the store. */
  function MergedWith(s: State, envelope: Option<Envelope>, now: int): State {
    var cleaned := Cleaned(s, now);
    if envelope.None? || !IsNews(cleaned, envelope.value) then cleaned
    else
      var tombstones := JoinedTombstones(cleaned, envelope.value, now);
      var kept := Kept(cleaned.cached, tombstones, now);
      var candidate := envelope.value.record;
      var installs :=
        && candidate.Some? && candidate.value.IsUsable(now) && candidate.value.token !in tombstones
        && ShouldInstall(kept, candidate.value, envelope.value.revision);
      State(if installs then Some(Cached(candidate.value, Some(envelope.value.revision))) else kept,
            tombstones, envelope)
  }

  function KnownRecord(s: State, token: Token, known: Option<Record>): Option<Record> {
    known.Or(if s.cached.Some? && s.cached.value.record.token == token then Some(s.cached.value.record) else None)
  }

  function RejectionExpiry(known: Option<Record>, now: int): int {
    Max(if known.Some? then known.value.expiresAt else Saturated(now + UNKNOWN_TOKEN_TOMBSTONE_LIFETIME), now + 1)
  }

  /** A rejection with a known record sets the tombstone's expiry; one without only extends it. */
  function RejectedTombstones(s: State, token: Token, known: Option<Record>, now: int): Tombstones {
    var record := KnownRecord(s, token, known);
    var tombstone := Tombstone(now, RejectionExpiry(record, now));
    var previous := if token in s.tombstones then s.tombstones[token].rejectedAt else now;
    Trimmed(if record.Some? then s.tombstones[token := tombstone.(rejectedAt := Max(previous, now))]
            else Merged(s.tombstones, token, tombstone),
            now, Some(token))
  }

  function Rejected(s: State, token: Token, known: Option<Record>, now: int): State {
    s.(tombstones := RejectedTombstones(s, token, known, now),
       cached := if s.cached.Some? && s.cached.value.record.token == token then None else s.cached)
  }

  /** Taking a record the broker has issued, unless it is rejected or a newer one is cached. */
  function Refreshed(s: State, record: Record, now: int): State {
    var cleaned := Cleaned(s, now);
    if record.token in cleaned.tombstones then cleaned
    else if && cleaned.cached.Some? && cleaned.cached.value.record.token != record.token
            && cleaned.cached.value.record.issuedAt >= record.issuedAt then cleaned
    else
      var revision :=
        if cleaned.cached.Some? && cleaned.cached.value.record.token == record.token
        then cleaned.cached.value.revision else None;
      cleaned.(cached := Some(Cached(record, revision)))
  }

  function Snapshotted(s: State, now: int): State {
    s.(tombstones := Trimmed(s.tombstones, now, None))
  }

  // ----- envelopes

  predicate IsPersistable(record: Record, tombstones: Tombstones, now: int) {
    record.IsUsable(now) && record.token !in tombstones
  }

  predicate IsBetter(a: Record, b: Record) {
    || a.issuedAt > b.issuedAt
    || (a.issuedAt == b.issuedAt && a.expiresAt > b.expiresAt)
    || (a.issuedAt == b.issuedAt && a.expiresAt == b.expiresAt && Precedes(b.token, a.token))
  }

  /** The better of the stored and the cached record that may be stored at all. */
  function BestPersistable(s: State, now: int): Option<Record> {
    var stored :=
      if s.last.Some? && s.last.value.record.Some? && IsPersistable(s.last.value.record.value, s.tombstones, now)
      then s.last.value.record else None;
    var cached :=
      if s.cached.Some? && IsPersistable(s.cached.value.record, s.tombstones, now)
      then Some(s.cached.value.record) else None;
    if stored.None? then cached
    else if cached.None? then stored
    else if IsBetter(cached.value, stored.value) then cached else stored
  }

  /** What to store after a fetch; None when the fetched token is rejected or the revisions are exhausted. */
  function FetchedEnvelope(s: State, fetched: Record, now: int): Option<Envelope> {
    if fetched.token in s.tombstones || s.Revision() >= UINT64_MAX then None
    else
      var stored := if s.last.Some? then s.last.value.record else None;
      var keepsStored :=
        stored.Some? && IsPersistable(stored.value, s.tombstones, now) && stored.value.issuedAt >= fetched.issuedAt;
      Some(Envelope(s.Revision() + 1, if keepsStored then stored else Some(fetched), s.tombstones))
  }

  function BestEnvelope(s: State, now: int): Option<Envelope> {
    if s.Revision() >= UINT64_MAX then None
    else Some(Envelope(s.Revision() + 1, BestPersistable(s, now), s.tombstones))
  }

  /** The stored envelope already says all there is to say. */
  predicate IsStoredAlready(s: State, now: int) {
    s.last.Some? && s.last.value.record == BestPersistable(s, now) && s.last.value.tombstones == s.tombstones
  }

  /** Something has not been stored: the cached record, a rejection, or the rejection of the stored record. */
  predicate NeedsRepair(s: State) {
    var stored := if s.last.Some? then s.last.value.tombstones else map[];
    if s.cached.Some? && s.cached.value.revision.None? then true
    else if s.tombstones == map[] && stored == map[] then false
    else if s.tombstones != stored then true
    else s.last.value.record.Some? && s.last.value.record.value.token in s.tombstones
  }
}
