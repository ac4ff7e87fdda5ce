/** Which record a process uses: what reading the store, a refresh and a rejection make of its cache. */
module JwtUse {
  import opened Wrappers
  import opened JwtState
  import opened JwtTombstones
  import opened JwtSystem

  /** The stored record takes the place of the cached one: nothing good is cached, it is the same token, it was issued
      later, or in the same second but stored after the cached one had been. */
  predicate TakesOver(candidate: Record, revision: nat, cached: Option<Cached>) {
    || cached.None?
    || candidate.token == cached.value.record.token
    || candidate.issuedAt > cached.value.record.issuedAt
    || (&& candidate.issuedAt == cached.value.record.issuedAt
        && cached.value.revision.Some? && revision > cached.value.revision.value)
  }

  /** The cached record has neither expired nor been rejected. */
  predicate StaysGood(cached: Option<Cached>, tombstones: Tombstones, now: int) {
    cached.Some? && cached.value.record.token !in tombstones && cached.value.record.IsTimeUsable(now)
  }

  /** Reading a newer envelope: its record is used, as stored under its revision, exactly when it is good and takes over
      from a cached one that is; otherwise the cached one stays exactly as long as it is good. */
  lemma {:induction false} ReadingTakesOver(s: State, envelope: Envelope, now: int)
    requires s.last.Some? ==> envelope.revision > s.last.value.revision
    ensures var after := MergedWith(s, Some(envelope), now);
      var stays := StaysGood(s.cached, Snapshotted(s, now).tombstones, now)
        && StaysGood(s.cached, after.tombstones, now);
      var cached := if stays then s.cached else None;
      && after.last == Some(envelope)
      && after.cached
         == if && envelope.record.Some? && IsPersistable(envelope.record.value, after.tombstones, now)
               && TakesOver(envelope.record.value, envelope.revision, cached)
            then Some(Cached(envelope.record.value, Some(envelope.revision))) else cached
  {
    hide Trimmed, Joined, Live, Record.IsUsable;
  }

  /** A process with nothing cached that reads a newer envelope uses its record, if that is good. */
  lemma {:induction false} ReadingServes(s: State, envelope: Envelope, now: int)
    requires s.last.Some? ==> envelope.revision > s.last.value.revision
    requires s.cached.None? && envelope.record.Some?
    ensures var after := MergedWith(s, Some(envelope), now);
      IsPersistable(envelope.record.value, after.tombstones, now) ==>
        after.cached == Some(Cached(envelope.record.value, Some(envelope.revision)))
  {
    hide MergedWith, IsPersistable, Snapshotted;
    ReadingTakesOver(s, envelope, now);
  }

  /** Reading nothing newer only tidies up. */
  lemma {:induction false} ReadingOldTidiesUp(s: State, envelope: Option<Envelope>, now: int)
    requires envelope.Some? ==> s.last.Some? && envelope.value.revision <= s.last.value.revision
    ensures var after, tidy := MergedWith(s, envelope, now), Snapshotted(s, now);
      && after.last == s.last && after.tombstones == tidy.tombstones
      && after.cached == if StaysGood(s.cached, tidy.tombstones, now) then s.cached else None
  {
    hide Trimmed;
  }

  /** An envelope that rejects its own record, or whose record the process itself has rejected, is never used: however
      many later rejections there are, that one is kept. */
  lemma {:induction false} RejectedIsNotRead(s: State, envelope: Envelope, now: int, token: Token)
    requires s.last.Some? ==> envelope.revision > s.last.value.revision
    requires envelope.record.Some? && envelope.record.value.IsUsable(now) && envelope.record.value.token == token
    requires || (token in envelope.tombstones && envelope.tombstones[token].expiresAt > now)
             || token in Snapshotted(s, now).tombstones
    ensures var after := MergedWith(s, Some(envelope), now);
      token in after.tombstones && (after.cached.Some? ==> after.cached.value.record.token != token)
  {
    hide Rank;
    var own := Snapshotted(s, now).tombstones;
    var joined := Joined(own, Live(envelope.tombstones, now));
    assert token in Live(joined, now);
    PreservedStays(joined, now, token);
  }

  /** A refreshed record is used unless it has been rejected, or another one that is good was issued no earlier; it
      counts as stored only if that same token was. */
  lemma {:induction false} RefreshTakesOver(s: State, record: Record, now: int)
    ensures var after := Refreshed(s, record, now);
      var cached := if StaysGood(s.cached, after.tombstones, now) then s.cached else None;
      && after.last == s.last && after.tombstones == Snapshotted(s, now).tombstones
      && (record.token in after.tombstones ==> after.cached == cached)
      && (record.token !in after.tombstones && cached.Some? && cached.value.record.token != record.token ==>
            after.cached == if cached.value.record.issuedAt >= record.issuedAt then cached
                            else Some(Cached(record, None)))
      && (record.token !in after.tombstones && (cached.Some? ==> cached.value.record.token == record.token) ==>
            after.cached == Some(Cached(record, if cached.Some? then cached.value.revision else None)))
  {
    hide Trimmed;
  }

  /** A rejection takes that one token out of use, and no other. */
  lemma {:induction false} RejectionTakesOutOfUse(s: State, token: Token, known: Option<Record>, now: int)
    ensures var after := Rejected(s, token, known, now);
      && after.last == s.last
      && after.cached == if s.cached.Some? && s.cached.value.record.token == token then None else s.cached
  {
    hide RejectedTombstones;
  }

  /** The store says all that the process knows: its record has been stored, the rejections are the stored ones, and the
      stored record is not among them. */
  predicate IsFullyStored(s: State) {
    var stored := if s.last.Some? then s.last.value.tombstones else map[];
    && (s.cached.Some? ==> s.cached.value.revision.Some?)
    && s.tombstones == stored
    && (s.last.Some? && s.last.value.record.Some? ==> s.last.value.record.value.token !in s.tombstones)
  }

  lemma {:induction false} RepairIsNeededExactly(s: State)
    ensures NeedsRepair(s) <==> !IsFullyStored(s)
  {
  }

  /** A record can be used while it is issued at most five minutes ahead and has more than half a minute left, if it is
      to last for one to six hours, and says what its token says. */
  lemma {:induction false} UsableExactly(record: Record, now: int)
    requires 0 <= now <= INT64_MAX - 300
    ensures record.IsUsable(now) <==>
      && record.issuedAt <= now + 300 && record.expiresAt > now + 30
      && 3_600 <= record.expiresAt - record.issuedAt <= 21_600
      && record.token == Token(record.token.name, record.issuedAt, record.expiresAt, true)
      && IsInt64(record.issuedAt) && IsInt64(record.expiresAt)
  {
  }

  /** The better of two records of different tokens: always one of them, and it was issued later, or in the same second
      to last longer, if there is any difference. */
  lemma {:induction false} BetterIsAnOrder(a: Record, b: Record)
    ensures IsBetter(a, b) ==> !IsBetter(b, a)
    ensures a.token != b.token ==> IsBetter(a, b) || IsBetter(b, a)
    ensures IsBetter(a, b) ==> a.issuedAt >= b.issuedAt && (a.issuedAt == b.issuedAt ==> a.expiresAt >= b.expiresAt)
    ensures IsBetter(a, b) && a.issuedAt == b.issuedAt && a.expiresAt == b.expiresAt ==> a.token.name >= b.token.name
  {
  }

  /** A rejection is recorded with the time of the latest one, and until the token expires if its record is known, or as
      long as any token could be good if not; a rejection without a record never shortens an earlier one. */
  lemma {:induction false} RejectionIsRecorded(s: State, token: Token, known: Option<Record>, now: int)
    requires 0 <= now <= INT64_MAX - 21_900
    ensures var after := Rejected(s, token, known, now).tombstones;
      var isCached := s.cached.Some? && s.cached.value.record.token == token;
      var record := if known.None? && isCached then Some(s.cached.value.record) else known;
      && token in after
      && (record.Some? ==>
            after[token].expiresAt == if record.value.expiresAt > now then record.value.expiresAt else now + 1)
      && (record.None? ==>
            after[token].expiresAt
            == if token in s.tombstones && s.tombstones[token].expiresAt > now + 21_900
               then s.tombstones[token].expiresAt else now + 21_900)
      && after[token].rejectedAt
         == if token in s.tombstones && s.tombstones[token].rejectedAt > now
            then s.tombstones[token].rejectedAt else now
  {
    hide Rank;
    var record := KnownRecord(s, token, known);
    var tombstone := Tombstone(now, RejectionExpiry(record, now));
    var previous := if token in s.tombstones then s.tombstones[token].rejectedAt else now;
    var marked :=
      if record.Some? then s.tombstones[token := tombstone.(rejectedAt := Max(previous, now))]
      else Merged(s.tombstones, token, tombstone);
    PreservedStays(marked, now, token);
  }
}
