/** What trimming keeps: the latest rejections, sixteen at most, and all of them when there are no more than that. */
module JwtTombstones {
  import opened Wrappers
  import opened JwtState

  lemma {:induction false} BeforeIsAnOrder(tombstones: Tombstones, a: Token, b: Token, c: Token)
    requires a in tombstones && b in tombstones && c in tombstones
    ensures !Before(tombstones, a, a)
    ensures a != b ==> Before(tombstones, a, b) || Before(tombstones, b, a)
    ensures Before(tombstones, a, b) ==> !Before(tombstones, b, a)
    ensures Before(tombstones, a, b) && Before(tombstones, b, c) ==> Before(tombstones, a, c)
  {
  }

  predicate IsLast(tombstones: Tombstones, tokens: set<Token>, last: Token)
    requires tokens <= tombstones.Keys
  {
    last in tokens && forall other :: other in tokens && other != last ==> Before(tombstones, other, last)
  }

  lemma {:induction false} LastExists(tombstones: Tombstones, tokens: set<Token>) returns (last: Token)
    requires tokens <= tombstones.Keys && tokens != {}
    ensures IsLast(tombstones, tokens, last)
    decreases tokens
  {
    var token :| token in tokens;
    last := token;
    if tokens != {token} {
      var other := LastExists(tombstones, tokens - {token});
      BeforeIsAnOrder(tombstones, token, other, token);
      if Before(tombstones, token, other) {
        last := other;
      } else {
        forall earlier | earlier in tokens && earlier != token
          ensures Before(tombstones, earlier, token)
        {
          BeforeIsAnOrder(tombstones, earlier, other, token);
        }
      }
    }
  }

  predicate IsFirst(tombstones: Tombstones, tokens: set<Token>, first: Token)
    requires tokens <= tombstones.Keys
  {
    first in tokens && forall other :: other in tokens && other != first ==> Before(tombstones, first, other)
  }

  lemma {:induction false} FirstExists(tombstones: Tombstones, tokens: set<Token>) returns (first: Token)
    requires tokens <= tombstones.Keys && tokens != {}
    ensures IsFirst(tombstones, tokens, first)
    decreases tokens
  {
    var token :| token in tokens;
    first := token;
    if tokens != {token} {
      var other := FirstExists(tombstones, tokens - {token});
      BeforeIsAnOrder(tombstones, token, other, token);
      if Before(tombstones, other, token) {
        first := other;
      } else {
        forall later | later in tokens && later != token
          ensures Before(tombstones, token, later)
        {
          BeforeIsAnOrder(tombstones, token, other, later);
        }
      }
    }
  }

  function Earlier(tombstones: Tombstones, tokens: set<Token>, token: Token): set<Token>
    requires tokens <= tombstones.Keys && token in tombstones
  {
    set other | other in tokens && Before(tombstones, other, token)
  }

  function First(tombstones: Tombstones, tokens: set<Token>, room: nat): set<Token>
    requires tokens <= tombstones.Keys
  {
    set token | token in tokens && Rank(tombstones, tokens, token) < room
  }

  /** Removing the last token changes no other's rank, and its own is the number of the others. */
  lemma {:induction false} RankWithoutLast(tombstones: Tombstones, tokens: set<Token>, last: Token, token: Token)
    requires tokens <= tombstones.Keys && IsLast(tombstones, tokens, last) && token in tokens
    ensures token != last ==> Rank(tombstones, tokens, token) == Rank(tombstones, tokens - {last}, token)
    ensures Rank(tombstones, tokens, last) == |tokens| - 1
  {
    BeforeIsAnOrder(tombstones, token, last, last);
    assert Earlier(tombstones, tokens, last) == tokens - {last};
    assert Rank(tombstones, tokens, last) == |Earlier(tombstones, tokens, last)|;
    if token != last {
      assert Earlier(tombstones, tokens, token) == Earlier(tombstones, tokens - {last}, token);
      assert Rank(tombstones, tokens, token) == |Earlier(tombstones, tokens, token)|;
      assert Rank(tombstones, tokens - {last}, token) == |Earlier(tombstones, tokens - {last}, token)|;
    }
  }

  /** As many tokens rank below `room` as there is room for, or as there are. */
  lemma {:induction false} FirstFill(tombstones: Tombstones, tokens: set<Token>, room: nat)
    requires tokens <= tombstones.Keys
    ensures |First(tombstones, tokens, room)| == if |tokens| < room then |tokens| else room
    decreases tokens
  {
    if tokens == {} {
      assert First(tombstones, tokens, room) == {};
    } else {
      var last := LastExists(tombstones, tokens);
      var others := tokens - {last};
      FirstFill(tombstones, others, room);
      forall token | token in tokens
        ensures token != last ==> Rank(tombstones, tokens, token) == Rank(tombstones, others, token)
        ensures Rank(tombstones, tokens, last) == |others|
      {
        RankWithoutLast(tombstones, tokens, last, token);
      }
      if |others| < room {
        assert First(tombstones, tokens, room) == First(tombstones, others, room) + {last};
      } else {
        assert First(tombstones, tokens, room) == First(tombstones, others, room);
      }
    }
  }

  /** Trimming leaves sixteen tombstones, or all that are live if they are fewer. */
  lemma {:induction false} TrimmedFill(tombstones: Tombstones, now: int, preserved: Option<Token>)
    ensures var live := Live(tombstones, now);
      |Trimmed(tombstones, now, preserved)| == if |live| < 16 then |live| else 16
  {
    hide Rank, Before;
    var live := Live(tombstones, now);
    var contenders, room := Contenders(live, preserved), Room(live, preserved);
    var trimmed := Trimmed(tombstones, now, preserved);
    FirstFill(live, contenders, room);
    var first := First(live, contenders, room);
    assert |live| == |live.Keys| && |trimmed| == |trimmed.Keys|;
    if preserved.Some? && preserved.value in live {
      assert live.Keys == contenders + {preserved.value};
      assert trimmed.Keys == first + {preserved.value};
    } else {
      assert contenders == live.Keys;
      assert trimmed.Keys == first;
    }
  }

  lemma {:induction false} SubmapOfSameSize(small: Tombstones, big: Tombstones)
    requires small.Keys <= big.Keys && |small| == |big|
    requires forall token :: token in small ==> small[token] == big[token]
    ensures small == big
  {
    assert |small.Keys| == |small| && |big.Keys| == |big|;
    var extra := big.Keys - small.Keys;
    if extra != {} {
      var token :| token in extra;
      SizeGrows(small.Keys, big.Keys, token);
    }
    assert big.Keys == small.Keys + extra;
  }

  lemma {:induction false} SizeGrows(small: set<Token>, big: set<Token>, token: Token)
    requires small <= big - {token} && token in big
    ensures |small| < |big|
  {
    SubsetIsNoLarger(small, big - {token});
  }

  lemma {:induction false} SubsetIsNoLarger(small: set<Token>, big: set<Token>)
    requires small <= big
    ensures |small| <= |big|
    decreases small
  {
    if small != {} {
      var token :| token in small;
      SubsetIsNoLarger(small - {token}, big - {token});
    }
  }

  /** Nothing but expired tombstones goes while no more than sixteen are live. */
  lemma {:induction false} NothingLiveIsTrimmed(tombstones: Tombstones, now: int, preserved: Option<Token>)
    requires |Live(tombstones, now)| <= MAXIMUM_TOMBSTONES
    ensures Trimmed(tombstones, now, preserved) == Live(tombstones, now)
  {
    TrimmedFill(tombstones, now, preserved);
    SubmapOfSameSize(Trimmed(tombstones, now, preserved), Live(tombstones, now));
  }

  /** With room for all, exactly what has not expired stays, as it is. */
  lemma {:induction false} WithRoomTheLiveStay(tombstones: Tombstones, now: int, preserved: Option<Token>, token: Token)
    requires |set other | other in tombstones && tombstones[other].expiresAt > now| <= 16
    ensures token in Trimmed(tombstones, now, preserved)
       <==> token in tombstones && tombstones[token].expiresAt > now
    ensures token in Trimmed(tombstones, now, preserved) ==>
      Trimmed(tombstones, now, preserved)[token] == tombstones[token]
  {
    hide Trimmed;
    var live := Live(tombstones, now);
    assert live.Keys == set other | other in tombstones && tombstones[other].expiresAt > now;
    assert |live| == |live.Keys|;
    NothingLiveIsTrimmed(tombstones, now, preserved);
  }

  /** Joining has every tombstone of either side, and takes the later expiry and the later rejection of two. */
  lemma {:induction false} JoiningTakesTheLater(a: Tombstones, b: Tombstones, token: Token)
    ensures token in Joined(a, b) <==> token in a || token in b
    ensures token in a && token !in b ==> Joined(a, b)[token] == a[token]
    ensures token in b && token !in a ==> Joined(a, b)[token] == b[token]
    ensures token in a && token in b ==>
      var joined := Joined(a, b)[token];
      && joined.expiresAt >= a[token].expiresAt && joined.expiresAt >= b[token].expiresAt
      && joined.rejectedAt >= a[token].rejectedAt && joined.rejectedAt >= b[token].rejectedAt
      && joined.expiresAt in {a[token].expiresAt, b[token].expiresAt}
      && joined.rejectedAt in {a[token].rejectedAt, b[token].rejectedAt}
  {
  }

  /** What is trimmed gives way to later rejections only. */
  lemma {:induction false} LatestRejectionsStay(tombstones: Tombstones, now: int, preserved: Option<Token>,
                                                kept: Token, other: Token)
    requires kept in Trimmed(tombstones, now, preserved) && preserved != Some(kept)
    requires other in Live(tombstones, now) && Before(tombstones, other, kept)
    ensures other in Trimmed(tombstones, now, preserved)
  {
    var live := Live(tombstones, now);
    var contenders := Contenders(live, preserved);
    forall token | token in Earlier(live, contenders, other)
      ensures token in Earlier(live, contenders, kept)
    {
      BeforeIsAnOrder(live, token, other, kept);
    }
    SubsetIsNoLarger(Earlier(live, contenders, other), Earlier(live, contenders, kept));
    assert Rank(live, contenders, other) == |Earlier(live, contenders, other)|;
    assert Rank(live, contenders, kept) == |Earlier(live, contenders, kept)|;
  }

  /** So nothing that goes was rejected later than anything that stays; of two rejected at the same time, the one with
      the smaller digest stays. */
  lemma {:induction false} TrimmedWereRejectedEarlier(tombstones: Tombstones, now: int, preserved: Option<Token>,
                                                      kept: Token, gone: Token)
    requires kept in Trimmed(tombstones, now, preserved) && preserved != Some(kept)
    requires gone in tombstones && tombstones[gone].expiresAt > now && gone !in Trimmed(tombstones, now, preserved)
    ensures kept in tombstones && tombstones[gone].rejectedAt <= tombstones[kept].rejectedAt
    ensures tombstones[gone].rejectedAt == tombstones[kept].rejectedAt ==> kept.name <= gone.name
  {
    hide Trimmed;
    TrimmedAreLive(tombstones, now, preserved, kept);
    if Before(tombstones, gone, kept) {
      LatestRejectionsStay(tombstones, now, preserved, kept, gone);
    }
  }

  lemma {:induction false} TrimmedAreLive(tombstones: Tombstones, now: int, preserved: Option<Token>, token: Token)
    requires token in Trimmed(tombstones, now, preserved)
    ensures token in tombstones && tombstones[token].expiresAt > now
  {
  }

  /** A rejection that is being recorded is never trimmed by the others. */
  lemma {:induction false} PreservedStays(tombstones: Tombstones, now: int, token: Token)
    requires token in Live(tombstones, now)
    ensures token in Trimmed(tombstones, now, Some(token))
    ensures Trimmed(tombstones, now, Some(token))[token] == tombstones[token]
  {
  }

  /** Trimming again at the same time changes nothing. */
  lemma {:induction false} TrimmingTwice(tombstones: Tombstones, now: int, preserved: Option<Token>)
    ensures Trimmed(Trimmed(tombstones, now, preserved), now, None) == Trimmed(tombstones, now, preserved)
  {
    var trimmed := Trimmed(tombstones, now, preserved);
    assert Live(trimmed, now) == trimmed;
    TrimmedFill(tombstones, now, preserved);
    NothingLiveIsTrimmed(trimmed, now, None);
  }

  /** Reading an envelope shortens no tombstone and predates no rejection, of the state's own or of the envelope's. */
  lemma {:induction false} JoiningOnlyExtends(s: State, envelope: Envelope, now: int, token: Token)
    requires token in JoinedTombstones(s, envelope, now)
    ensures var joined := JoinedTombstones(s, envelope, now)[token];
      && joined.IsLive(now)
      && (token in s.tombstones ==>
            joined.expiresAt >= s.tombstones[token].expiresAt && joined.rejectedAt >= s.tombstones[token].rejectedAt)
      && (token in Live(envelope.tombstones, now) ==>
            && joined.expiresAt >= envelope.tombstones[token].expiresAt
            && joined.rejectedAt >= envelope.tombstones[token].rejectedAt)
  {
    hide Rank;
  }
}
