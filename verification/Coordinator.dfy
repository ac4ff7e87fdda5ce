/** Running the reducer's effects. Outputs and operations may call back before they return, so the loop over the
    effects of one event can be interrupted by those of another; each step of the loop is a step here. */
module Coordinator {
  import opened Wrappers
  import opened Fees
  import opened FeeResolution
  import opened ApprovalState
  import opened Edits
  import opened ApprovalRuns

  /** A started operation: whether it has returned its cancellation, and what became of it. */
  datatype Started = Started(token: Token, returned: bool, cancelled: bool, delivered: bool)

  /** A loop with effects still to run, or an operation that has been called and has not returned. */
  datatype Frame = Effects(rest: seq<Effect>) | Operation(request: nat)

  datatype World = World(reducer: State, active: Option<nat>, requests: seq<Started>, stack: seq<Frame>)

  /** The cancellation of a request is at hand only once its operation has returned. */
  function CancelActive(w: World): World {
    if w.active.None? || w.active.value >= |w.requests| then w.(active := None)
    else
      var request := w.requests[w.active.value];
      w.(active := None,
         requests := w.requests[w.active.value := request.(cancelled := request.cancelled || request.returned)])
  }

  function ClearActive(w: World, token: Token): World {
    if w.active.None? || w.active.value >= |w.requests| || w.requests[w.active.value].token != token then w
    else
      var request := w.requests[w.active.value];
      w.(active := None, requests := w.requests[w.active.value := request.(delivered := true)])
  }

  predicate IsImmediate(effect: Effect) {
    effect.CancelActiveRequest? || effect.ClearActiveRequest?
  }

  function Immediately(w: World, effect: Effect): World {
    match effect
    case CancelActiveRequest => CancelActive(w)
    case ClearActiveRequest(token) => ClearActive(w, token)
    case _ => w
  }

  function Push(w: World, effects: seq<Effect>): World {
    if effects == [] then w else w.(stack := w.stack + [Effects(effects)])
  }

  /** Nothing comes between an event and the cancellation or clearing it begins with. */
  function Send(w: World, event: Event): World {
    var result := Step(w.reducer, event);
    var after := w.(reducer := result.state);
    if result.effects != [] && IsImmediate(result.effects[0]) then
      Push(Immediately(after, result.effects[0]), result.effects[1..])
    else Push(after, result.effects)
  }

  predicate IsRun(effect: Effect) {
    effect.RunPreparation? || effect.RunPreflight?
  }

  function Top(w: World): Frame
    requires w.stack != []
  {
    w.stack[|w.stack| - 1]
  }

  function Popped(w: World): World
    requires w.stack != []
  {
    w.(stack := w.stack[..|w.stack| - 1])
  }

  /** An operation starts only while its token is current. */
  function Run(w: World, token: Token): World {
    if !w.reducer.IsCurrent(token) then w
    else w.(active := Some(|w.requests|), requests := w.requests + [Started(token, false, false, false)],
            stack := w.stack + [Operation(|w.requests|)])
  }

  function Proceed(w: World): World
    requires w.stack != [] && Top(w).Effects? && Top(w).rest != []
  {
    var effect, rest := Top(w).rest[0], Top(w).rest[1..];
    var after := Push(Popped(w), rest);
    if IsRun(effect) then Run(after, effect.token) else Immediately(after, effect)
  }

  /** The cancellation an operation returns is kept if its request is still the active one, and used up if not. */
  function Return(w: World, id: nat): World
    requires w.stack != []
  {
    if id >= |w.requests| then Popped(w)
    else
      var request := w.requests[id].(returned := true);
      Popped(w).(requests := w.requests[id := if w.active == Some(id) then request else request.(cancelled := true)])
  }

  datatype Move = Sends(event: Event) | Continues

  function Next(w: World, move: Move): World {
    if move.Sends? then Send(w, move.event)
    else if w.stack == [] then w
    else
      match Top(w)
      case Effects(rest) => if rest == [] then Popped(w) else Proceed(w)
      case Operation(request) => Return(w, request)
  }

  function Runs(w: World, moves: seq<Move>): World
    decreases |moves|
  {
    if moves == [] then w else Next(Runs(w, moves[..|moves| - 1]), moves[|moves| - 1])
  }

  // ----- the order of effects

  /** An event's effects: cancelling or clearing comes first, starting an operation last. */
  predicate AreOrdered(effects: seq<Effect>) {
    && (forall i :: 0 < i < |effects| ==> !IsImmediate(effects[i]))
    && (forall i :: 0 <= i < |effects| - 1 ==> !IsRun(effects[i]))
    && (forall i :: 0 <= i < |effects| && IsRun(effects[i]) ==> effects[i].token.kind != ForAuthentication)
  }

  lemma {:induction false} EffectsAreOrdered(s: State, event: Event)
    ensures AreOrdered(Step(s, event).effects)
  {
    hide Step;
    ImmediateComesFirst(s, event);
    OnlyTheLastEffectCounts(s, event);
    var effects := Step(s, event).effects;
    forall i | 0 <= i < |effects| && IsRun(effects[i])
      ensures i == |effects| - 1 && effects[i].token.kind != ForAuthentication
    {
      assert TokenOf(effects[i]).Some?;
      RunsAreNotAuthentications(s, event);
    }
  }

  lemma {:induction false} ImmediateComesFirst(s: State, event: Event)
    ensures var effects := Step(s, event).effects;
      forall i :: 0 < i < |effects| ==> !IsImmediate(effects[i])
  {
    hide ApplyEdit, SetFeeForSpeed, Estimate.ApplyBaseFeeContext, Transaction.IsReadyForApproval, State.CanEdit;
    hide State.ToSnapshot, Transaction.DecimalNonce, Estimate.SuggestedFee, State.IsCurrentAlert, State.IsCurrent;
  }

  lemma {:induction false} RunsAreNotAuthentications(s: State, event: Event)
    ensures var last := Last(Step(s, event).effects);
      last.Some? && IsRun(last.value) ==> last.value.token.kind != ForAuthentication
  {
    hide Step;
    AsksForTheNext(s, event);
  }

  /** An event that starts an operation has cancelled first. */
  lemma {:induction false} CancelsBeforeStarting(s: State, event: Event)
    requires var last := Last(Step(s, event).effects); last.Some? && IsRun(last.value)
    ensures |Step(s, event).effects| > 1 && Step(s, event).effects[0].CancelActiveRequest?
  {
    hide Step;
    AsksForTheNext(s, event);
  }

  /** An event that leaves attempt and phase as they are neither cancels nor clears. */
  lemma {:induction false} QuietEventsSettleNothing(s: State, event: Event)
    ensures var result := Step(s, event);
      (result.state.attempt == s.attempt && result.state.phase == s.phase ==>
            result.effects == [] || !IsImmediate(result.effects[0]))
  {
    hide ApplyEdit, SetFeeForSpeed, Estimate.ApplyBaseFeeContext, Transaction.IsReadyForApproval, State.CanEdit;
    hide State.ToSnapshot, Transaction.DecimalNonce, Estimate.SuggestedFee;
  }

  // ----- what every step keeps

  /** The phases in which a request may be active: a preparation goes on updating a ready transaction. */
  predicate MayBeActive(s: State, token: Token) {
    && s.HoldsAttempt(token.attempt, token.transactionId)
    && (match token.kind
        case ForPreparation => s.phase == Preparing || s.phase == Ready
        case ForAuthentication => false
        case ForPreflight => s.phase == Preflighting)
  }

  /** An event either leaves the active request in its place or begins by cancelling or clearing it. */
  lemma {:induction false} EventSettlesTheActive(s: State, event: Event, token: Token)
    requires Inv(s) && MayBeActive(s, token)
    ensures var result := Step(s, event);
      || MayBeActive(result.state, token)
      || (result.effects != [] && (result.effects[0] == CancelActiveRequest
                                   || result.effects[0] == ClearActiveRequest(token)))
  {
    hide ApplyEdit, SetFeeForSpeed, Estimate.ApplyBaseFeeContext, Transaction.IsReadyForApproval, State.CanEdit;
    hide State.ToSnapshot, Transaction.DecimalNonce, Estimate.SuggestedFee;
    if event.SpeedSet? {
      SliderKeepsIdentity(s.transaction, event.units, event.info);
    }
  }

  /** What a frame has still to start. */
  function PendingOf(frame: Frame): Option<Token> {
    if frame.Effects? && frame.rest != [] && IsRun(frame.rest[|frame.rest| - 1])
    then Some(frame.rest[|frame.rest| - 1].token) else None
  }

  predicate FrameHolds(w: World, frame: Frame) {
    match frame
    case Effects(rest) => AreOrdered(rest) && (rest != [] ==> !IsImmediate(rest[0]))
    case Operation(id) => id < |w.requests| && !w.requests[id].returned
  }

  /** A pending operation is of an attempt that has begun, and while it may still start nothing is active. */
  predicate PendingHolds(w: World, token: Token) {
    NotAhead(w.reducer, token) && (w.reducer.IsCurrent(token) ==> w.active.None?)
  }

  /** Every started operation is active, or has been cancelled, or has delivered its result, or has yet to return. */
  predicate IsAccountedFor(w: World, id: nat)
    requires id < |w.requests|
  {
    w.active == Some(id) || w.requests[id].cancelled || w.requests[id].delivered || Operation(id) in w.stack
  }

  predicate RequestsInv(w: World) {
    && (forall id :: 0 <= id < |w.requests| ==> IsAccountedFor(w, id))
    && (forall id :: 0 <= id < |w.requests| && !w.requests[id].returned ==> Operation(id) in w.stack)
    && (forall i :: 0 <= i < |w.stack| ==> FrameHolds(w, w.stack[i]))
    && (forall i, j :: 0 <= i < j < |w.stack| && w.stack[i].Operation? ==> w.stack[i] != w.stack[j])
  }

  /** The active request belongs to what is under way, and has neither been cancelled nor delivered its result. */
  predicate ActiveInv(w: World) {
    w.active.Some? ==>
      && w.active.value < |w.requests| && MayBeActive(w.reducer, w.requests[w.active.value].token)
      && !w.requests[w.active.value].cancelled && !w.requests[w.active.value].delivered
  }

  predicate PendingInv(w: World) {
    && (forall i :: 0 <= i < |w.stack| && PendingOf(w.stack[i]).Some? ==> PendingHolds(w, PendingOf(w.stack[i]).value))
    && (forall i, j :: 0 <= i < j < |w.stack| && PendingOf(w.stack[i]).Some?
          ==> PendingOf(w.stack[i]) != PendingOf(w.stack[j]))
  }

  predicate WorldInv(w: World) {
    Inv(w.reducer) && RequestsInv(w) && ActiveInv(w) && PendingInv(w)
  }

  /** Giving up the active request keeps the books if that request is accounted for otherwise. */
  lemma {:induction false} SettlingKeepsRequests(w: World, after: World)
    requires RequestsInv(w) && after.stack == w.stack && |after.requests| == |w.requests| && after.active.None?
    requires forall id :: 0 <= id < |w.requests| ==>
      && after.requests[id].returned == w.requests[id].returned
      && (w.active != Some(id) ==> after.requests[id] == w.requests[id])
      && (w.active == Some(id) && w.requests[id].returned ==>
            after.requests[id].cancelled || after.requests[id].delivered)
    ensures RequestsInv(after)
  {
    forall id | 0 <= id < |w.requests|
      ensures IsAccountedFor(after, id)
    {
      assert IsAccountedFor(w, id);
    }
    forall i | 0 <= i < |w.stack|
      ensures FrameHolds(after, after.stack[i])
    {
      assert FrameHolds(w, w.stack[i]);
    }
  }

  lemma {:induction false} ImmediateKeepsRequests(w: World, effect: Effect)
    requires RequestsInv(w) && ActiveInv(w)
    ensures RequestsInv(Immediately(w, effect))
  {
    hide RequestsInv, MayBeActive;
    if Immediately(w, effect) != w && w.active.Some? {
      SettlingKeepsRequests(w, Immediately(w, effect));
    }
  }

  lemma {:induction false} PushingKeepsRequests(w: World, effects: seq<Effect>)
    requires RequestsInv(w) && FrameHolds(w, Effects(effects))
    ensures RequestsInv(Push(w, effects))
  {
    var after := Push(w, effects);
    forall id | 0 <= id < |w.requests|
      ensures IsAccountedFor(after, id)
    {
      assert IsAccountedFor(w, id);
    }
    forall i | 0 <= i < |after.stack|
      ensures FrameHolds(after, after.stack[i])
    {
      if i < |w.stack| {
        assert FrameHolds(w, w.stack[i]);
      }
    }
  }

  lemma {:induction false} PoppingKeepsRequests(w: World)
    requires RequestsInv(w) && w.stack != [] && Top(w).Effects?
    ensures RequestsInv(Popped(w))
  {
    var after := Popped(w);
    forall id | 0 <= id < |w.requests|
      ensures IsAccountedFor(after, id)
      ensures !w.requests[id].returned ==> Operation(id) in after.stack
    {
      assert IsAccountedFor(w, id);
      if Operation(id) in w.stack {
        StillBelow(w.stack, Operation(id));
      }
    }
    forall i | 0 <= i < |after.stack|
      ensures FrameHolds(after, after.stack[i])
    {
      assert FrameHolds(w, w.stack[i]);
    }
  }

  lemma {:induction false} StillBelow(stack: seq<Frame>, frame: Frame)
    requires frame in stack && frame != stack[|stack| - 1]
    ensures frame in stack[..|stack| - 1]
  {
    var i :| 0 <= i < |stack| && stack[i] == frame;
    assert stack[..|stack| - 1][i] == frame;
  }

  lemma {:induction false} RunningKeepsRequests(w: World, token: Token)
    requires RequestsInv(w) && w.active.None?
    ensures RequestsInv(Run(w, token))
  {
    var after := Run(w, token);
    if w.reducer.IsCurrent(token) {
      forall id | 0 <= id < |after.requests|
        ensures IsAccountedFor(after, id)
        ensures !after.requests[id].returned ==> Operation(id) in after.stack
      {
        if id < |w.requests| {
          assert after.requests[id] == w.requests[id];
          assert IsAccountedFor(w, id);
        }
      }
      forall i | 0 <= i < |w.stack|
        ensures FrameHolds(after, after.stack[i]) && after.stack[i] != Operation(|w.requests|)
      {
        assert FrameHolds(w, w.stack[i]);
      }
    }
  }

  lemma {:induction false} ReturningKeepsRequests(w: World, id: nat)
    requires RequestsInv(w) && w.stack != [] && Top(w) == Operation(id)
    ensures RequestsInv(Return(w, id))
  {
    var after := Return(w, id);
    assert FrameHolds(w, Top(w));
    forall other | 0 <= other < |w.requests| && other != id
      ensures IsAccountedFor(after, other)
      ensures !after.requests[other].returned ==> Operation(other) in after.stack
    {
      assert IsAccountedFor(w, other);
      if Operation(other) in w.stack {
        StillBelow(w.stack, Operation(other));
      }
    }
    forall i | 0 <= i < |after.stack|
      ensures FrameHolds(after, after.stack[i])
    {
      assert FrameHolds(w, w.stack[i]) && after.stack[i] != Operation(id);
    }
  }

  /** A token that has been issued becomes current at that moment or never. */
  lemma {:induction false} CurrentFromTheStart(s: State, event: Event, token: Token)
    requires NotAhead(s, token) && Step(s, event).state.IsCurrent(token)
    ensures s.IsCurrent(token)
  {
    hide Step;
    AttemptsAdvance(s, event);
  }

  lemma {:induction false} SendingKeepsActive(w: World, event: Event)
    requires WorldInv(w)
    ensures ActiveInv(Send(w, event))
  {
    hide Step, Inv, MayBeActive, RequestsInv, PendingInv;
    if w.active.Some? {
      EventSettlesTheActive(w.reducer, event, w.requests[w.active.value].token);
    }
  }

  lemma {:induction false} SendingKeepsRequests(w: World, event: Event)
    requires WorldInv(w)
    ensures RequestsInv(Send(w, event))
  {
    hide Step, Inv, MayBeActive, RequestsInv, PendingInv;
    var result := Step(w.reducer, event);
    var after := w.(reducer := result.state);
    EffectsAreOrdered(w.reducer, event);
    RequestsDoNotDependOnTheReducer(w, after);
    if result.effects != [] && IsImmediate(result.effects[0]) {
      ReducerAside(w, result.state, result.effects[0]);
      ImmediateKeepsRequests(w, result.effects[0]);
      RequestsDoNotDependOnTheReducer(Immediately(w, result.effects[0]), Immediately(after, result.effects[0]));
      PushingKeepsRequests(Immediately(after, result.effects[0]), result.effects[1..]);
    } else {
      PushingKeepsRequests(after, result.effects);
    }
  }

  lemma {:induction false} ReducerAside(w: World, reducer: State, effect: Effect)
    ensures Immediately(w.(reducer := reducer), effect) == Immediately(w, effect).(reducer := reducer)
  {
  }

  lemma {:induction false} RequestsDoNotDependOnTheReducer(w: World, after: World)
    requires RequestsInv(w) && after == w.(reducer := after.reducer)
    ensures RequestsInv(after)
  {
    forall id | 0 <= id < |w.requests|
      ensures IsAccountedFor(after, id)
    {
      assert IsAccountedFor(w, id);
    }
    forall i | 0 <= i < |w.stack|
      ensures FrameHolds(after, after.stack[i])
    {
      assert FrameHolds(w, w.stack[i]);
    }
  }

  lemma {:induction false} SendingKeepsPending(w: World, event: Event)
    requires WorldInv(w)
    ensures PendingInv(Send(w, event))
  {
    hide Step, Inv, MayBeActive, RequestsInv, NotAhead;
    var result := Step(w.reducer, event);
    var after := Send(w, event);
    EffectsAreOrdered(w.reducer, event);
    forall i | 0 <= i < |w.stack| && PendingOf(w.stack[i]).Some?
      ensures PendingHolds(after, PendingOf(w.stack[i]).value)
      ensures |after.stack| > |w.stack| ==> PendingOf(w.stack[i]) != PendingOf(after.stack[|w.stack|])
    {
      var token := PendingOf(w.stack[i]).value;
      assert PendingHolds(w, token);
      NeverAhead(w.reducer, event, token);
      if result.state.IsCurrent(token) {
        CurrentFromTheStart(w.reducer, event, token);
      }
      if Last(result.effects).Some? && TokenOf(Last(result.effects).value).Some? {
        NewTokenIsNew(w.reducer, event, token);
      }
    }
    if |after.stack| > |w.stack| && PendingOf(after.stack[|w.stack|]).Some? {
      NewTokenIsCurrent(w.reducer, event);
      CancelsBeforeStarting(w.reducer, event);
    }
  }

  lemma {:induction false} SendingKeepsWorld(w: World, event: Event)
    requires WorldInv(w)
    ensures WorldInv(Send(w, event))
  {
    hide Step, Inv, ActiveInv, RequestsInv, PendingInv;
    StepKeepsInv(w.reducer, event);
    SendingKeepsActive(w, event);
    SendingKeepsRequests(w, event);
    SendingKeepsPending(w, event);
  }

  lemma {:induction false} ProceedingKeepsWorld(w: World)
    requires WorldInv(w) && w.stack != [] && Top(w).Effects? && Top(w).rest != []
    ensures WorldInv(Proceed(w))
  {
    hide Inv, NotAhead, RequestsInv;
    var effect, rest := Top(w).rest[0], Top(w).rest[1..];
    var after := Push(Popped(w), rest);
    TopHolds(w);
    PoppingKeepsRequests(w);
    PushingKeepsRequests(Popped(w), rest);
    if IsRun(effect) {
      assert PendingOf(Top(w)) == Some(effect.token);
      assert PendingHolds(w, effect.token);
      if w.reducer.IsCurrent(effect.token) {
        RunningKeepsRequests(after, effect.token);
      }
    }
  }

  lemma {:induction false} TopHolds(w: World)
    requires RequestsInv(w) && w.stack != []
    ensures FrameHolds(w, Top(w))
  {
  }

  lemma {:induction false} ReturningKeepsWorld(w: World, id: nat)
    requires WorldInv(w) && w.stack != [] && Top(w) == Operation(id)
    ensures WorldInv(Return(w, id))
  {
    hide Inv, NotAhead, RequestsInv;
    ReturningKeepsRequests(w, id);
  }

  lemma {:induction false} MoveKeepsWorld(w: World, move: Move)
    requires WorldInv(w)
    ensures WorldInv(Next(w, move))
  {
    hide Inv, RequestsInv, MayBeActive, NotAhead;
    if move.Sends? {
      SendingKeepsWorld(w, move.event);
    } else if w.stack != [] {
      if Top(w).Operation? {
        ReturningKeepsWorld(w, Top(w).request);
      } else if Top(w).rest == [] {
        PoppingKeepsRequests(w);
      } else {
        ProceedingKeepsWorld(w);
      }
    }
  }

  // ----- what is under way is served

  predicate IsUnderWay(s: State) {
    s.phase == Preparing || s.phase == Preflighting
  }

  function CurrentToken(s: State): Token {
    Token(s.attempt, s.transaction.id, if s.phase == Preparing then ForPreparation else ForPreflight)
  }

  /** While a preparation or a preflight is under way, its operation is active or still to be started. */
  predicate IsServed(w: World) {
    IsUnderWay(w.reducer) ==>
      w.active.Some? || exists i :: 0 <= i < |w.stack| && PendingOf(w.stack[i]) == Some(CurrentToken(w.reducer))
  }

  predicate AsksIfUnderWay(s: State, result: Reduction) {
    IsUnderWay(result.state) ==>
      if result.state.attempt == s.attempt && result.state.phase == s.phase
      then CurrentToken(result.state) == CurrentToken(s)
      else Last(result.effects).Some? && IsRun(Last(result.effects).value)
           && Last(result.effects).value.token == CurrentToken(result.state)
  }

  /** An event that puts something under way asks for its operation; one that does not leaves all as it is. */
  lemma {:induction false} UnderWayIsAskedFor(s: State, event: Event)
    requires Inv(s)
    ensures AsksIfUnderWay(s, Step(s, event))
  {
    hide ApplyEdit, SetFeeForSpeed, Estimate.ApplyBaseFeeContext, Transaction.IsReadyForApproval, State.CanEdit;
    hide State.ToSnapshot, Transaction.DecimalNonce;
    hide Preflighted, SpeedChosen, Acted;
    match event {
      case PreparationEstimate(_, estimate) => EstimateKeepsIdentity(s.transaction, estimate);
      case PreflightFinished(token, result) => PreflightAsksIfUnderWay(s, token, result);
      case SpeedSet(units, info) => SpeedAsksIfUnderWay(s, units, info);
      case AlertActed(token, action) => ActionAsksIfUnderWay(s, token, action);
      case _ =>
    }
  }

  lemma {:induction false} PreflightAsksIfUnderWay(s: State, token: Token, result: PreflightResult)
    requires Inv(s)
    ensures AsksIfUnderWay(s, Preflighted(s, token, result))
  {
    hide Estimate.ApplyBaseFeeContext, State.ToSnapshot, Transaction.DecimalNonce;
  }

  lemma {:induction false} SpeedAsksIfUnderWay(s: State, units: nat, info: Info)
    requires Inv(s)
    ensures AsksIfUnderWay(s, SpeedChosen(s, units, info))
  {
    hide SetFeeForSpeed, State.ToSnapshot;
    SliderKeepsIdentity(s.transaction, units, info);
  }

  lemma {:induction false} ActionAsksIfUnderWay(s: State, token: AlertToken, action: AlertAction)
    requires Inv(s)
    ensures AsksIfUnderWay(s, Acted(s, token, action))
  {
    hide State.ToSnapshot;
  }

  lemma {:induction false} SendingKeepsServed(w: World, event: Event)
    requires WorldInv(w) && IsServed(w)
    ensures IsServed(Send(w, event))
  {
    hide Step, Inv, RequestsInv, ActiveInv, PendingInv;
    var result := Step(w.reducer, event);
    var after := Send(w, event);
    if IsUnderWay(result.state) {
      UnderWayIsAskedFor(w.reducer, event);
      EffectsAreOrdered(w.reducer, event);
      QuietEventsSettleNothing(w.reducer, event);
      if result.state.attempt == w.reducer.attempt && result.state.phase == w.reducer.phase {
        if w.active.None? {
          var i :| 0 <= i < |w.stack| && PendingOf(w.stack[i]) == Some(CurrentToken(w.reducer));
          assert PendingOf(after.stack[i]) == Some(CurrentToken(result.state));
        }
      } else {
        CancelsBeforeStarting(w.reducer, event);
        assert PendingOf(after.stack[|w.stack|]) == Some(CurrentToken(result.state));
      }
    }
  }

  lemma {:induction false} ContinuingKeepsServed(w: World)
    requires WorldInv(w) && IsServed(w)
    ensures IsServed(Next(w, Continues))
  {
    hide RequestsInv, PendingInv;
    var after := Next(w, Continues);
    if w.stack != [] {
      TopHolds(w);
      if IsUnderWay(w.reducer) && w.active.None? {
        var i :| 0 <= i < |w.stack| && PendingOf(w.stack[i]) == Some(CurrentToken(w.reducer));
        if i < |w.stack| - 1 {
          assert after.stack[i] == w.stack[i];
        } else if |Top(w).rest| > 1 {
          assert PendingOf(Effects(Top(w).rest[1..])) == PendingOf(Top(w));
          assert after.stack[i] == Effects(Top(w).rest[1..]);
        }
      }
    }
  }

  // ----- every run

  function Begin(s: State): World {
    World(s, None, [], [])
  }

  lemma {:induction false} WorldInvAlways(start: State, moves: seq<Move>)
    requires Inv(start) && start.phase == Idle
    ensures WorldInv(Runs(Begin(start), moves)) && IsServed(Runs(Begin(start), moves))
    decreases |moves|
  {
    hide WorldInv, Inv, Next, IsServed;
    if moves == [] {
      NothingRunsAtFirst(start);
    } else {
      var w, move := Runs(Begin(start), moves[..|moves| - 1]), moves[|moves| - 1];
      WorldInvAlways(start, moves[..|moves| - 1]);
      MoveKeepsWorld(w, move);
      if move.Sends? {
        SendingKeepsServed(w, move.event);
        assert Next(w, move) == Send(w, move.event) by { NextSends(w, move); }
      } else {
        ContinuingKeepsServed(w);
      }
    }
  }

  lemma {:induction false} NextSends(w: World, move: Move)
    requires move.Sends?
    ensures Next(w, move) == Send(w, move.event)
  {
  }

  lemma {:induction false} NothingRunsAtFirst(start: State)
    requires Inv(start) && start.phase == Idle
    ensures WorldInv(Begin(start)) && IsServed(Begin(start))
  {
  }

  /** However outputs and operations call back: the active request belongs to the current attempt, and every operation
      ever started is the active one, or has been cancelled, or has delivered its result, or has yet to return the
      cancellation that will then be kept or used. */
  lemma {:induction false} OperationsAreAccountedFor(start: State, moves: seq<Move>)
    requires Inv(start) && start.phase == Idle
    ensures var w := Runs(Begin(start), moves);
      && (w.active.Some? ==>
            && w.active.value < |w.requests|
            && !w.requests[w.active.value].cancelled && !w.requests[w.active.value].delivered
            && w.requests[w.active.value].token.attempt == w.reducer.attempt
            && w.reducer.transactionId == Some(w.requests[w.active.value].token.transactionId))
      && (forall id :: 0 <= id < |w.requests| ==> IsAccountedFor(w, id))
  {
    WorldInvAlways(start, moves);
    hide Runs, Inv, PendingInv;
  }

  /** Once all has returned, no cancellation is lost, and a preparation or preflight that is under way has an
      operation that can still be cancelled. */
  lemma {:induction false} NothingIsLostAtRest(start: State, moves: seq<Move>)
    requires Inv(start) && start.phase == Idle
    requires Runs(Begin(start), moves).stack == []
    ensures var w := Runs(Begin(start), moves);
      && (forall id :: 0 <= id < |w.requests| ==>
            && w.requests[id].returned
            && (w.active == Some(id) || w.requests[id].cancelled || w.requests[id].delivered))
      && (IsUnderWay(w.reducer) ==>
            && w.active.Some? && w.active.value < |w.requests| && !w.requests[w.active.value].cancelled
            && w.requests[w.active.value].token == CurrentToken(w.reducer))
  {
    hide Runs;
    WorldInvAlways(start, moves);
    RestIsSettled(Runs(Begin(start), moves));
  }

  lemma {:induction false} RestIsSettled(w: World)
    requires WorldInv(w) && IsServed(w) && w.stack == []
    ensures forall id :: 0 <= id < |w.requests| ==>
      && w.requests[id].returned
      && (w.active == Some(id) || w.requests[id].cancelled || w.requests[id].delivered)
    ensures IsUnderWay(w.reducer) ==>
      && w.active.Some? && w.active.value < |w.requests| && !w.requests[w.active.value].cancelled
      && w.requests[w.active.value].token == CurrentToken(w.reducer)
  {
    hide PendingInv;
    forall id | 0 <= id < |w.requests|
      ensures w.requests[id].returned
      ensures w.active == Some(id) || w.requests[id].cancelled || w.requests[id].delivered
    {
      assert IsAccountedFor(w, id);
    }
  }
}
