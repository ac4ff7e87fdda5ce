/** What holds over every run of a transaction approval. */
module ApprovalRuns {
  import opened Wrappers
  import opened Fees
  import opened FeeResolution
  import opened Edits
  import opened ApprovalState

  // ----- the reducer's invariant

  /** A restart is pending only while the slider is held, the transaction is being edited and no alert shows; an alert
      that shows is current; and the attempt belongs to the transaction unless nothing has begun or all is over. */
  predicate Inv(s: State) {
    && (s.gatePending ==> s.phase == Editing && s.sliderActive && s.alert.None?)
    && (s.alert.Some? ==> s.IsCurrentAlert(s.alert.value.Token()))
    && s.transactionId == (if s.phase == Idle || s.phase == Finished then None else Some(s.transaction.id))
  }

  lemma {:induction false} InitiallyHolds(transaction: Transaction, network: Network, policy: Policy)
    ensures Inv(Initial(transaction, network, policy))
  {
  }

  lemma {:induction false} SliderKeepsIdentity(transaction: Transaction, units: nat, info: Info)
    ensures var after := SetFeeForSpeed(transaction, units, info);
      after == transaction.(preparedFee := after.preparedFee, provenance := after.provenance)
  {
  }

  lemma {:induction false} EstimateKeepsIdentity(transaction: Transaction, estimate: Estimate)
    ensures estimate.ApplyBaseFeeContext(transaction).SameButBaseFees(transaction)
    ensures estimate.ApplyBaseFeeContext(estimate.ApplyBaseFeeContext(transaction))
         == estimate.ApplyBaseFeeContext(transaction)
  {
  }

  lemma {:induction false} StepKeepsInv(s: State, event: Event)
    requires Inv(s)
    ensures Inv(Step(s, event).state)
  {
    hide ApplyEdit, SetFeeForSpeed, Estimate.ApplyBaseFeeContext, Transaction.IsReadyForApproval, State.CanEdit;
    hide State.ToSnapshot, Transaction.DecimalNonce, Estimate.SuggestedFee;
    hide Preflighted, SpeedChosen, Acted;
    match event {
      case PreparationEstimate(_, estimate) => EstimateKeepsIdentity(s.transaction, estimate);
      case PreflightFinished(token, result) => PreflightKeepsInv(s, token, result);
      case SpeedSet(units, info) => SpeedKeepsInv(s, units, info);
      case AlertActed(token, action) => ActionKeepsInv(s, token, action);
      case _ =>
    }
  }

  lemma {:induction false} PreflightKeepsInv(s: State, token: Token, result: PreflightResult)
    requires Inv(s)
    ensures Inv(Preflighted(s, token, result).state)
  {
    hide Estimate.ApplyBaseFeeContext, State.ToSnapshot, Transaction.DecimalNonce;
    EstimateKeepsIdentity(result.transaction, result.estimate);
  }

  lemma {:induction false} SpeedKeepsInv(s: State, units: nat, info: Info)
    requires Inv(s)
    ensures Inv(SpeedChosen(s, units, info).state)
  {
    hide SetFeeForSpeed, State.ToSnapshot;
    SliderKeepsIdentity(s.transaction, units, info);
  }

  lemma {:induction false} ActionKeepsInv(s: State, token: AlertToken, action: AlertAction)
    requires Inv(s)
    ensures Inv(Acted(s, token, action).state)
  {
    hide State.ToSnapshot;
  }

  // ----- how an attempt goes on, and what it asks for

  /** What may follow a phase within one attempt. */
  predicate Advances(before: Phase, after: Phase) {
    || before == after
    || (before == Preparing && (after == Ready || after == Failed))
    || (before == Ready && after == Preflighting)
    || (before == Authenticating && (after == Ready || after == Preflighting))
    || (before == Preflighting && (after == ReviewingFees || after == Failed))
  }

  /** The attempt is a new one, or the current one has advanced, for the same transaction. */
  predicate GoesOn(before: State, after: State) {
    || after.attempt == before.attempt + 1
    || (after.attempt == before.attempt && after.transactionId == before.transactionId
        && Advances(before.phase, after.phase))
  }

  /** Every event either begins a new attempt or lets the current one advance, for the same transaction. */
  lemma {:induction false} AttemptsAdvance(s: State, event: Event)
    ensures GoesOn(s, Step(s, event).state)
  {
    hide ApplyEdit, SetFeeForSpeed, Estimate.ApplyBaseFeeContext, Transaction.IsReadyForApproval, State.CanEdit;
    hide State.ToSnapshot, Transaction.DecimalNonce, State.AcceptsUpdate, State.AllowsMutation;
    hide Preflighted, SpeedChosen, Acted;
    match event {
      case PreflightFinished(token, result) => PreflightAdvances(s, token, result);
      case SpeedSet(units, info) => SpeedAdvances(s, units, info);
      case AlertActed(token, action) => ActionAdvances(s, token, action);
      case _ =>
    }
  }

  lemma {:induction false} PreflightAdvances(s: State, token: Token, result: PreflightResult)
    ensures GoesOn(s, Preflighted(s, token, result).state)
  {
    hide Estimate.ApplyBaseFeeContext, State.ToSnapshot, Transaction.DecimalNonce;
  }

  lemma {:induction false} SpeedAdvances(s: State, units: nat, info: Info)
    ensures GoesOn(s, SpeedChosen(s, units, info).state)
  {
    hide SetFeeForSpeed, State.ToSnapshot, State.AllowsMutation;
  }

  lemma {:induction false} ActionAdvances(s: State, token: AlertToken, action: AlertAction)
    ensures GoesOn(s, Acted(s, token, action).state)
  {
    hide State.ToSnapshot, State.IsCurrentAlert;
  }

  /** What is asked for: preparation and authentication in a new attempt, the preflight in the one that was ready or
      authenticating; always for the transaction held, after whatever is active has been cancelled. */
  predicate IsAskedFor(before: State, after: State, token: Token) {
    && token.transactionId == after.transaction.id && after.transactionId == Some(token.transactionId)
    && token.attempt == after.attempt && after.phase == PhaseOf(token.kind)
    && (if token.kind == ForPreflight
        then after.attempt == before.attempt && after.transactionId == before.transactionId
             && (before.phase == Ready || before.phase == Authenticating)
        else after.attempt == before.attempt + 1)
  }

  /** The token is of the kind of the effect that asks with it; a preparation is asked for with the transaction held. */
  predicate AsksRightly(effect: Effect, after: State) {
    match effect
    case RunPreparation(token, transaction, _) => token.kind == ForPreparation && transaction == after.transaction
    case RunPreflight(token, transaction) => token.kind == ForPreflight && transaction == after.transaction
    case RequestAuthentication(token) => token.kind == ForAuthentication
    case _ => true
  }

  predicate AsksForNext(before: State, result: Reduction) {
    var last := Last(result.effects);
    last.Some? && TokenOf(last.value).Some? ==>
      && IsAskedFor(before, result.state, TokenOf(last.value).value) && AsksRightly(last.value, result.state)
      && |result.effects| > 1 && result.effects[0].CancelActiveRequest?
  }

  /** Whatever an event asks for, it asks for in this way. */
  lemma {:induction false} AsksForTheNext(s: State, event: Event)
    ensures AsksForNext(s, Step(s, event))
  {
    hide ApplyEdit, SetFeeForSpeed, Estimate.ApplyBaseFeeContext, Transaction.IsReadyForApproval, State.CanEdit;
    hide State.ToSnapshot, Transaction.DecimalNonce, State.AcceptsUpdate, State.AllowsMutation;
    hide Preflighted, SpeedChosen, Acted, Started, SliderReleased, AsksForNext;
    match event {
      case StartPreparation(forceGasCheck) => StartAsks(s, forceGasCheck);
      case PreflightFinished(token, result) => PreflightAsksForNothing(s, token, result);
      case SpeedSet(units, info) => SpeedAsks(s, units, info);
      case AlertActed(token, action) => ActionAsks(s, token, action);
      case SliderEnded(cancelled) => SliderAsks(s, cancelled);
      case _ => OthersAsk(s, event);
    }
  }

  lemma {:induction false} OthersAsk(s: State, event: Event)
    requires !event.StartPreparation? && !event.PreflightFinished? && !event.SpeedSet? && !event.AlertActed?
    requires !event.SliderEnded?
    ensures AsksForNext(s, Step(s, event))
  {
    hide ApplyEdit, Estimate.ApplyBaseFeeContext, Transaction.IsReadyForApproval, State.CanEdit;
    hide State.ToSnapshot, Transaction.DecimalNonce, State.AcceptsUpdate, State.AllowsMutation;
  }

  lemma {:induction false} StartAsks(s: State, forceGasCheck: bool)
    ensures AsksForNext(s, Started(s, forceGasCheck))
  {
    hide State.ToSnapshot;
  }

  lemma {:induction false} PreflightAsksForNothing(s: State, token: Token, result: PreflightResult)
    ensures AsksForNext(s, Preflighted(s, token, result))
  {
    hide Estimate.ApplyBaseFeeContext, State.ToSnapshot, Transaction.DecimalNonce;
  }

  lemma {:induction false} SpeedAsks(s: State, units: nat, info: Info)
    ensures AsksForNext(s, SpeedChosen(s, units, info))
  {
    hide SetFeeForSpeed, State.ToSnapshot, State.AllowsMutation;
  }

  lemma {:induction false} ActionAsks(s: State, token: AlertToken, action: AlertAction)
    ensures AsksForNext(s, Acted(s, token, action))
  {
    hide State.ToSnapshot, State.IsCurrentAlert;
  }

  lemma {:induction false} SliderAsks(s: State, cancelled: bool)
    ensures AsksForNext(s, SliderReleased(s, cancelled))
  {
    hide State.ToSnapshot, State.AllowsMutation;
  }

  // ----- alerts, estimates and the suggested nonce

  /** An alert shows exactly the buttons that do something: pressing one of them has an effect, any other has none. */
  lemma {:induction false} PresentedActionsWork(s: State, action: AlertAction)
    requires Inv(s) && s.alert.Some?
    ensures action in Presented(s.alert.value)
       <==> Step(s, AlertActed(s.alert.value.Token(), action)) != Ignored(s)
  {
    hide State.ToSnapshot;
  }

  /** What an alert says is founded: a failed preparation is retried as it was run, a verdict on the fee comes with the
      estimate it was reached on, and no base fee is shown that no estimate vouches for. */
  predicate AlertsAreFounded(s: State) {
    && (s.alert.Some? && s.alert.value.kind.PreparationFailed? ==> s.alert.value.kind.forceGasCheck == s.forceGasCheck)
    && (s.alert.Some? && !s.alert.value.kind.PreparationFailed? ==> s.estimate.Some?)
    && (s.phase == Failed && s.estimate.None? ==> s.transaction.BasisBaseFee().None?)
  }

  lemma {:induction false} StepKeepsAlertsFounded(s: State, event: Event)
    requires Inv(s) && AlertsAreFounded(s)
    ensures AlertsAreFounded(Step(s, event).state)
  {
    hide ApplyEdit, SetFeeForSpeed, Estimate.ApplyBaseFeeContext, Transaction.IsReadyForApproval;
    hide State.ToSnapshot, Transaction.DecimalNonce, Estimate.SuggestedFee;
    if event.SpeedSet? {
      SliderKeepsIdentity(s.transaction, event.units, event.info);
    }
  }

  /** An estimate that is announced has been installed: the state holds it, and its transaction carries the
      base-fee context the estimate gives. */
  lemma {:induction false} EstimatesAreInstalled(s: State, event: Event, i: nat)
    requires i < |Step(s, event).effects|
    ensures var result := Step(s, event);
      result.effects[i].SendEstimate? ==>
        && result.state.estimate == Some(result.effects[i].estimate)
        && result.effects[i].estimate.ApplyBaseFeeContext(result.state.transaction) == result.state.transaction
  {
    hide ApplyEdit, SetFeeForSpeed, Estimate.ApplyBaseFeeContext, Transaction.IsReadyForApproval, State.CanEdit;
    hide State.ToSnapshot, Transaction.DecimalNonce, Estimate.SuggestedFee, State.IsCurrentAlert, State.IsCurrent;
    match event {
      case PreparationEstimate(_, estimate) => EstimateKeepsIdentity(s.transaction, estimate);
      case PreflightFinished(_, result) => EstimateKeepsIdentity(result.transaction, result.estimate);
      case _ =>
    }
  }

  /** The first nonce the wallet has suggested is the one it goes on suggesting. */
  lemma {:induction false} SuggestedNonceStays(s: State, event: Event)
    ensures s.suggestedNonce.Some? ==> Step(s, event).state.suggestedNonce == s.suggestedNonce
  {
    hide ApplyEdit, SetFeeForSpeed, Estimate.ApplyBaseFeeContext, Transaction.IsReadyForApproval, State.CanEdit;
    hide State.ToSnapshot, Transaction.DecimalNonce, Estimate.SuggestedFee, State.IsCurrent, State.IsCurrentAlert;
  }

  /** A preparation starts with nothing left of the attempt before: no estimate, no alert, no restart pending. */
  lemma {:induction false} PreparationStartsClean(s: State, event: Event)
    ensures var result := Step(s, event); var last := Last(result.effects);
      last.Some? && last.value.RunPreparation? ==>
        && result.state.estimate.None? && result.state.alert.None?
        && !result.state.gatePending && !result.state.sliderActive
        && result.state.forceGasCheck == last.value.forceGasCheck
  {
    hide State.IsCurrent, State.IsCurrentAlert, State.CanApprove, State.AcceptsUpdate;
    hide ApplyEdit, SetFeeForSpeed, Estimate.ApplyBaseFeeContext, Transaction.IsReadyForApproval, State.CanEdit;
    hide State.ToSnapshot, Transaction.DecimalNonce, Estimate.SuggestedFee;
  }

  // ----- results of superseded requests

  /** The event reports to the request `token`. */
  predicate ReportsTo(event: Event, token: Token) {
    (event.PreparationUpdate? || event.PreparationEstimate? || event.PreparationSucceeded? || event.PreparationFailure?
     || event.AuthenticationResult? || event.PreflightFinished?)
    && event.token == token
  }

  predicate IsResult(event: Event, token: Token) {
    ReportsTo(event, token) && !event.PreparationUpdate? && !event.PreparationEstimate?
  }

  /** Once `Spent`, a token never becomes current again. */
  predicate Spent(s: State, token: Token) {
    || token.attempt < s.attempt
    || (token.attempt == s.attempt && s.phase != PhaseOf(token.kind)
        && (token.kind == ForPreflight ==> s.phase != Ready && s.phase != Authenticating && s.phase != Preparing))
  }

  lemma {:induction false} SpentStaysSpent(s: State, event: Event, token: Token)
    requires Spent(s, token)
    ensures Spent(Step(s, event).state, token)
  {
    hide Step;
    AttemptsAdvance(s, event);
  }

  /** A preparation goes on updating the transaction it has made ready. */
  predicate IsLateUpdate(s: State, event: Event) {
    && event.PreparationUpdate? && event.token.kind == ForPreparation && s.phase == Ready
    && s.HoldsAttempt(event.token.attempt, event.token.transactionId)
    && event.transaction.id == event.token.transactionId
  }

  /** A report to a request that is no longer current changes nothing, unless it is a late update; that one installs the
      transaction, stays ready and shows it, and does no more. */
  lemma {:induction false} StaleReportsAreIgnored(s: State, event: Event, token: Token)
    requires ReportsTo(event, token) && !s.IsCurrent(token)
    ensures var result := Step(s, event);
      if IsLateUpdate(s, event)
      then && result.state == s.(transaction := event.transaction, suggestedNonce := result.state.suggestedNonce)
           && result.effects == [SendSnapshot(result.state.ToSnapshot())]
      else result == Ignored(s)
  {
    hide State.ToSnapshot, Transaction.DecimalNonce;
  }

  /** A result that has any effect uses its token up. */
  lemma {:induction false} ResultSpendsItsToken(s: State, event: Event, token: Token)
    requires Inv(s) && IsResult(event, token)
    ensures Step(s, event) == Ignored(s) || Spent(Step(s, event).state, token)
  {
    hide ApplyEdit, SetFeeForSpeed, Estimate.ApplyBaseFeeContext, Transaction.IsReadyForApproval, State.CanEdit;
    hide State.ToSnapshot, Transaction.DecimalNonce, Estimate.SuggestedFee;
  }

  /** The state after `events`. */
  function Reached(s: State, events: seq<Event>): State
    decreases |events|
  {
    if events == [] then s else Step(Reached(s, events[..|events| - 1]), events[|events| - 1]).state
  }

  lemma {:induction false} SpentForever(s: State, events: seq<Event>, token: Token)
    requires Spent(s, token)
    ensures Spent(Reached(s, events), token)
    decreases |events|
  {
    hide Step, Spent;
    if events != [] {
      SpentForever(s, events[..|events| - 1], token);
      SpentStaysSpent(Reached(s, events[..|events| - 1]), events[|events| - 1], token);
    }
  }

  /** Each request's result takes effect at most once: after one that did, whatever happens, another is ignored. */
  lemma {:induction false} ResultTakesEffectOnce(s: State, first: Event, events: seq<Event>, second: Event,
                                                 token: Token)
    requires Inv(s) && IsResult(first, token) && IsResult(second, token)
    requires Step(s, first) != Ignored(s)
    ensures var later := Reached(Step(s, first).state, events);
      Step(later, second) == Ignored(later)
  {
    hide Step;
    var later := Reached(Step(s, first).state, events);
    ResultSpendsItsToken(s, first, token);
    SpentForever(Step(s, first).state, events, token);
    StaleReportsAreIgnored(later, second, token);
  }

  // ----- the history of a run

  /** The approval in force: the transaction approved, and the authentication that followed. */
  datatype Approval = Approval(transaction: Transaction, authentication: Option<Token>)

  /** How the user has last changed the transaction since the last preparation began; letting go of the slider with a
      cancellation gives a change of its up. */
  datatype Change = NoChange | ByEditor | BySlider | GivenUp

  /** A state, with what the run that led to it has asked for and completed, and how the user has changed it. */
  datatype History = History(
    state: State, issued: seq<Token>, approval: Option<Approval>, running: map<Token, Transaction>,
    completions: seq<Option<Transaction>>, change: Change)

  function Last(effects: seq<Effect>): Option<Effect> {
    if effects == [] then None else Some(effects[|effects| - 1])
  }

  function TokenOf(effect: Effect): Option<Token> {
    match effect
    case RunPreparation(token, _, _) => Some(token)
    case RunPreflight(token, _) => Some(token)
    case RequestAuthentication(token) => Some(token)
    case _ => None
  }

  /** Only the last effect of a step starts a request or completes the approval. */
  lemma {:induction false} OnlyTheLastEffectCounts(s: State, event: Event)
    ensures var effects := Step(s, event).effects;
      forall i :: 0 <= i < |effects| - 1 ==> TokenOf(effects[i]).None? && !effects[i].Complete?
  {
    hide ApplyEdit, SetFeeForSpeed, Estimate.ApplyBaseFeeContext, Transaction.IsReadyForApproval, State.CanEdit;
    hide State.ToSnapshot, Transaction.DecimalNonce, Estimate.SuggestedFee, State.IsCurrentAlert, State.IsCurrent;
  }

  function Recorded(h: History, event: Event): History {
    var result := Step(h.state, event);
    var last := Last(result.effects);
    var token := if last.Some? then TokenOf(last.value) else None;
    History(
      result.state,
      if token.Some? then h.issued + [token.value] else h.issued,
      if event.Approve? && last.Some? then Some(Approval(h.state.transaction, None))
      else if event.AuthenticationResult? && last.Some? && last.value.RunPreflight? && h.approval.Some?
      then Some(h.approval.value.(authentication := Some(event.token)))
      else h.approval,
      if last.Some? && last.value.RunPreflight? then h.running[last.value.token := last.value.transaction]
      else h.running,
      if last.Some? && last.value.Complete? then h.completions + [last.value.completed] else h.completions,
      if last.Some? && last.value.RunPreparation? then NoChange else ChangedBy(h, event, result))
  }

  function ChangedBy(h: History, event: Event, result: Reduction): Change {
    if event.ApplyEdits? && result.effects != [] then ByEditor
    else if event.SpeedSet? && result.state.transaction != h.state.transaction then BySlider
    else if event.SliderEnded? && event.cancelled && h.change == BySlider then GivenUp
    else h.change
  }

  function Opening(s: State): History {
    History(s, [], None, map[], [], NoChange)
  }

  function After(s: State, events: seq<Event>): History
    decreases |events|
  {
    if events == [] then Opening(s) else Recorded(After(s, events[..|events| - 1]), events[|events| - 1])
  }

  // ----- tokens

  predicate Distinct(tokens: seq<Token>) {
    forall i, j :: 0 <= i < j < |tokens| ==> tokens[i] != tokens[j]
  }

  /** No request is issued twice, and none from an attempt that has not begun. */
  predicate TokensHold(h: History) {
    && Distinct(h.issued)
    && forall i :: 0 <= i < |h.issued| ==> NotAhead(h.state, h.issued[i])
  }

  predicate NotAhead(s: State, token: Token) {
    && token.attempt <= s.attempt
    && (token.attempt == s.attempt && token.kind == ForPreflight ==>
          s.phase == Preflighting || s.phase == ReviewingFees || s.phase == Failed)
  }

  lemma {:induction false} NeverAhead(s: State, event: Event, token: Token)
    requires NotAhead(s, token)
    ensures NotAhead(Step(s, event).state, token)
  {
    hide Step;
    AttemptsAdvance(s, event);
  }

  lemma {:induction false} NewTokenIsNew(s: State, event: Event, token: Token)
    requires NotAhead(s, token)
    requires var last := Last(Step(s, event).effects); last.Some? && TokenOf(last.value).Some?
    ensures var issued := TokenOf(Last(Step(s, event).effects).value).value;
      issued != token && NotAhead(Step(s, event).state, issued)
  {
    hide Step;
    AsksForTheNext(s, event);
  }

  lemma {:induction false} TokensAreIssuedOnce(s: State, events: seq<Event>)
    ensures TokensHold(After(s, events))
    decreases |events|
  {
    hide Step, NotAhead;
    if events != [] {
      var h, event := After(s, events[..|events| - 1]), events[|events| - 1];
      TokensAreIssuedOnce(s, events[..|events| - 1]);
      forall i | 0 <= i < |h.issued|
        ensures NotAhead(Step(h.state, event).state, h.issued[i])
      {
        NeverAhead(h.state, event, h.issued[i]);
      }
      var last := Last(Step(h.state, event).effects);
      if last.Some? && TokenOf(last.value).Some? {
        forall i | 0 <= i < |h.issued|
          ensures TokenOf(last.value).value != h.issued[i]
        {
          NewTokenIsNew(h.state, event, h.issued[i]);
        }
        NewTokenIsCurrent(h.state, event);
      }
    }
  }

  lemma {:induction false} NewTokenIsCurrent(s: State, event: Event)
    requires var last := Last(Step(s, event).effects); last.Some? && TokenOf(last.value).Some?
    ensures var token := TokenOf(Last(Step(s, event).effects).value).value;
      NotAhead(Step(s, event).state, token) && Step(s, event).state.IsCurrent(token)
  {
    hide Step;
    AsksForTheNext(s, event);
  }

  // ----- completion

  /** A finished approval absorbs every event; only releasing the slider still clears its flag. */
  lemma {:induction false} FinishedAbsorbs(s: State, event: Event)
    requires Inv(s) && s.phase == Finished
    ensures Step(s, event) == Ignored(if event.SliderEnded? then s.(sliderActive := false) else s)
  {
    hide ApplyEdit, SetFeeForSpeed, Estimate.ApplyBaseFeeContext, Transaction.IsReadyForApproval;
    hide State.ToSnapshot, Transaction.DecimalNonce, Estimate.SuggestedFee;
  }

  /** A run in which the user takes hold of the slider while the transaction is being prepared, approves it, and is
      still holding the slider when the preflight finishes. */
  function HeldThroughout(prepared: Transaction, result: PreflightResult): seq<Event> {
    var id := prepared.id;
    [StartPreparation(false), SliderBegan, PreparationUpdate(Token(1, id, ForPreparation), prepared),
     PreparationSucceeded(Token(1, id, ForPreparation), prepared), Approve,
     AuthenticationResult(Token(2, id, ForAuthentication), true),
     PreflightFinished(Token(2, id, ForPreflight), result)]
  }

  /** That run finishes the approval with the flag still set, so releasing the slider changes a finished state. */
  lemma {:induction false} SliderFlagOutlivesThePreflight(transaction: Transaction, prepared: Transaction,
                                                          network: Network, estimate: Estimate, cancelled: bool)
    requires prepared.id == transaction.id && prepared.IsReadyForApproval(network)
    requires Preflight(prepared, network, estimate).Safe?
    ensures var start := Initial(transaction, network, AuthenticationRequired);
      var events := HeldThroughout(prepared, Preflight(prepared, network, estimate));
      var s := Reached(start, events);
      && s.phase == Finished && s.sliderActive
      && Step(s, SliderEnded(cancelled)) == Ignored(s.(sliderActive := false)) != Ignored(s)
  {
    var start := Initial(transaction, network, AuthenticationRequired);
    var result := Preflight(prepared, network, estimate);
    var events := HeldThroughout(prepared, result);
    SafePreflightKeepsTheTransaction(prepared, network, estimate);
    hide Reached, Preflight, Step, HeldThroughout, Transaction.IsReadyForApproval;
    HeldWhilePrepared(start, prepared);
    var ready := Reached(start, HeldThroughout(prepared, result)[..4]);
    FirstFour(prepared, result);
    ReadyUntilFinished(ready, prepared, result, cancelled);
    LastThree(start, prepared, result);
  }

  lemma {:induction false} FirstFour(prepared: Transaction, result: PreflightResult)
    ensures HeldThroughout(prepared, result)[..4]
         == [StartPreparation(false), SliderBegan, PreparationUpdate(Token(1, prepared.id, ForPreparation), prepared),
             PreparationSucceeded(Token(1, prepared.id, ForPreparation), prepared)]
  {
  }

  lemma {:induction false} ReachedNext(s: State, events: seq<Event>, event: Event)
    ensures Reached(s, events + [event]) == Step(Reached(s, events), event).state
  {
    hide Step;
    assert (events + [event])[..|events|] == events;
  }

  lemma {:induction false} HeldWhilePrepared(start: State, prepared: Transaction)
    requires start == Initial(start.transaction, start.network, start.policy) && prepared.id == start.transaction.id
    ensures var token := Token(1, prepared.id, ForPreparation);
      var s := Reached(start, [StartPreparation(false), SliderBegan, PreparationUpdate(token, prepared),
                               PreparationSucceeded(token, prepared)]);
      && s.phase == Ready && s.sliderActive && !s.gatePending && s.alert.None?
      && s.attempt == 1 && s.transactionId == Some(prepared.id)
      && s.transaction == prepared && s.network == start.network && s.policy == start.policy
  {
    hide State.ToSnapshot, Transaction.DecimalNonce, Reached;
    var token := Token(1, prepared.id, ForPreparation);
    var first: seq<Event> := [StartPreparation(false)];
    var second := first + [SliderBegan];
    var third := second + [PreparationUpdate(token, prepared)];
    ReachedNone(start);
    ReachedNext(start, [], StartPreparation(false));
    assert [] + first == first;
    ReachedNext(start, first, SliderBegan);
    ReachedNext(start, second, PreparationUpdate(token, prepared));
    ReachedNext(start, third, PreparationSucceeded(token, prepared));
    assert third + [PreparationSucceeded(token, prepared)]
        == [StartPreparation(false), SliderBegan, PreparationUpdate(token, prepared),
            PreparationSucceeded(token, prepared)];
  }

  lemma {:induction false} ReachedNone(s: State)
    ensures Reached(s, []) == s
  {
  }

  lemma {:induction false} ReadyUntilFinished(s: State, prepared: Transaction, result: PreflightResult,
                                              cancelled: bool)
    requires s.phase == Ready && s.sliderActive && !s.gatePending && s.alert.None?
    requires s.attempt == 1 && s.transactionId == Some(prepared.id) && s.transaction == prepared
    requires s.policy == AuthenticationRequired && prepared.IsReadyForApproval(s.network)
    requires result.Safe? && result.transaction.id == prepared.id
    ensures var approved := Step(s, Approve).state;
      var authenticated := Step(approved, AuthenticationResult(Token(2, prepared.id, ForAuthentication), true)).state;
      var finished := Step(authenticated, PreflightFinished(Token(2, prepared.id, ForPreflight), result)).state;
      && finished.phase == Finished && finished.sliderActive
      && Step(finished, SliderEnded(cancelled)) == Ignored(finished.(sliderActive := false)) != Ignored(finished)
  {
    hide State.ToSnapshot, Transaction.DecimalNonce, Transaction.IsReadyForApproval, Estimate.ApplyBaseFeeContext;
    var approved := Step(s, Approve).state;
    assert approved == s.Begin(Authenticating);
    var authenticated := Step(approved, AuthenticationResult(Token(2, prepared.id, ForAuthentication), true)).state;
    assert authenticated == approved.(phase := Preflighting);
    var finished := Step(authenticated, PreflightFinished(Token(2, prepared.id, ForPreflight), result)).state;
    assert finished.phase == Finished && finished.sliderActive && !finished.gatePending;
  }

  lemma {:induction false} LastThree(start: State, prepared: Transaction, result: PreflightResult)
    ensures var events := HeldThroughout(prepared, result);
      var ready := Reached(start, events[..4]);
      var approved := Step(ready, Approve).state;
      var authenticated := Step(approved, AuthenticationResult(Token(2, prepared.id, ForAuthentication), true)).state;
      Reached(start, events)
        == Step(authenticated, PreflightFinished(Token(2, prepared.id, ForPreflight), result)).state
  {
    hide Step, Reached;
    var events := HeldThroughout(prepared, result);
    ReachedNext(start, events[..4], events[4]);
    ReachedNext(start, events[..5], events[5]);
    ReachedNext(start, events[..6], events[6]);
    assert events[..4] + [events[4]] == events[..5];
    assert events[..5] + [events[5]] == events[..6];
    assert events[..6] + [events[6]] == events;
  }

  predicate EndsInCompletion(effects: seq<Effect>) {
    Last(effects).Some? && Last(effects).value.Complete?
  }

  lemma {:induction false} CompletingFinishes(s: State, event: Event)
    requires EndsInCompletion(Step(s, event).effects)
    ensures Step(s, event).state.phase == Finished && s.phase != Finished
  {
    hide ApplyEdit, Estimate.ApplyBaseFeeContext, Transaction.IsReadyForApproval, State.CanEdit;
    hide State.ToSnapshot, Transaction.DecimalNonce, State.AcceptsUpdate, State.CanApprove, State.AllowsMutation;
    hide SpeedChosen, Acted;
    match event {
      case SpeedSet(units, info) => SpeedNeverCompletes(s, units, info);
      case AlertActed(token, action) => ActionsNeverComplete(s, token, action);
      case _ =>
    }
  }

  lemma {:induction false} SpeedNeverCompletes(s: State, units: nat, info: Info)
    ensures !EndsInCompletion(SpeedChosen(s, units, info).effects)
  {
    hide SetFeeForSpeed, State.ToSnapshot, State.AllowsMutation;
  }

  lemma {:induction false} ActionsNeverComplete(s: State, token: AlertToken, action: AlertAction)
    ensures !EndsInCompletion(Acted(s, token, action).effects)
  {
    hide State.ToSnapshot, State.IsCurrentAlert;
  }

  lemma {:induction false} FinishingCompletes(s: State, event: Event)
    requires s.phase != Finished && Step(s, event).state.phase == Finished
    ensures EndsInCompletion(Step(s, event).effects)
  {
    hide ApplyEdit, SetFeeForSpeed, Estimate.ApplyBaseFeeContext, Transaction.IsReadyForApproval, State.CanEdit;
    hide State.ToSnapshot, Transaction.DecimalNonce, Estimate.SuggestedFee;
    hide State.IsCurrentAlert, State.AcceptsUpdate, State.CanApprove, State.AllowsMutation;
  }

  lemma {:induction false} FinishedForGood(s: State, event: Event)
    requires s.phase == Finished
    ensures Step(s, event).state.phase == Finished
  {
    hide ApplyEdit, SetFeeForSpeed, Estimate.ApplyBaseFeeContext, Transaction.IsReadyForApproval;
    hide State.ToSnapshot, Transaction.DecimalNonce, Estimate.SuggestedFee;
  }

  /** At most one completion, and exactly one once the approval is finished. */
  lemma {:induction false} CompletesOnce(s: State, events: seq<Event>)
    requires s.phase != Finished
    ensures |After(s, events).completions| == if After(s, events).state.phase == Finished then 1 else 0
    decreases |events|
  {
    hide Step;
    if events != [] {
      CompletesOnce(s, events[..|events| - 1]);
      var before := After(s, events[..|events| - 1]).state;
      if EndsInCompletion(Step(before, events[|events| - 1]).effects) {
        CompletingFinishes(before, events[|events| - 1]);
      } else if before.phase == Finished {
        FinishedForGood(before, events[|events| - 1]);
      } else if Step(before, events[|events| - 1]).state.phase == Finished {
        FinishingCompletes(before, events[|events| - 1]);
      }
    }
  }

  lemma {:induction false} InvAlways(s: State, events: seq<Event>)
    requires Inv(s)
    ensures Inv(After(s, events).state)
    decreases |events|
  {
    hide Step, Inv;
    if events != [] {
      InvAlways(s, events[..|events| - 1]);
      StepKeepsInv(After(s, events[..|events| - 1]).state, events[|events| - 1]);
    }
  }

  lemma {:induction false} AlertsAlwaysFounded(transaction: Transaction, network: Network, policy: Policy,
                                               events: seq<Event>)
    ensures AlertsAreFounded(After(Initial(transaction, network, policy), events).state)
    decreases |events|
  {
    hide Step, Inv, AlertsAreFounded;
    var start := Initial(transaction, network, policy);
    InitiallyHolds(transaction, network, policy);
    if events == [] {
      NoAlertAtFirst(transaction, network, policy);
    } else {
      InvAlways(start, events[..|events| - 1]);
      AlertsAlwaysFounded(transaction, network, policy, events[..|events| - 1]);
      StepKeepsAlertsFounded(After(start, events[..|events| - 1]).state, events[|events| - 1]);
    }
  }

  lemma {:induction false} NoAlertAtFirst(transaction: Transaction, network: Network, policy: Policy)
    ensures AlertsAreFounded(Initial(transaction, network, policy))
  {
  }

  // ----- a ready transaction is as it was prepared

  predicate ChangedOnlyWhileEditing(h: History) {
    h.change != NoChange ==> h.state.phase == Editing || h.state.phase == Finished
  }

  lemma {:induction false} ChangeLeadsToEditing(h: History, event: Event)
    requires Inv(h.state) && ChangedOnlyWhileEditing(h)
    ensures ChangedOnlyWhileEditing(Recorded(h, event))
  {
    hide ApplyEdit, SetFeeForSpeed, Estimate.ApplyBaseFeeContext, Transaction.IsReadyForApproval;
    hide State.ToSnapshot, Transaction.DecimalNonce, Estimate.SuggestedFee;
    if event.SpeedSet? {
      SliderKeepsIdentity(h.state.transaction, event.units, event.info);
    }
  }

  /** Whenever the transaction can be approved, and from then on until the approval ends, neither an edit nor the slider
      has changed it since the preparation that made it ready. */
  lemma {:induction false} ReadyMeansUnchanged(s: State, events: seq<Event>)
    requires Inv(s)
    ensures ChangedOnlyWhileEditing(After(s, events))
    decreases |events|
  {
    hide Step, Inv, ChangedOnlyWhileEditing, Recorded;
    if events != [] {
      var h := After(s, events[..|events| - 1]);
      ReadyMeansUnchanged(s, events[..|events| - 1]);
      InvAlways(s, events[..|events| - 1]);
      ChangeLeadsToEditing(h, events[|events| - 1]);
    } else {
      NothingChangedAtFirst(s);
    }
  }

  lemma {:induction false} NothingChangedAtFirst(s: State)
    ensures ChangedOnlyWhileEditing(Opening(s))
  {
  }

  // ----- what completes is what was approved

  /** The preflight answers about the transaction it was asked about, and the user can only cancel. */
  predicate IsFaithful(h: History, event: Event) {
    && (event.Finish? ==> event.completed.None?)
    && (event.PreflightFinished? ==>
          && event.token in h.running
          && event.result == Preflight(h.running[event.token], h.state.network, event.result.estimate))
  }

  predicate AreFaithful(s: State, events: seq<Event>)
    decreases |events|
  {
    events == [] ||
      (AreFaithful(s, events[..|events| - 1])
       && IsFaithful(After(s, events[..|events| - 1]), events[|events| - 1]))
  }

  /** While authentication and preflight are under way, the transaction is the one approved. */
  predicate ApprovalHolds(h: History) {
    var s := h.state;
    && (s.phase == Authenticating || s.phase == Preflighting ==>
          && h.approval.Some? && h.approval.value.transaction == s.transaction
          && s.transaction.IsReadyForApproval(s.network))
    && (s.phase == Preflighting ==>
          var token := Token(s.attempt, s.transaction.id, ForPreflight);
          && token in h.running && h.running[token] == s.transaction
          && h.approval.value.authentication
             == (if s.policy == AuthenticationSkipped then None
                 else Some(Token(s.attempt, s.transaction.id, ForAuthentication))))
    && (s.phase == Authenticating ==> s.policy == AuthenticationRequired)
  }

  lemma {:induction false} ApprovalKept(h: History, event: Event)
    requires Inv(h.state) && ApprovalHolds(h)
    ensures ApprovalHolds(Recorded(h, event))
  {
    hide ApplyEdit, SetFeeForSpeed, Estimate.ApplyBaseFeeContext, Transaction.IsReadyForApproval, State.CanEdit;
    hide State.ToSnapshot, Transaction.DecimalNonce, Estimate.SuggestedFee;
    if event.Approve? || event.AuthenticationResult? {
      ApprovalBegins(h, event);
    } else {
      hide Step, Inv;
      OthersLeaveTheApproval(h.state, event);
      StepKeepsPolicy(h.state, event);
    }
  }

  lemma {:induction false} ApprovalBegins(h: History, event: Event)
    requires Inv(h.state) && ApprovalHolds(h) && (event.Approve? || event.AuthenticationResult?)
    ensures ApprovalHolds(Recorded(h, event))
  {
    hide Transaction.IsReadyForApproval, State.ToSnapshot;
  }

  /** Nobody else touches what has been approved, or has a preflight run. */
  predicate LeavesTheApproval(s: State, result: Reduction) {
    && (result.state.phase == Authenticating || result.state.phase == Preflighting ==>
          && result.state.phase == s.phase && result.state.attempt == s.attempt
          && result.state.transaction == s.transaction)
    && (Last(result.effects).Some? ==> !Last(result.effects).value.RunPreflight?)
  }

  lemma {:induction false} OthersLeaveTheApproval(s: State, event: Event)
    requires !event.Approve? && !event.AuthenticationResult?
    ensures LeavesTheApproval(s, Step(s, event))
  {
    hide ApplyEdit, Estimate.ApplyBaseFeeContext, State.CanApprove;
    hide State.ToSnapshot, Transaction.DecimalNonce, Preflighted, SpeedChosen, Acted;
    match event {
      case PreflightFinished(token, result) => PreflightEndsTheApproval(s, token, result);
      case SpeedSet(units, info) => SpeedLeavesTheApproval(s, units, info);
      case AlertActed(token, action) => ActionLeavesTheApproval(s, token, action);
      case _ =>
    }
  }

  lemma {:induction false} PreflightEndsTheApproval(s: State, token: Token, result: PreflightResult)
    ensures LeavesTheApproval(s, Preflighted(s, token, result))
  {
    hide Estimate.ApplyBaseFeeContext, State.ToSnapshot, Transaction.DecimalNonce;
  }

  lemma {:induction false} SpeedLeavesTheApproval(s: State, units: nat, info: Info)
    ensures LeavesTheApproval(s, SpeedChosen(s, units, info))
  {
    hide SetFeeForSpeed, State.ToSnapshot;
  }

  lemma {:induction false} ActionLeavesTheApproval(s: State, token: AlertToken, action: AlertAction)
    ensures LeavesTheApproval(s, Acted(s, token, action))
  {
    hide State.ToSnapshot;
  }

  lemma {:induction false} ApprovalAlways(s: State, events: seq<Event>)
    requires Inv(s) && s.phase == Idle
    ensures ApprovalHolds(After(s, events))
    decreases |events|
  {
    hide Step, Inv, Recorded;
    if events != [] {
      hide ApprovalHolds;
      ApprovalAlways(s, events[..|events| - 1]);
      InvAlways(s, events[..|events| - 1]);
      ApprovalKept(After(s, events[..|events| - 1]), events[|events| - 1]);
    }
  }

  lemma {:induction false} SafePreflightKeepsTheTransaction(transaction: Transaction, network: Network,
                                                            estimate: Estimate)
    requires Preflight(transaction, network, estimate).Safe?
    ensures var candidate := Preflight(transaction, network, estimate).transaction;
      && candidate == estimate.ApplyBaseFeeContext(transaction)
      && candidate.SameButBaseFees(transaction)
      && candidate.preparedFee.Some? && IsSafe(candidate, candidate.preparedFee.value, estimate)
  {
    EstimateKeepsIdentity(transaction, estimate);
  }

  predicate Completes(s: State, event: Event, completed: Transaction) {
    Last(Step(s, event).effects) == Some(Complete(Some(completed)))
  }

  /** What `completed` owes to the approval: it was ready when the user approved it, an authentication for that same
      attempt succeeded, only its base-fee context has changed since, and its fee is safe under `estimate`. */
  predicate WasApproved(h: History, completed: Transaction, estimate: Estimate) {
    && h.approval.Some?
    && var approval := h.approval.value;
    && approval.transaction.IsReadyForApproval(h.state.network)
    && approval.authentication == Some(Token(h.state.attempt, approval.transaction.id, ForAuthentication))
    && completed.SameButBaseFees(approval.transaction)
    && completed.preparedFee.Some? && IsSafe(completed, completed.preparedFee.value, estimate)
  }

  lemma {:induction false} OnlyPreflightCompletes(s: State, event: Event, completed: Transaction)
    requires Completes(s, event, completed)
    ensures event.Finish? ==> event.completed == Some(completed)
    ensures !event.Finish? ==>
      && event.PreflightFinished? && s.phase == Preflighting && event.result.Safe?
      && event.token == Token(s.attempt, event.result.transaction.id, ForPreflight)
      && s.transactionId == Some(event.token.transactionId)
      && completed == event.result.estimate.ApplyBaseFeeContext(event.result.transaction)
  {
    hide ApplyEdit, SetFeeForSpeed, Estimate.ApplyBaseFeeContext, Transaction.IsReadyForApproval, State.CanEdit;
    hide State.ToSnapshot, Transaction.DecimalNonce, Estimate.SuggestedFee;
  }

  /** Whether authentication was required or not: what completes is the transaction held, up to its base fees. */
  lemma {:induction false} CompletionIsOfTheHeld(h: History, event: Event, completed: Transaction)
    requires Inv(h.state) && ApprovalHolds(h)
    ensures IsFaithful(h, event) && Completes(h.state, event, completed) ==>
      && event.PreflightFinished? && h.state.phase == Preflighting
      && completed.SameButBaseFees(h.state.transaction)
      && completed.preparedFee.Some? && IsSafe(completed, completed.preparedFee.value, event.result.estimate)
  {
    hide Step, Preflight, Estimate.ApplyBaseFeeContext, Transaction.IsReadyForApproval, IsSafe, Completes;
    if IsFaithful(h, event) && Completes(h.state, event, completed) {
      OnlyPreflightCompletes(h.state, event, completed);
      SafePreflightKeepsTheTransaction(h.state.transaction, h.state.network, event.result.estimate);
      EstimateKeepsIdentity(h.state.transaction, event.result.estimate);
    }
  }

  lemma {:induction false} CompletionWasApproved(h: History, event: Event, completed: Transaction)
    requires Inv(h.state) && ApprovalHolds(h) && h.state.policy == AuthenticationRequired
    ensures IsFaithful(h, event) && Completes(h.state, event, completed)
      ==> event.PreflightFinished? && WasApproved(h, completed, event.result.estimate)
  {
    hide Step, Transaction.IsReadyForApproval, IsSafe, Completes, IsFaithful;
    CompletionIsOfTheHeld(h, event, completed);
  }

  lemma {:induction false} PolicyStays(s: State, events: seq<Event>)
    ensures After(s, events).state.policy == s.policy && After(s, events).state.network == s.network
    decreases |events|
  {
    hide Step;
    if events != [] {
      PolicyStays(s, events[..|events| - 1]);
      StepKeepsPolicy(After(s, events[..|events| - 1]).state, events[|events| - 1]);
    }
  }

  lemma {:induction false} StepKeepsPolicy(s: State, event: Event)
    ensures Step(s, event).state.policy == s.policy && Step(s, event).state.network == s.network
  {
    hide ApplyEdit, SetFeeForSpeed, Estimate.ApplyBaseFeeContext, Transaction.IsReadyForApproval, State.CanEdit;
    hide State.ToSnapshot, Transaction.DecimalNonce, State.AllowsMutation, State.AcceptsUpdate, State.IsCurrent;
    hide Preflighted, SpeedChosen, Acted;
    match event {
      case PreflightFinished(token, result) => PreflightKeepsPolicy(s, token, result);
      case SpeedSet(units, info) => SpeedKeepsPolicy(s, units, info);
      case AlertActed(token, action) => ActionKeepsPolicy(s, token, action);
      case _ =>
    }
  }

  lemma {:induction false} PreflightKeepsPolicy(s: State, token: Token, result: PreflightResult)
    ensures var after := Preflighted(s, token, result).state; after.policy == s.policy && after.network == s.network
  {
    hide Estimate.ApplyBaseFeeContext, State.ToSnapshot, Transaction.DecimalNonce, State.IsCurrent;
  }

  lemma {:induction false} SpeedKeepsPolicy(s: State, units: nat, info: Info)
    ensures var after := SpeedChosen(s, units, info).state; after.policy == s.policy && after.network == s.network
  {
    hide SetFeeForSpeed, State.ToSnapshot, State.AllowsMutation;
  }

  lemma {:induction false} ActionKeepsPolicy(s: State, token: AlertToken, action: AlertAction)
    ensures var after := Acted(s, token, action).state; after.policy == s.policy && after.network == s.network
  {
    hide State.ToSnapshot, State.IsCurrentAlert;
  }

  /** With authentication required, what completes is what was approved, in every run. */
  lemma {:induction false} CompletesWhatWasApproved(s: State, events: seq<Event>, event: Event, completed: Transaction)
    requires Inv(s) && s.phase == Idle && s.policy == AuthenticationRequired
    ensures AreFaithful(s, events + [event]) && Completes(After(s, events).state, event, completed)
      ==> event.PreflightFinished? && WasApproved(After(s, events), completed, event.result.estimate)
  {
    hide Step, Inv, ApprovalHolds, WasApproved, Completes;
    if AreFaithful(s, events + [event]) && Completes(After(s, events).state, event, completed) {
      assert (events + [event])[..|events|] == events;
      InvAlways(s, events);
      ApprovalAlways(s, events);
      PolicyStays(s, events);
      CompletionWasApproved(After(s, events), event, completed);
    }
  }
}
