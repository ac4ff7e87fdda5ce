/** That an approval gets on: every request of the user's is answered, and from every state there is a way to the end.
    */
module ApprovalProgress {
  import opened Wrappers
  import opened Fees
  import opened FeeResolution
  import opened Edits
  import opened ApprovalState
  import opened ApprovalRuns

  /** What the result asks for: a preparation of the transaction held, in a new attempt that has just begun. */
  predicate Prepares(before: State, result: Reduction, forceGasCheck: bool) {
    var after := result.state;
    && after.attempt == before.attempt + 1 && after.phase == Preparing
    && Last(result.effects)
       == Some(RunPreparation(Token(after.attempt, after.transaction.id, ForPreparation), after.transaction,
                              forceGasCheck))
  }

  // ----- the slider

  /** A slider change that has not been prepared yet waits for the slider to be released. */
  predicate SliderChangeIsPending(h: History) {
    h.change == BySlider ==> h.state.gatePending || h.state.phase == Finished
  }

  lemma {:induction false} SliderChangeStaysPending(h: History, event: Event)
    requires Inv(h.state) && SliderChangeIsPending(h)
    ensures SliderChangeIsPending(Recorded(h, event))
  {
    hide ApplyEdit, SetFeeForSpeed, Estimate.ApplyBaseFeeContext, Transaction.IsReadyForApproval, State.CanEdit;
    hide State.ToSnapshot, Transaction.DecimalNonce;
    if event.SpeedSet? {
      SliderKeepsIdentity(h.state.transaction, event.units, event.info);
    }
  }

  lemma {:induction false} SliderChangeAlwaysPending(s: State, events: seq<Event>)
    requires Inv(s)
    ensures SliderChangeIsPending(After(s, events))
    decreases |events|
  {
    hide Step, Inv, Recorded;
    if events != [] {
      hide SliderChangeIsPending;
      SliderChangeAlwaysPending(s, events[..|events| - 1]);
      InvAlways(s, events[..|events| - 1]);
      SliderChangeStaysPending(After(s, events[..|events| - 1]), events[|events| - 1]);
    }
  }

  /** Released without a cancellation, the slider has the transaction it has changed prepared. */
  lemma {:induction false} ReleaseRestarts(s: State)
    requires Inv(s) && s.gatePending
    ensures var result := Step(s, SliderEnded(false));
      Prepares(s, result, false) && result.state.transaction == s.transaction && !result.state.sliderActive
  {
    hide State.ToSnapshot;
  }

  lemma {:induction false} ReleaseChangesNothingElse(s: State, cancelled: bool)
    requires Inv(s) && (cancelled || !s.gatePending)
    ensures Step(s, SliderEnded(cancelled)) == Ignored(s.(sliderActive := false, gatePending := false))
  {
    hide State.ToSnapshot;
  }

  /** In every run: when the slider is released without a cancellation, its changes are prepared; so unless the approval
      is over, a change that is not has been made in the editor, or given up. */
  lemma {:induction false} NoSliderChangeIsLost(s: State, events: seq<Event>)
    requires Inv(s)
    ensures var before, after := After(s, events), After(s, events + [SliderEnded(false)]);
      && (after.change == BySlider ==> after.state.phase == Finished)
      && (before.change == BySlider && before.state.phase != Finished ==>
            && after.change == NoChange
            && Prepares(before.state, Step(before.state, SliderEnded(false)), false)
            && after.state.transaction == before.state.transaction)
  {
    hide Step, Inv, Prepares;
    assert (events + [SliderEnded(false)])[..|events|] == events;
    var h := After(s, events);
    InvAlways(s, events);
    SliderChangeAlwaysPending(s, events);
    if h.state.gatePending {
      ReleaseRestarts(h.state);
      PreparingResets(h, SliderEnded(false));
    } else {
      ReleaseChangesNothingElse(h.state, false);
    }
  }

  lemma {:induction false} PreparingResets(h: History, event: Event)
    requires Prepares(h.state, Step(h.state, event), false)
    ensures Recorded(h, event).change == NoChange
  {
    hide Step;
  }

  /** Moving the slider where the transaction may be changed: a move that changes it is prepared at once, or when the
      slider is released if the user is holding it. */
  lemma {:induction false} SliderMoves(s: State, units: nat, info: Info)
    requires s.phase != Authenticating && s.phase != Preflighting && s.phase != ReviewingFees && s.phase != Finished
    ensures var result := Step(s, SpeedSet(units, info));
      && result.state.transaction == SetFeeForSpeed(s.transaction, units, info)
      && (result.state.transaction != s.transaction ==>
            if s.sliderActive then result.state.gatePending && result.state.sliderActive
            else Prepares(s, result, false))
      && (result.state.transaction == s.transaction ==> result == Ignored(s))
  {
    hide SetFeeForSpeed, State.ToSnapshot;
    SliderKeepsIdentity(s.transaction, units, info);
  }

  /** The user takes hold of the slider wherever the transaction may be changed. */
  lemma {:induction false} SliderIsTaken(s: State)
    ensures var isLocked := s.phase in {Authenticating, Preflighting, ReviewingFees, Finished};
      Step(s, SliderBegan) == Ignored(if isLocked then s else s.(sliderActive := true))
  {
  }

  // ----- edits

  /** Where an edit is possible: nothing is under way, and there is a fee to edit, or none was asked for and the
      preparation has failed. */
  predicate MayBeEdited(s: State) {
    && (s.phase == Idle || s.phase == Ready || s.phase == Failed || s.phase == Editing)
    && (s.transaction.intent.AnyFee? && s.transaction.preparedFee.None? ==> s.phase == Failed)
  }

  /** There, and nowhere else, an edit that changes something is installed, under a new attempt that begins with
      editing; nothing is left showing or pending. */
  lemma {:induction false} EditsTakeEffect(s: State, edit: Edit, freshId: nat)
    ensures var result := Step(s, ApplyEdits(edit, freshId));
      var edited := ApplyEdit(s.transaction, edit, freshId);
      && (!MayBeEdited(s) || edited.None? ==> result == Ignored(s))
      && (MayBeEdited(s) && edited.Some? ==>
            && result.state.transaction == edited.value && result.state.phase == Editing
            && result.state.attempt == s.attempt + 1
            && result.state.alert.None? && !result.state.sliderActive && !result.state.gatePending
            && result.effects == [CancelActiveRequest, SendSnapshot(result.state.ToSnapshot())])
  {
    hide ApplyEdit, State.ToSnapshot;
  }

  // ----- alerts

  /** Every button does what it says: retrying and acknowledging prepare again, with the gas check the failed
      preparation was run with; editing opens the editor; cancelling leaves all as it is. Each of them closes the alert.
      */
  lemma {:induction false} AlertsAreAnswered(s: State, action: AlertAction)
    requires Inv(s) && s.alert.Some? && action in Presented(s.alert.value)
    ensures var result := Step(s, AlertActed(s.alert.value.Token(), action));
      && result.state.alert.None? && result.state.transaction == s.transaction
      && (action == Retry || action == Acknowledge ==>
            Prepares(s, result, s.alert.value.kind.PreparationFailed? && s.alert.value.kind.forceGasCheck))
      && (action == EditFees || action == CancelAlert ==>
            && result.state == s.(alert := None)
            && result.effects[..1] == [SendSnapshot(result.state.ToSnapshot())]
            && result.effects[1..] == if action == EditFees then [OpenEditor] else [])
  {
    hide State.ToSnapshot;
  }

  /** An alert that no longer shows is not answered. */
  lemma {:induction false} StaleAlertsAreIgnored(s: State, token: AlertToken, action: AlertAction)
    requires s.alert.None? || s.alert.value.Token() != token
    ensures Step(s, AlertActed(token, action)) == Ignored(s)
  {
    hide State.ToSnapshot;
  }

  /** The button that goes on comes first, and cancelling last. */
  lemma {:induction false} CancellingComesLast(alert: Alert)
    ensures var actions := Presented(alert);
      && actions != [] && actions[0] != CancelAlert
      && (CancelAlert in actions <==> !alert.kind.FeesWereUpdated?)
      && (CancelAlert in actions ==> |actions| == 2 && actions[1] == CancelAlert)
  {
  }

  // ----- results

  /** The alert that tells of a verdict. */
  predicate TellsOf(kind: AlertKind, result: PreflightResult) {
    && (result.WalletManagedUpdated? ==> kind == FeesWereUpdated)
    && (result.UserControlledUnsafe? ==> kind == FeesAreUnsafe)
    && (result.FeesUnavailable? ==> kind == FeesAreUnavailable)
  }

  predicate Shows(result: Reduction) {
    && result.state.alert.Some? && Last(result.effects) == Some(ShowAlert(result.state.alert.value))
    && result.state.IsCurrentAlert(result.state.alert.value.Token())
  }

  /** The verdict of the preflight under way completes the approval, or is told by an alert of its own; either way the
      transaction it is about is installed, with the context of its estimate. */
  lemma {:induction false} VerdictsAreTold(s: State, verdict: PreflightResult)
    requires Inv(s) && s.phase == Preflighting && verdict.transaction.id == s.transaction.id
    ensures var result := Step(s, PreflightFinished(Token(s.attempt, s.transaction.id, ForPreflight), verdict));
      && result.state.transaction == verdict.estimate.ApplyBaseFeeContext(verdict.transaction)
      && result.state.estimate == Some(verdict.estimate)
      && |result.effects| == 4 && result.effects[1] == SendEstimate(verdict.estimate)
      && result.effects[2] == SendSnapshot(result.state.ToSnapshot())
      && (verdict.Safe? ==>
            result.state.phase == Finished && Last(result.effects) == Some(Complete(Some(result.state.transaction))))
      && (!verdict.Safe? ==> Shows(result) && TellsOf(result.state.alert.value.kind, verdict))
  {
    hide Estimate.ApplyBaseFeeContext, State.ToSnapshot, Transaction.DecimalNonce;
    EstimateKeepsIdentity(verdict.transaction, verdict.estimate);
  }

  /** A failure of the preparation under way is told as it is, and can be retried as it was run. */
  lemma {:induction false} FailuresAreTold(s: State, failure: FeeResolution.PreparationFailure)
    requires Inv(s) && s.phase == Preparing
    ensures var result := Step(s, PreparationFailure(Token(s.attempt, s.transaction.id, ForPreparation), failure));
      && Shows(result) && result.state.alert.value.kind == PreparationFailed(failure, s.forceGasCheck)
      && result.state.phase == Failed && result.state.transaction.SameButBaseFees(s.transaction)
      && (s.estimate.Some? ==> result.state.transaction == s.transaction)
  {
    hide State.ToSnapshot;
  }

  /** An estimate is announced, and then shown with the transaction. */
  lemma {:induction false} EstimatesAreTold(s: State, estimate: Estimate)
    requires Inv(s) && s.phase == Preparing
    ensures var result := Step(s, PreparationEstimate(Token(s.attempt, s.transaction.id, ForPreparation), estimate));
      && result.state.transaction == estimate.ApplyBaseFeeContext(s.transaction)
      && result.effects == [SendEstimate(estimate), SendSnapshot(result.state.ToSnapshot())]
  {
    hide Estimate.ApplyBaseFeeContext, State.ToSnapshot;
  }

  /** The nonce of the first transaction that has one is suggested: of an update, a success or a verdict. */
  lemma {:induction false} NoncesAreSuggested(s: State, transaction: Transaction, verdict: PreflightResult)
    requires Inv(s) && transaction.id == s.transaction.id && verdict.transaction.id == s.transaction.id
    ensures var preparing := Token(s.attempt, s.transaction.id, ForPreparation);
      var preflighting := Token(s.attempt, s.transaction.id, ForPreflight);
      && (s.phase == Preparing ==>
            var suggested := if s.suggestedNonce.Some? then s.suggestedNonce else transaction.DecimalNonce();
            && Step(s, PreparationUpdate(preparing, transaction)).state.suggestedNonce == suggested
            && Step(s, PreparationSucceeded(preparing, transaction)).state.suggestedNonce == suggested)
      && (s.phase == Preflighting ==>
            Step(s, PreflightFinished(preflighting, verdict)).state.suggestedNonce
            == if s.suggestedNonce.Some? then s.suggestedNonce else verdict.transaction.DecimalNonce())
  {
    hide Estimate.ApplyBaseFeeContext, State.ToSnapshot, Transaction.DecimalNonce;
  }

  /** A failed authentication gives the transaction back, to be approved again. */
  lemma {:induction false} FailedAuthenticationGivesBack(s: State)
    requires Inv(s) && s.phase == Authenticating && s.transaction.IsReadyForApproval(s.network)
    ensures var token := Token(s.attempt, s.transaction.id, ForAuthentication);
      var after := Step(s, AuthenticationResult(token, false)).state;
      after.transaction == s.transaction && after.attempt == s.attempt && after.CanApprove()
  {
    hide Transaction.IsReadyForApproval, State.ToSnapshot;
  }

  /** Finishing completes with what the caller says, unless all is over. */
  lemma {:induction false} FinishingEnds(s: State, completed: Option<Transaction>)
    requires s.phase != Finished
    ensures var result := Step(s, Finish(completed));
      && result.state.phase == Finished && Last(result.effects) == Some(Complete(completed))
      && result.state.alert.None? && !result.state.gatePending && !result.state.sliderActive
      && (completed.Some? ==> result.state.transaction == completed.value)
      && (completed.None? ==> result.state.transaction == s.transaction)
      && result.effects[0] == CancelActiveRequest
  {
    hide State.ToSnapshot;
  }

  // ----- the snapshot

  /** What a snapshot says can be done has an effect, and only that: approving, and starting to move the slider. */
  lemma {:induction false} SnapshotsTellTheTruth(s: State, edit: Edit, freshId: nat)
    requires Inv(s)
    ensures var snapshot := s.ToSnapshot();
      && snapshot.transaction == s.transaction && snapshot.phase == s.phase && snapshot.attempt == s.attempt
      && (snapshot.canApprove <==> Step(s, Approve) != Ignored(s))
      && (snapshot.canEdit && ApplyEdit(s.transaction, edit, freshId).Some?
          <==> Step(s, ApplyEdits(edit, freshId)) != Ignored(s))
      && (!s.sliderActive ==> (snapshot.allowsMutation <==> Step(s, SliderBegan) != Ignored(s)))
      && snapshot.hasEstimate == s.estimate.Some? && snapshot.suggestedNonce == s.suggestedNonce
      && (s.estimate.Some? ==> snapshot.suggestedFee == s.estimate.value.SuggestedFee(s.transaction.intent))
      && (s.estimate.None? ==> snapshot.suggestedFee.None?)
  {
    hide ApplyEdit, Transaction.IsReadyForApproval, Estimate.SuggestedFee;
  }

  // ----- from every state to the end

  /** The answers of a user and an environment that go along: the preparation brings `prepared`, the user approves it
      and is authenticated, and the preflight finds it safe. */
  function GoingAlong(s: State, prepared: Transaction, verdict: PreflightResult): seq<Event> {
    var preparing := Token(s.attempt + 1, prepared.id, ForPreparation);
    [StartPreparation(false), PreparationUpdate(preparing, prepared), PreparationSucceeded(preparing, prepared),
     Approve]
    + (if s.policy == AuthenticationSkipped
       then [PreflightFinished(Token(s.attempt + 1, prepared.id, ForPreflight), verdict)]
       else [AuthenticationResult(Token(s.attempt + 2, prepared.id, ForAuthentication), true),
             PreflightFinished(Token(s.attempt + 2, prepared.id, ForPreflight), verdict)])
  }

  lemma {:induction false} PreparedAnew(s: State, prepared: Transaction)
    requires s.phase != Finished && prepared.id == s.transaction.id
    ensures var token := Token(s.attempt + 1, prepared.id, ForPreparation);
      var started := Step(s, StartPreparation(false)).state;
      var updated := Step(started, PreparationUpdate(token, prepared)).state;
      var ready := Step(updated, PreparationSucceeded(token, prepared)).state;
      && ready.phase == Ready && ready.attempt == s.attempt + 1 && ready.transactionId == Some(prepared.id)
      && ready.transaction == prepared && ready.network == s.network && ready.policy == s.policy
  {
    hide State.ToSnapshot, Transaction.DecimalNonce;
  }

  predicate Ends(result: Reduction, verdict: PreflightResult) {
    && result.state.phase == Finished
    && Last(result.effects) == Some(Complete(Some(verdict.estimate.ApplyBaseFeeContext(verdict.transaction))))
  }

  lemma {:induction false} ApprovedToTheEnd(s: State, verdict: PreflightResult)
    requires s.phase == Ready && s.transactionId == Some(s.transaction.id)
    requires s.transaction.IsReadyForApproval(s.network)
    requires verdict.Safe? && verdict.transaction.id == s.transaction.id
    ensures var approved := Step(s, Approve).state; var id := s.transaction.id;
      if s.policy == AuthenticationSkipped
      then Ends(Step(approved, PreflightFinished(Token(s.attempt, id, ForPreflight), verdict)), verdict)
      else
        var token := Token(s.attempt + 1, id, ForAuthentication);
        var authenticated := Step(approved, AuthenticationResult(token, true)).state;
        Ends(Step(authenticated, PreflightFinished(Token(s.attempt + 1, id, ForPreflight), verdict)), verdict)
  {
    hide State.ToSnapshot, Transaction.DecimalNonce, Transaction.IsReadyForApproval, Estimate.ApplyBaseFeeContext;
    var approved := Step(s, Approve).state;
    if s.policy == AuthenticationSkipped {
      assert approved == s.(phase := Preflighting, alert := None);
    } else {
      assert approved == s.Begin(Authenticating);
    }
  }

  /** An approval is never stuck: from every state that is not finished, whatever is under way or showing, starting
      again leads to a completion with the transaction that is prepared, approved and found safe. */
  lemma {:induction false} NeverStuck(s: State, prepared: Transaction, verdict: PreflightResult)
    requires s.phase != Finished && prepared.id == s.transaction.id && prepared.IsReadyForApproval(s.network)
    requires verdict.Safe? && verdict.transaction.id == prepared.id
    ensures var events := GoingAlong(s, prepared, verdict); var before := Reached(s, events[..|events| - 1]);
      Ends(Step(before, events[|events| - 1]), verdict)
  {
    hide Step, Reached, Transaction.IsReadyForApproval, Ends;
    var events := GoingAlong(s, prepared, verdict);
    PreparedAnew(s, prepared);
    ReachedFirst(s, events, 0);
    ReachedFirst(s, events, 1);
    ReachedFirst(s, events, 2);
    ReachedFirst(s, events, 3);
    ReachedNone(s);
    assert events[..0] == [];
    ApprovedToTheEnd(Reached(s, events[..3]), verdict);
    if s.policy == AuthenticationRequired {
      ReachedFirst(s, events, 4);
    }
  }

  lemma {:induction false} ReachedFirst(s: State, events: seq<Event>, k: nat)
    requires k < |events|
    ensures Reached(s, events[..k + 1]) == Step(Reached(s, events[..k]), events[k]).state
  {
    hide Step;
    assert events[..k + 1][..k] == events[..k];
  }
}
