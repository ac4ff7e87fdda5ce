/** The transaction approval reducer: it changes its state in place and returns the effects to be run. */
module Approval {
  import opened Wrappers
  import opened Fees
  import opened FeeResolution
  import opened Edits
  import opened ApprovalState

  class Reducer {
    var state: State

    constructor (transaction: Transaction, network: Network, policy: Policy)
      ensures state == Initial(transaction, network, policy)
    {
      state := Initial(transaction, network, policy);
    }

    // ----- the preparation's phases

    method BeginPreparation() returns (attempt: nat)
      modifies this
      ensures state == old(state).Begin(Preparing) && attempt == state.attempt
    {
      attempt := state.attempt + 1;
      state := state.(attempt := attempt, transactionId := Some(state.transaction.id), phase := Preparing);
    }

    method BeginEditing(id: nat)
      modifies this
      ensures state == old(state).(attempt := old(state).attempt + 1, transactionId := Some(id), phase := Editing)
    {
      state := state.(attempt := state.attempt + 1);
      state := state.(transactionId := Some(id), phase := Editing);
    }

    method BeginAuthentication() returns (attempt: Option<nat>)
      modifies this
      ensures old(state).phase == Ready && old(state).transactionId == Some(old(state).transaction.id)
        ==> state == old(state).Begin(Authenticating) && attempt == Some(state.attempt)
      ensures !(old(state).phase == Ready && old(state).transactionId == Some(old(state).transaction.id))
        ==> state == old(state) && attempt.None?
    {
      if state.phase != Ready || state.transactionId != Some(state.transaction.id) {
        return None;
      }
      state := state.(attempt := state.attempt + 1);
      state := state.(phase := Authenticating);
      return Some(state.attempt);
    }

    method EndPreparation()
      modifies this
      ensures state == old(state).End()
    {
      state := state.(attempt := state.attempt + 1);
      state := state.(transactionId := None, phase := Finished);
    }

    // ----- installation

    method InstallTransaction(transaction: Transaction)
      modifies this
      ensures state == old(state).Install(transaction)
    {
      state := state.(transaction := transaction);
      state := state.(suggestedNonce := state.suggestedNonce.Or(transaction.DecimalNonce()));
    }

    method InstallEstimate(estimate: Estimate)
      modifies this
      ensures state == old(state).InstallEstimate(estimate)
    {
      state := state.(estimate := Some(estimate));
      state := state.(transaction := estimate.ApplyBaseFeeContext(state.transaction));
    }

    // ----- events

    method Reduce(event: Event) returns (effects: seq<Effect>)
      modifies this
      ensures Reduction(state, effects) == Step(old(state), event)
    {
      hide Started, TransactionUpdated, Estimated, Succeeded, FailedWith, Approved, Authenticated, Preflighted, Acted;
      hide Edited, SpeedChosen, SliderReleased, FinishedWith;
      match event {
        case StartPreparation(forceGasCheck) => effects := ReduceStart(forceGasCheck);
        case PreparationUpdate(token, transaction) => effects := ReceiveUpdate(token, transaction);
        case PreparationEstimate(token, estimate) => effects := ReceiveEstimate(token, estimate);
        case PreparationSucceeded(token, transaction) => effects := ReceiveSuccess(token, transaction);
        case PreparationFailure(token, failure) => effects := ReceiveFailure(token, failure);
        case Approve => effects := ReduceApprove();
        case AuthenticationResult(token, succeeded) => effects := ReceiveAuthentication(token, succeeded);
        case PreflightFinished(token, result) => effects := ReceivePreflight(token, result);
        case AlertActed(token, action) => effects := HandleAlert(token, action);
        case ApplyEdits(edit, freshId) => effects := ReduceEdits(edit, freshId);
        case SliderBegan =>
          if state.AllowsMutation() {
            state := state.(sliderActive := true);
          }
          effects := [];
        case SpeedSet(units, info) => effects := ReduceSpeed(units, info);
        case SliderEnded(cancelled) => effects := EndSlider(cancelled);
        case Finish(completed) => effects := ReduceFinish(completed);
      }
    }

    method ReduceStart(forceGasCheck: bool) returns (effects: seq<Effect>)
      modifies this
      ensures Reduction(state, effects) == Started(old(state), forceGasCheck)
    {
      if state.phase == Finished {
        return [];
      }
      state := state.(alert := None);
      state := state.(gatePending := false);
      state := state.(sliderActive := false);
      state := state.(estimate := None);
      state := state.(forceGasCheck := forceGasCheck);
      var transaction := state.transaction;
      var attempt := BeginPreparation();
      return [CancelActiveRequest, SendSnapshot(state.ToSnapshot()),
              RunPreparation(Token(attempt, transaction.id, ForPreparation), transaction, forceGasCheck)];
    }

    method ReceiveUpdate(token: Token, transaction: Transaction) returns (effects: seq<Effect>)
      modifies this
      ensures Reduction(state, effects) == TransactionUpdated(old(state), token, transaction)
    {
      if !state.AcceptsUpdate(token) || transaction.id != token.transactionId {
        return [];
      }
      InstallTransaction(transaction);
      return [SendSnapshot(state.ToSnapshot())];
    }

    method ReceiveEstimate(token: Token, estimate: Estimate) returns (effects: seq<Effect>)
      modifies this
      ensures Reduction(state, effects) == Estimated(old(state), token, estimate)
    {
      if token.kind != ForPreparation || !state.IsCurrent(token) {
        return [];
      }
      InstallEstimate(estimate);
      return [SendEstimate(estimate), SendSnapshot(state.ToSnapshot())];
    }

    method ReceiveSuccess(token: Token, prepared: Transaction) returns (effects: seq<Effect>)
      modifies this
      ensures Reduction(state, effects) == Succeeded(old(state), token, prepared)
    {
      if token.kind != ForPreparation || !state.IsCurrent(token) || prepared.id != token.transactionId {
        return [];
      }
      state := state.(phase := Ready);
      state := state.(suggestedNonce := state.suggestedNonce.Or(prepared.DecimalNonce()));
      return [SendSnapshot(state.ToSnapshot())];
    }

    method ReceiveFailure(token: Token, failure: FeeResolution.PreparationFailure) returns (effects: seq<Effect>)
      modifies this
      ensures Reduction(state, effects) == FailedWith(old(state), token, failure)
    {
      if token.kind != ForPreparation || !state.IsCurrent(token) {
        return [];
      }
      state := state.(phase := Failed);
      if state.estimate.None? {
        state := state.(transaction := state.transaction.(currentBaseFee := None, nextBaseFee := None));
      }
      var alert := Alert(token.attempt, token.transactionId, PreparationFailed(failure, state.forceGasCheck));
      state := state.(alert := Some(alert));
      return [ClearActiveRequest(token), SendSnapshot(state.ToSnapshot()), ShowAlert(alert)];
    }

    method ReduceApprove() returns (effects: seq<Effect>)
      modifies this
      ensures Reduction(state, effects) == Approved(old(state))
    {
      hide Transaction.IsReadyForApproval;
      if !state.CanApprove() {
        return [];
      }
      if state.policy == AuthenticationSkipped {
        effects := BeginPreflight();
        return;
      }
      var attempt := BeginAuthentication();
      if attempt.None? {
        return [];
      }
      return [CancelActiveRequest, SendSnapshot(state.ToSnapshot()),
              RequestAuthentication(Token(attempt.value, state.transaction.id, ForAuthentication))];
    }

    method ReceiveAuthentication(token: Token, succeeded: bool) returns (effects: seq<Effect>)
      modifies this
      ensures Reduction(state, effects) == Authenticated(old(state), token, succeeded)
    {
      if token.kind != ForAuthentication || !state.IsCurrent(token) {
        return [];
      }
      if !succeeded {
        state := state.(phase := Ready);
        return [SendSnapshot(state.ToSnapshot())];
      }
      effects := BeginPreflight();
    }

    method BeginPreflight() returns (effects: seq<Effect>)
      modifies this
      ensures Reduction(state, effects) == PreflightBegun(old(state))
    {
      if !(state.phase == Ready || state.phase == Authenticating)
         || state.transactionId != Some(state.transaction.id) {
        return [];
      }
      state := state.(phase := Preflighting);
      state := state.(alert := None);
      return [CancelActiveRequest, SendSnapshot(state.ToSnapshot()),
              RunPreflight(Token(state.attempt, state.transaction.id, ForPreflight), state.transaction)];
    }

    method ReceivePreflight(token: Token, result: PreflightResult) returns (effects: seq<Effect>)
      modifies this
      ensures Reduction(state, effects) == Preflighted(old(state), token, result)
    {
      hide Estimate.ApplyBaseFeeContext, Transaction.DecimalNonce, State.ToSnapshot;
      if token.kind != ForPreflight || !state.IsCurrent(token) || result.transaction.id != token.transactionId {
        return [];
      }
      match result {
        case Safe(transaction, estimate) =>
          InstallTransaction(transaction);
          InstallEstimate(estimate);
          state := state.(alert := None);
          state := state.(gatePending := false);
          EndPreparation();
          return [ClearActiveRequest(token), SendEstimate(estimate), SendSnapshot(state.ToSnapshot()),
                  Complete(Some(state.transaction))];
        case WalletManagedUpdated(transaction, estimate) =>
          state := state.(phase := ReviewingFees);
          effects := Announce(token, transaction, estimate, FeesWereUpdated);
        case UserControlledUnsafe(transaction, estimate) =>
          BeginEditing(token.transactionId);
          effects := Announce(token, transaction, estimate, FeesAreUnsafe);
        case FeesUnavailable(transaction, estimate) =>
          state := state.(phase := Failed);
          effects := Announce(token, transaction, estimate, FeesAreUnavailable);
      }
    }

    /** Installs what the preflight found and alerts the user, on behalf of the attempt that is now under way. */
    method Announce(token: Token, transaction: Transaction, estimate: Estimate, kind: AlertKind)
      returns (effects: seq<Effect>)
      modifies this
      ensures Reduction(state, effects)
           == Alerted(old(state).Install(transaction).InstallEstimate(estimate), token, estimate,
                      Alert(old(state).attempt, transaction.id, kind))
    {
      InstallTransaction(transaction);
      InstallEstimate(estimate);
      var alert := Alert(state.attempt, transaction.id, kind);
      state := state.(alert := Some(alert));
      return [ClearActiveRequest(token), SendEstimate(estimate), SendSnapshot(state.ToSnapshot()), ShowAlert(alert)];
    }

    method HandleAlert(token: AlertToken, action: AlertAction) returns (effects: seq<Effect>)
      modifies this
      ensures Reduction(state, effects) == Acted(old(state), token, action)
    {
      hide Started, State.ToSnapshot;
      if !state.IsCurrentAlert(token) {
        return [];
      }
      match (state.alert.value.kind, action) {
        case (PreparationFailed(failure, forceGasCheck), EditFees) =>
          if failure != UnsafeFees {
            return [];
          }
          effects := CloseAlert();
          effects := effects + [OpenEditor];
        case (PreparationFailed(failure, forceGasCheck), Retry) =>
          if failure == UnsafeFees {
            return [];
          }
          effects := ReduceStart(forceGasCheck);
        case (FeesWereUpdated, Acknowledge) => effects := ReduceStart(false);
        case (FeesAreUnsafe, EditFees) =>
          effects := CloseAlert();
          effects := effects + [OpenEditor];
        case (FeesAreUnavailable, Retry) => effects := ReduceStart(false);
        case (PreparationFailed(_, _), CancelAlert) => effects := CloseAlert();
        case (FeesAreUnsafe, CancelAlert) => effects := CloseAlert();
        case (FeesAreUnavailable, CancelAlert) => effects := CloseAlert();
        case _ => effects := [];
      }
    }

    method CloseAlert() returns (effects: seq<Effect>)
      modifies this
      ensures state == old(state).(alert := None) && effects == [SendSnapshot(state.ToSnapshot())]
    {
      state := state.(alert := None);
      return [SendSnapshot(state.ToSnapshot())];
    }

    method ReduceEdits(edit: Edit, freshId: nat) returns (effects: seq<Effect>)
      modifies this
      ensures Reduction(state, effects) == Edited(old(state), edit, freshId)
    {
      hide ApplyEdit, State.CanEdit, State.ToSnapshot;
      var edited := ApplyEdit(state.transaction, edit, freshId);
      if !state.CanEdit() || edited.None? {
        return [];
      }
      state := state.(transaction := edited.value);
      state := state.(alert := None);
      state := state.(gatePending := false);
      state := state.(sliderActive := false);
      BeginEditing(state.transaction.id);
      return [CancelActiveRequest, SendSnapshot(state.ToSnapshot())];
    }

    method ReduceSpeed(units: nat, info: Info) returns (effects: seq<Effect>)
      modifies this
      ensures Reduction(state, effects) == SpeedChosen(old(state), units, info)
    {
      hide SetFeeForSpeed, Started, State.ToSnapshot;
      if !state.AllowsMutation() {
        return [];
      }
      var previousFee, previousProvenance := state.transaction.preparedFee, state.transaction.provenance;
      state := state.(transaction := SetFeeForSpeed(state.transaction, units, info));
      if state.transaction.preparedFee == previousFee && state.transaction.provenance == previousProvenance {
        return [];
      }
      if !state.sliderActive {
        state := state.(alert := None);
        effects := ReduceStart(false);
        return;
      }
      effects := [];
      if !state.gatePending {
        state := state.(gatePending := true);
        state := state.(alert := None);
        BeginEditing(state.transaction.id);
        effects := [CancelActiveRequest];
      }
      effects := effects + [SendSnapshot(state.ToSnapshot())];
    }

    method EndSlider(cancelled: bool) returns (effects: seq<Effect>)
      modifies this
      ensures Reduction(state, effects) == SliderReleased(old(state), cancelled)
    {
      hide Started;
      state := state.(sliderActive := false);
      if !state.gatePending {
        return [];
      }
      state := state.(gatePending := false);
      if cancelled || !state.AllowsMutation() {
        return [];
      }
      effects := ReduceStart(false);
    }

    method ReduceFinish(completed: Option<Transaction>) returns (effects: seq<Effect>)
      modifies this
      ensures Reduction(state, effects) == FinishedWith(old(state), completed)
    {
      if state.phase == Finished {
        return [];
      }
      if completed.Some? {
        state := state.(transaction := completed.value);
      }
      state := state.(alert := None);
      state := state.(gatePending := false);
      state := state.(sliderActive := false);
      EndPreparation();
      return [CancelActiveRequest, SendSnapshot(state.ToSnapshot()), Complete(completed)];
    }
  }
}
