/** The state of a transaction approval, and what each event does to it. */
module ApprovalState {
  import opened Wrappers
  import opened Fees
  import opened FeeResolution
  import opened Edits

  datatype Phase =
    | Idle | Preparing | Ready | Failed | Editing | Authenticating | Preflighting | ReviewingFees | Finished

  datatype Policy = AuthenticationRequired | AuthenticationSkipped

  datatype TokenKind = ForPreparation | ForAuthentication | ForPreflight

  /** What a request is known by: its result counts only while the token is current. */
  datatype Token = Token(attempt: nat, transactionId: nat, kind: TokenKind)

  datatype AlertKind =
    | PreparationFailed(failure: PreparationFailure, forceGasCheck: bool)
    | FeesWereUpdated
    | FeesAreUnsafe
    | FeesAreUnavailable

  datatype AlertTokenKind = OfFailure | OfUpdate | OfUnsafeFees | OfUnavailableFees

  datatype AlertToken = AlertToken(attempt: nat, transactionId: nat, kind: AlertTokenKind)

  datatype Alert = Alert(attempt: nat, transactionId: nat, kind: AlertKind) {
    function Token(): AlertToken {
      AlertToken(attempt, transactionId,
                 match kind
                 case PreparationFailed(_, _) => OfFailure
                 case FeesWereUpdated => OfUpdate
                 case FeesAreUnsafe => OfUnsafeFees
                 case FeesAreUnavailable => OfUnavailableFees)
    }
  }

  datatype AlertAction = Acknowledge | Retry | EditFees | CancelAlert

  /** The buttons an alert is presented with. */
  function Presented(alert: Alert): seq<AlertAction> {
    match alert.kind
    case PreparationFailed(failure, _) => [if failure == UnsafeFees then EditFees else Retry, CancelAlert]
    case FeesAreUnsafe => [EditFees, CancelAlert]
    case FeesAreUnavailable => [Retry, CancelAlert]
    case FeesWereUpdated => [Acknowledge]
  }

  datatype Event =
    | StartPreparation(forceGasCheck: bool)
    | PreparationUpdate(token: Token, transaction: Transaction)
    | PreparationEstimate(token: Token, estimate: Estimate)
    | PreparationSucceeded(token: Token, transaction: Transaction)
    | PreparationFailure(token: Token, failure: PreparationFailure)
    | Approve
    | AuthenticationResult(token: Token, succeeded: bool)
    | PreflightFinished(token: Token, result: PreflightResult)
    | AlertActed(alertToken: AlertToken, action: AlertAction)
    | ApplyEdits(edit: Edit, freshId: nat)
    | SliderBegan
    | SpeedSet(units: nat, info: Info)
    | SliderEnded(cancelled: bool)
    | Finish(completed: Option<Transaction>)

  datatype Snapshot = Snapshot(
    transaction: Transaction, phase: Phase, attempt: nat, suggestedNonce: Option<nat>, suggestedFee: Option<Fee>,
    hasEstimate: bool, allowsMutation: bool, canApprove: bool, canEdit: bool)

  datatype Effect =
    | CancelActiveRequest
    | ClearActiveRequest(token: Token)
    | RunPreparation(token: Token, transaction: Transaction, forceGasCheck: bool)
    | RunPreflight(token: Token, transaction: Transaction)
    | SendSnapshot(snapshot: Snapshot)
    | SendEstimate(estimate: Estimate)
    | RequestAuthentication(token: Token)
    | ShowAlert(alert: Alert)
    | OpenEditor
    | Complete(completed: Option<Transaction>)

  datatype State = State(
    transaction: Transaction, network: Network, policy: Policy,
    phase: Phase, attempt: nat, transactionId: Option<nat>,
    gatePending: bool, suggestedNonce: Option<nat>, estimate: Option<Estimate>,
    forceGasCheck: bool, sliderActive: bool, alert: Option<Alert>)
  {
    predicate AllowsMutation() {
      phase != Authenticating && phase != Preflighting && phase != ReviewingFees && phase != Finished
    }

    predicate HoldsAttempt(attemptId: nat, id: nat) {
      attemptId == attempt && transactionId == Some(id)
    }

    predicate IsCurrent(token: Token) {
      && HoldsAttempt(token.attempt, token.transactionId)
      && phase == PhaseOf(token.kind)
    }

    predicate AcceptsUpdate(token: Token) {
      && token.kind == ForPreparation && HoldsAttempt(token.attempt, token.transactionId)
      && (phase == Preparing || phase == Ready)
    }

    predicate IsCurrentAlert(token: AlertToken) {
      && alert.Some? && alert.value.Token() == token
      && HoldsAttempt(token.attempt, token.transactionId)
      && phase == AlertPhase(token.kind)
    }

    predicate CanApprove() {
      && phase == Ready && transactionId == Some(transaction.id)
      && transaction.IsReadyForApproval(network)
    }

    predicate CanEdit() {
      && AllowsMutation() && phase != Preparing
      && (transaction.intent.AnyFee? ==> transaction.preparedFee.Some? || phase == Failed)
    }

    function ToSnapshot(): Snapshot {
      Snapshot(transaction, phase, attempt, suggestedNonce,
               if estimate.Some? then estimate.value.SuggestedFee(transaction.intent) else None,
               estimate.Some?, AllowsMutation(), CanApprove(), CanEdit())
    }

    function Begin(next: Phase): State {
      this.(attempt := attempt + 1, transactionId := Some(transaction.id), phase := next)
    }

    /** Finishing forgets the transaction's identifier, so no token is current any more. */
    function End(): State {
      this.(attempt := attempt + 1, transactionId := None, phase := Finished)
    }

    function Install(installed: Transaction): State {
      this.(transaction := installed, suggestedNonce := suggestedNonce.Or(installed.DecimalNonce()))
    }

    function InstallEstimate(installed: Estimate): State {
      this.(estimate := Some(installed), transaction := installed.ApplyBaseFeeContext(transaction))
    }
  }

  function PhaseOf(kind: TokenKind): Phase {
    match kind
    case ForPreparation => Preparing
    case ForAuthentication => Authenticating
    case ForPreflight => Preflighting
  }

  function AlertPhase(kind: AlertTokenKind): Phase {
    match kind
    case OfFailure => Failed
    case OfUnavailableFees => Failed
    case OfUpdate => ReviewingFees
    case OfUnsafeFees => Editing
  }

  function Initial(transaction: Transaction, network: Network, policy: Policy): State {
    State(transaction, network, policy, Idle, 0, None, false, None, None, false, false, None)
  }

  datatype Reduction = Reduction(state: State, effects: seq<Effect>)

  function Ignored(s: State): Reduction {
    Reduction(s, [])
  }

  function Started(s: State, forceGasCheck: bool): Reduction {
    if s.phase == Finished then Ignored(s)
    else
      var after := s.(alert := None, gatePending := false, sliderActive := false, estimate := None,
                      forceGasCheck := forceGasCheck).Begin(Preparing);
      var token := Token(after.attempt, after.transaction.id, ForPreparation);
      Reduction(after, [CancelActiveRequest, SendSnapshot(after.ToSnapshot()),
                        RunPreparation(token, after.transaction, forceGasCheck)])
  }

  function TransactionUpdated(s: State, token: Token, transaction: Transaction): Reduction {
    if !s.AcceptsUpdate(token) || transaction.id != token.transactionId then Ignored(s)
    else
      var after := s.Install(transaction);
      Reduction(after, [SendSnapshot(after.ToSnapshot())])
  }

  function Estimated(s: State, token: Token, estimate: Estimate): Reduction {
    if token.kind != ForPreparation || !s.IsCurrent(token) then Ignored(s)
    else
      var after := s.InstallEstimate(estimate);
      Reduction(after, [SendEstimate(estimate), SendSnapshot(after.ToSnapshot())])
  }

  function Succeeded(s: State, token: Token, prepared: Transaction): Reduction {
    if token.kind != ForPreparation || !s.IsCurrent(token) || prepared.id != token.transactionId then Ignored(s)
    else
      var after := s.(phase := Ready, suggestedNonce := s.suggestedNonce.Or(prepared.DecimalNonce()));
      Reduction(after, [SendSnapshot(after.ToSnapshot())])
  }

  function FailedWith(s: State, token: Token, failure: FeeResolution.PreparationFailure): Reduction {
    if token.kind != ForPreparation || !s.IsCurrent(token) then Ignored(s)
    else
      var alert := Alert(token.attempt, token.transactionId, PreparationFailed(failure, s.forceGasCheck));
      var after := s.(phase := Failed, alert := Some(alert),
                      transaction := if s.estimate.Some? then s.transaction
                                     else s.transaction.(currentBaseFee := None, nextBaseFee := None));
      Reduction(after, [ClearActiveRequest(token), SendSnapshot(after.ToSnapshot()), ShowAlert(alert)])
  }

  function Approved(s: State): Reduction {
    if !s.CanApprove() then Ignored(s)
    else if s.policy == AuthenticationSkipped then PreflightBegun(s)
    else
      var after := s.Begin(Authenticating);
      Reduction(after, [CancelActiveRequest, SendSnapshot(after.ToSnapshot()),
                        RequestAuthentication(Token(after.attempt, after.transaction.id, ForAuthentication))])
  }

  function Authenticated(s: State, token: Token, succeeded: bool): Reduction {
    if token.kind != ForAuthentication || !s.IsCurrent(token) then Ignored(s)
    else if succeeded then PreflightBegun(s)
    else
      var after := s.(phase := Ready);
      Reduction(after, [SendSnapshot(after.ToSnapshot())])
  }

  function PreflightBegun(s: State): Reduction {
    if !(s.phase == Ready || s.phase == Authenticating) || s.transactionId != Some(s.transaction.id) then Ignored(s)
    else
      var after := s.(phase := Preflighting, alert := None);
      Reduction(after, [CancelActiveRequest, SendSnapshot(after.ToSnapshot()),
                        RunPreflight(Token(s.attempt, s.transaction.id, ForPreflight), s.transaction)])
  }

  function Preflighted(s: State, token: Token, result: PreflightResult): Reduction {
    if token.kind != ForPreflight || !s.IsCurrent(token) || result.transaction.id != token.transactionId then Ignored(s)
    else
      var installed := s.Install(result.transaction).InstallEstimate(result.estimate);
      match result
      case Safe(_, _) =>
        var after := installed.(alert := None, gatePending := false).End();
        Reduction(after, [ClearActiveRequest(token), SendEstimate(result.estimate), SendSnapshot(after.ToSnapshot()),
                          Complete(Some(after.transaction))])
      case WalletManagedUpdated(_, _) =>
        Alerted(installed.(phase := ReviewingFees), token, result.estimate,
                Alert(token.attempt, token.transactionId, FeesWereUpdated))
      case UserControlledUnsafe(_, _) =>
        var editing := installed.(attempt := s.attempt + 1, phase := Editing);
        Alerted(editing, token, result.estimate, Alert(editing.attempt, result.transaction.id, FeesAreUnsafe))
      case FeesUnavailable(_, _) =>
        Alerted(installed.(phase := Failed), token, result.estimate,
                Alert(token.attempt, token.transactionId, FeesAreUnavailable))
  }

  function Alerted(s: State, token: Token, estimate: Estimate, alert: Alert): Reduction {
    var after := s.(alert := Some(alert));
    Reduction(after, [ClearActiveRequest(token), SendEstimate(estimate), SendSnapshot(after.ToSnapshot()),
                      ShowAlert(alert)])
  }

  function Acted(s: State, token: AlertToken, action: AlertAction): Reduction {
    if !s.IsCurrentAlert(token) then Ignored(s)
    else
      var closed := s.(alert := None);
      var showing := [SendSnapshot(closed.ToSnapshot())];
      match (s.alert.value.kind, action)
      case (PreparationFailed(failure, forceGasCheck), EditFees) =>
        if failure == UnsafeFees then Reduction(closed, showing + [OpenEditor]) else Ignored(s)
      case (PreparationFailed(failure, forceGasCheck), Retry) =>
        if failure != UnsafeFees then Started(s, forceGasCheck) else Ignored(s)
      case (PreparationFailed(_, _), CancelAlert) => Reduction(closed, showing)
      case (FeesWereUpdated, Acknowledge) => Started(s, false)
      case (FeesAreUnsafe, EditFees) => Reduction(closed, showing + [OpenEditor])
      case (FeesAreUnsafe, CancelAlert) => Reduction(closed, showing)
      case (FeesAreUnavailable, Retry) => Started(s, false)
      case (FeesAreUnavailable, CancelAlert) => Reduction(closed, showing)
      case _ => Ignored(s)
  }

  function Edited(s: State, edit: Edit, freshId: nat): Reduction {
    var edited := ApplyEdit(s.transaction, edit, freshId);
    if !s.CanEdit() || edited.None? then Ignored(s)
    else
      var after := s.(transaction := edited.value, alert := None, gatePending := false, sliderActive := false)
                   .Begin(Editing);
      Reduction(after, [CancelActiveRequest, SendSnapshot(after.ToSnapshot())])
  }

  function SpeedChosen(s: State, units: nat, info: Info): Reduction {
    var moved := s.(transaction := SetFeeForSpeed(s.transaction, units, info));
    if !s.AllowsMutation() then Ignored(s)
    else if && moved.transaction.preparedFee == s.transaction.preparedFee
            && moved.transaction.provenance == s.transaction.provenance then Reduction(moved, [])
    else if !s.sliderActive then Started(moved.(alert := None), false)
    else if s.gatePending then Reduction(moved, [SendSnapshot(moved.ToSnapshot())])
    else
      var after := moved.(gatePending := true, alert := None).Begin(Editing);
      Reduction(after, [CancelActiveRequest, SendSnapshot(after.ToSnapshot())])
  }

  function SliderReleased(s: State, cancelled: bool): Reduction {
    var released := s.(sliderActive := false, gatePending := false);
    if !s.gatePending || cancelled || !s.AllowsMutation() then Ignored(released) else Started(released, false)
  }

  function FinishedWith(s: State, completed: Option<Transaction>): Reduction {
    if s.phase == Finished then Ignored(s)
    else
      var after := s.(transaction := if completed.Some? then completed.value else s.transaction,
                      alert := None, gatePending := false, sliderActive := false).End();
      Reduction(after, [CancelActiveRequest, SendSnapshot(after.ToSnapshot()), Complete(completed)])
  }

  function Step(s: State, event: Event): Reduction {
    match event
    case StartPreparation(forceGasCheck) => Started(s, forceGasCheck)
    case PreparationUpdate(token, transaction) => TransactionUpdated(s, token, transaction)
    case PreparationEstimate(token, estimate) => Estimated(s, token, estimate)
    case PreparationSucceeded(token, transaction) => Succeeded(s, token, transaction)
    case PreparationFailure(token, failure) => FailedWith(s, token, failure)
    case Approve => Approved(s)
    case AuthenticationResult(token, succeeded) => Authenticated(s, token, succeeded)
    case PreflightFinished(token, result) => Preflighted(s, token, result)
    case AlertActed(token, action) => Acted(s, token, action)
    case ApplyEdits(edit, freshId) => Edited(s, edit, freshId)
    case SliderBegan => Ignored(if s.AllowsMutation() then s.(sliderActive := true) else s)
    case SpeedSet(units, info) => SpeedChosen(s, units, info)
    case SliderEnded(cancelled) => SliderReleased(s, cancelled)
    case Finish(completed) => FinishedWith(s, completed)
  }
}
