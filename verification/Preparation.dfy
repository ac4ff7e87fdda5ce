/** Preparing a transaction: nonce, fee, gas and interpretation arrive in any order, and only updates carry them to the
    reducer; the reducer never installs the transaction of a successful preparation. */
module Preparation {
  import opened Wrappers
  import opened Quantities
  import opened Fees
  import opened FeeResolution
  import opened ApprovalState
  import opened Edits
  import opened ApprovalRuns

  // ----- one preparation

  /** The variables the callbacks share, and `resolvedWith`, the estimate the fee was resolved against. `announced`
      holds the estimate between its announcement and the resolution of the fee, `failing` the failure between an update
      and the failure itself: in between, outputs may call back. */
  datatype Lane = Lane(
    token: Token, transaction: Transaction, feeBasis: Transaction, requiresGas: bool,
    nonceReady: bool, gasReady: bool, feeResolved: bool, resolvedWith: Option<Estimate>,
    announced: Option<Estimate>, failing: Option<FeeResolution.PreparationFailure>,
    finished: bool, cancelled: bool, completions: nat, validated: Option<Transaction>)

  function Opened(token: Token, transaction: Transaction, forceGasCheck: bool): Lane {
    Lane(token, transaction, transaction, transaction.gas.None? || forceGasCheck, transaction.nonce.Some?, false, false,
         None, None, None, false, false, 0, None)
  }

  /** What a callback does: the new variables, and what is reported to the reducer. */
  datatype Progress = Progress(lane: Lane, report: Option<Event>)

  function Quiet(lane: Lane): Progress {
    Progress(lane, None)
  }

  function Reporting(lane: Lane): Progress {
    Progress(lane, Some(PreparationUpdate(lane.token, lane.transaction)))
  }

  /** Failing cancels whatever is still under way. */
  function Failing(lane: Lane, failure: FeeResolution.PreparationFailure): Progress {
    if lane.finished || lane.cancelled then Quiet(lane)
    else Progress(lane.(finished := true, cancelled := true, failing := None, completions := lane.completions + 1),
                  Some(PreparationFailure(lane.token, failure)))
  }

  predicate IsBusy(lane: Lane) {
    lane.announced.Some? || lane.failing.Some?
  }

  function NonceArrived(lane: Lane, nonce: Option<string>): Progress {
    if lane.cancelled || lane.finished || lane.nonceReady || IsBusy(lane) then Quiet(lane)
    else if nonce.None? then Failing(lane, NonceUnavailable)
    else Reporting(lane.(transaction := lane.transaction.(nonce := nonce), nonceReady := true))
  }

  function EstimateArrived(lane: Lane, network: Network, estimate: Estimate): Progress {
    if lane.cancelled || lane.feeResolved || IsBusy(lane) then Quiet(lane)
    else if !lane.feeBasis.intent.IsStructurallyValid() then Failing(lane, InvalidTransaction)
    else if !IsForChain(estimate, network) then Failing(lane, GasPriceUnavailable)
    else Progress(lane.(announced := Some(estimate)), Some(PreparationEstimate(lane.token, estimate)))
  }

  function FeeArrived(lane: Lane, network: Network): Progress {
    if lane.cancelled || lane.finished || lane.feeResolved || lane.announced.None? then Quiet(lane)
    else FeeTaken(lane.(announced := None), lane.announced.value,
                  Resolve(lane.feeBasis, network, lane.announced.value))
  }

  function FeeTaken(lane: Lane, estimate: Estimate, outcome: Outcome): Progress {
    if outcome.Unavailable? then Failing(lane, outcome.failure)
    else
      var resolved, before := outcome.transaction, lane.transaction;
      var after := lane.(
        feeResolved := true, resolvedWith := if outcome.Prepared? then Some(estimate) else None,
        transaction := before.(preparedFee := resolved.preparedFee, provenance := resolved.provenance,
                               currentBaseFee := resolved.currentBaseFee, nextBaseFee := resolved.nextBaseFee),
        gasReady := lane.gasReady || (outcome.Prepared? && !lane.requiresGas),
        failing := if outcome.Prepared? then None else Some(UnsafeFees));
      if after.transaction != before then Reporting(after) else Quiet(after)
  }

  function GasArrived(lane: Lane, gas: Option<string>): Progress {
    if lane.cancelled || lane.finished || lane.gasReady || !lane.feeResolved || !lane.requiresGas || IsBusy(lane) then
      Quiet(lane)
    else if gas.None? then Failing(lane, GasEstimationFailed)
    else Reporting(lane.(transaction := lane.transaction.(gas := gas), gasReady := true))
  }

  /** The interpretation may arrive after the preparation has succeeded. */
  function InterpretationArrived(lane: Lane, text: Option<string>): Progress {
    if lane.cancelled || IsBusy(lane) then Quiet(lane)
    else Reporting(lane.(transaction := lane.transaction.(interpretation := text)))
  }

  function FailureDue(lane: Lane): Progress {
    if lane.failing.None? then Quiet(lane) else Failing(lane, lane.failing.value)
  }

  function FinishTried(lane: Lane, network: Network): Progress {
    if lane.cancelled || lane.finished || !lane.nonceReady || !lane.gasReady || IsBusy(lane) then Quiet(lane)
    else if !lane.transaction.IsReadyForApproval(network) then Failing(lane, InvalidTransaction)
    else Progress(lane.(finished := true, completions := lane.completions + 1, validated := Some(lane.transaction)),
                  Some(PreparationSucceeded(lane.token, lane.transaction)))
  }

  datatype Callback =
    | OnNonce(nonce: Option<string>)
    | OnEstimate(estimate: Estimate)
    | OnFee
    | OnGas(gas: Option<string>)
    | OnInterpretation(text: Option<string>)
    | OnFailure
    | OnFinish
    | OnCancellation

  function Called(lane: Lane, network: Network, callback: Callback): Progress {
    match callback
    case OnNonce(nonce) => NonceArrived(lane, nonce)
    case OnEstimate(estimate) => EstimateArrived(lane, network, estimate)
    case OnFee => FeeArrived(lane, network)
    case OnGas(gas) => GasArrived(lane, gas)
    case OnInterpretation(text) => InterpretationArrived(lane, text)
    case OnFailure => FailureDue(lane)
    case OnFinish => FinishTried(lane, network)
    case OnCancellation => Quiet(lane.(cancelled := true))
  }

  // ----- what one callback keeps

  predicate SameFee(a: Transaction, b: Transaction) {
    && a.intent == b.intent && a.preparedFee == b.preparedFee && a.provenance == b.provenance
    && a.currentBaseFee == b.currentBaseFee && a.nextBaseFee == b.nextBaseFee
  }

  /** The transaction carries the fee that `outcome` prepared. */
  predicate CarriesFee(transaction: Transaction, outcome: Outcome) {
    outcome.Prepared? && SameFee(transaction, outcome.transaction.(intent := transaction.intent))
  }

  /** The fee is resolved from what the transaction held at the start; a transaction that was validated has changed in
      its interpretation only; and the one completion there may be has come when the preparation is finished. */
  predicate LaneInv(lane: Lane, network: Network) {
    && lane.token.kind == ForPreparation && lane.token.transactionId == lane.transaction.id
    && (!lane.feeResolved ==> SameFee(lane.feeBasis, lane.transaction))
    && (lane.announced.Some? ==> !lane.feeResolved)
    && (lane.gasReady ==> lane.resolvedWith.Some?)
    && (lane.feeResolved && lane.resolvedWith.None? ==> lane.failing.Some? || lane.finished)
    && (lane.resolvedWith.Some? ==>
          lane.feeResolved
          && CarriesFee(lane.transaction, Resolve(lane.feeBasis, network, lane.resolvedWith.value)))
    && (lane.finished && !lane.cancelled ==> lane.validated.Some?)
    && lane.completions == (if lane.finished then 1 else 0)
    && (lane.validated.Some? ==>
          && lane.finished && lane.nonceReady && lane.gasReady && lane.resolvedWith.Some? && !IsBusy(lane)
          && lane.validated.value.IsReadyForApproval(network)
          && lane.transaction == lane.validated.value.(interpretation := lane.transaction.interpretation))
  }

  lemma {:induction false} CallbackKeepsLane(lane: Lane, network: Network, callback: Callback)
    requires LaneInv(lane, network)
    ensures LaneInv(Called(lane, network, callback).lane, network)
  {
    hide Resolve, Transaction.IsReadyForApproval;
  }

  lemma {:induction false} OpenedHolds(token: Token, transaction: Transaction, forceGasCheck: bool, network: Network)
    requires token.kind == ForPreparation && token.transactionId == transaction.id
    ensures LaneInv(Opened(token, transaction, forceGasCheck), network)
  {
  }

  predicate IsCompletion(event: Event) {
    event.PreparationSucceeded? || event.PreparationFailure?
  }

  /** A cancelled preparation reports nothing any more, and a finished one never completes again. */
  lemma {:induction false} SilentOnceOver(lane: Lane, network: Network, callback: Callback)
    ensures Called(lane, network, OnCancellation).lane == lane.(cancelled := true)
    ensures Called(lane, network, OnCancellation).report.None?
    ensures lane.cancelled ==> Called(lane, network, callback).report.None?
    ensures lane.finished && Called(lane, network, callback).report.Some?
      ==> !IsCompletion(Called(lane, network, callback).report.value)
    ensures lane.cancelled ==> Called(lane, network, callback).lane.cancelled
    ensures lane.finished ==> Called(lane, network, callback).lane.finished
  {
    hide Resolve, Transaction.IsReadyForApproval;
  }

  // ----- the preparations of an approval, and the reducer that hears of them

  /** The reducer, and every preparation it has asked for, by attempt. */
  datatype System = System(reducer: State, lanes: map<nat, Lane>)

  /** A callback of a preparation, or anything else the reducer can be told, which includes every act of the user's.
      A preparation is cancelled at any time, or not at all: the theorems do not depend on when. */
  datatype Move = Calls(attempt: nat, callback: Callback) | Tells(event: Event)

  predicate IsReport(event: Event) {
    || event.PreparationUpdate? || event.PreparationEstimate?
    || event.PreparationSucceeded? || event.PreparationFailure?
  }

  function Next(system: System, move: Move): System {
    match move
    case Calls(attempt, callback) =>
      if attempt !in system.lanes then system
      else
        var progress := Called(system.lanes[attempt], system.reducer.network, callback);
        System(if progress.report.Some? then Step(system.reducer, progress.report.value).state else system.reducer,
               system.lanes[attempt := progress.lane])
    case Tells(event) =>
      if IsReport(event) then system
      else
        var result := Step(system.reducer, event);
        var last := Last(result.effects);
        System(result.state,
               if last.Some? && last.value.RunPreparation?
               then system.lanes[last.value.token.attempt
                                 := Opened(last.value.token, last.value.transaction, last.value.forceGasCheck)]
               else system.lanes)
  }

  function Runs(system: System, moves: seq<Move>): System
    decreases |moves|
  {
    if moves == [] then system else Next(Runs(system, moves[..|moves| - 1]), moves[|moves| - 1])
  }

  /** While the reducer still listens to a preparation, its transaction is the preparation's own; and once it is ready,
      that is the transaction that was validated. */
  predicate Agrees(reducer: State, lane: Lane) {
    reducer.AcceptsUpdate(lane.token) ==>
      && (reducer.phase == Preparing ==>
            && !lane.finished
            && reducer.transaction
               == if lane.announced.Some? then lane.announced.value.ApplyBaseFeeContext(lane.transaction)
                  else lane.transaction)
      && (reducer.phase == Ready ==>
            && lane.validated.Some? && reducer.transaction == lane.transaction)
  }

  predicate IsListening(phase: Phase) {
    phase == Preparing || phase == Ready
  }

  predicate LaneHolds(system: System, attempt: nat)
    requires attempt in system.lanes
  {
    var lane := system.lanes[attempt];
    && LaneInv(lane, system.reducer.network) && lane.token.attempt == attempt <= system.reducer.attempt
    && Agrees(system.reducer, lane)
    && (attempt == system.reducer.attempt ==>
          && system.reducer.phase != Authenticating
          && (IsListening(system.reducer.phase) ==>
                system.reducer.transactionId == Some(lane.token.transactionId)))
  }

  /** Ready, or on the way through authentication and preflight. */
  predicate IsHeld(phase: Phase) {
    phase == Ready || phase == Authenticating || phase == Preflighting
  }

  /** The transaction is the one this preparation validated, but for the interpretation. */
  predicate Validates(lane: Lane, transaction: Transaction) {
    lane.validated.Some? && transaction == lane.validated.value.(interpretation := transaction.interpretation)
  }

  predicate WasValidated(lanes: map<nat, Lane>, transaction: Transaction) {
    exists attempt :: attempt in lanes && Validates(lanes[attempt], transaction)
  }

  predicate SystemInv(system: System) {
    && Inv(system.reducer)
    && (forall attempt :: attempt in system.lanes ==> LaneHolds(system, attempt))
    && (IsHeld(system.reducer.phase) ==> WasValidated(system.lanes, system.reducer.transaction))
  }

  /** What the reducer is told by others leaves the transaction alone while it listens to a preparation. */
  lemma {:induction false} TellingKeepsTheTransaction(s: State, event: Event)
    requires Inv(s) && !IsReport(event)
    ensures var after := Step(s, event).state;
      && s.attempt <= after.attempt
      && (after.attempt == s.attempt && IsListening(after.phase) ==>
            && after.transaction == s.transaction && after.transactionId == s.transactionId
            && (after.phase == s.phase || s.phase == Authenticating))
      && (after.attempt == s.attempt && after.phase == Authenticating ==> s.phase == Authenticating)
  {
    hide ApplyEdit, SetFeeForSpeed, Estimate.ApplyBaseFeeContext, Transaction.IsReadyForApproval, State.CanEdit;
    hide State.ToSnapshot, Transaction.DecimalNonce, Estimate.SuggestedFee;
    if event.SpeedSet? {
      SliderKeepsIdentity(s.transaction, event.units, event.info);
    }
  }

  /** Nobody but a preparation makes a transaction ready, and none but it changes one that is held. */
  lemma {:induction false} TellingKeepsTheHeld(s: State, event: Event)
    requires Inv(s) && !IsReport(event)
    ensures var after := Step(s, event).state;
      IsHeld(after.phase) ==> IsHeld(s.phase) && after.transaction == s.transaction
  {
    hide ApplyEdit, SetFeeForSpeed, Estimate.ApplyBaseFeeContext, Transaction.IsReadyForApproval, State.CanEdit;
    hide State.ToSnapshot, Transaction.DecimalNonce, Estimate.SuggestedFee;
    if event.SpeedSet? {
      SliderKeepsIdentity(s.transaction, event.units, event.info);
    }
  }

  predicate KeepsValidated(lanes: map<nat, Lane>, after: map<nat, Lane>) {
    forall attempt :: attempt in lanes ==>
      attempt in after && (lanes[attempt].validated.Some? ==> after[attempt].validated == lanes[attempt].validated)
  }

  lemma {:induction false} StillValidated(lanes: map<nat, Lane>, after: map<nat, Lane>, transaction: Transaction)
    requires WasValidated(lanes, transaction) && KeepsValidated(lanes, after)
    ensures WasValidated(after, transaction)
  {
    var attempt :| attempt in lanes && Validates(lanes[attempt], transaction);
    assert Validates(after[attempt], transaction);
  }

  /** A preparation is asked for with the transaction the reducer holds, under a new attempt. */
  lemma {:induction false} PreparationIsOpenedAnew(s: State, event: Event)
    requires var last := Last(Step(s, event).effects); last.Some? && last.value.RunPreparation?
    ensures var after := Step(s, event).state; var asked := Last(Step(s, event).effects).value;
      && asked.token == Token(after.attempt, after.transaction.id, ForPreparation)
      && asked.transaction == after.transaction && after.attempt == s.attempt + 1
      && after.phase == Preparing && after.transactionId == Some(after.transaction.id)
  {
    hide Step;
    AsksForTheNext(s, event);
  }

  lemma {:induction false} TellingKeepsSystem(system: System, event: Event)
    requires SystemInv(system)
    ensures SystemInv(Next(system, Tells(event)))
  {
    hide Step, Inv, LaneInv, Transaction.IsReadyForApproval;
    if !IsReport(event) {
      var after := Next(system, Tells(event));
      StepKeepsInv(system.reducer, event);
      StepKeepsPolicy(system.reducer, event);
      TellingKeepsTheTransaction(system.reducer, event);
      TellingKeepsTheHeld(system.reducer, event);
      var last := Last(Step(system.reducer, event).effects);
      if last.Some? && last.value.RunPreparation? {
        PreparationIsOpenedAnew(system.reducer, event);
        OpenedHolds(last.value.token, last.value.transaction, last.value.forceGasCheck, system.reducer.network);
      }
      forall attempt | attempt in after.lanes
        ensures LaneHolds(after, attempt)
      {
      }
      assert forall attempt :: attempt in system.lanes ==> LaneHolds(system, attempt);
      assert KeepsValidated(system.lanes, after.lanes);
      if IsHeld(after.reducer.phase) {
        StillValidated(system.lanes, after.lanes, after.reducer.transaction);
      }
    }
  }

  // ----- a callback, and the reducer

  predicate SameContext(a: Transaction, outcome: Outcome) {
    !outcome.Unavailable? ==>
      outcome.transaction.currentBaseFee == a.currentBaseFee && outcome.transaction.nextBaseFee == a.nextBaseFee
  }

  /** No branch of the resolution touches the base-fee context. */
  lemma {:induction false} BranchesKeepContext(resolved: Transaction, previousBaseFee: Option<nat>, network: Network,
                                               estimate: Estimate)
    ensures resolved.preparedFee.Some? ==>
      SameContext(resolved, ResolveSlider(resolved, resolved.preparedFee.value, previousBaseFee, estimate))
    ensures SameContext(resolved, ResolveIntent(resolved, network, estimate))
  {
    hide Fee.IsStructurallyValid, Fee.HasSufficientEffectivePriorityFee, RecommendedEip1559, SuggestedLegacyGasPrice;
    hide IsValidGasPrice, Provenance.ContainsUserControlledValueFor, Provenance.DominantSource, IsUser;
    hide Provenance.FillMissing, Provenance.From, Transaction.FeeSource, Known, IsUInt256;
  }

  lemma {:induction false} ResolvingKeepsContext(transaction: Transaction, network: Network, estimate: Estimate)
    requires !Resolve(transaction, network, estimate).Unavailable?
    ensures var resolved := Resolve(transaction, network, estimate).transaction;
      var context := estimate.ApplyBaseFeeContext(transaction);
      resolved.currentBaseFee == context.currentBaseFee && resolved.nextBaseFee == context.nextBaseFee
  {
    hide ResolveIntent, ResolveSlider, Transaction.FeeSource, IsForChain, Intent.IsStructurallyValid;
    var context := estimate.ApplyBaseFeeContext(transaction);
    BranchesKeepContext(context, transaction.BasisBaseFee(), network, estimate);
  }

  /** A preparation's report while the reducer listens to it: what the reducer makes of it. */
  lemma {:induction false} ReportsAreHeard(s: State, report: Event)
    requires IsReport(report) && s.AcceptsUpdate(report.token)
    requires !report.PreparationEstimate? && !report.PreparationFailure?
      ==> report.transaction.id == report.token.transactionId
    ensures var after := Step(s, report).state;
      && after.attempt == s.attempt && after.transactionId == s.transactionId && after.network == s.network
      && (report.PreparationUpdate? ==> after.phase == s.phase && after.transaction == report.transaction)
      && (s.phase == Preparing ==>
            && (report.PreparationEstimate? ==>
                  && after.phase == Preparing
                  && after.transaction == report.estimate.ApplyBaseFeeContext(s.transaction))
            && (report.PreparationSucceeded? ==> after.phase == Ready && after.transaction == s.transaction)
            && (report.PreparationFailure? ==> after.phase == Failed))
  {
    hide Estimate.ApplyBaseFeeContext, State.ToSnapshot, Transaction.DecimalNonce;
  }

  /** Reports never change whose attempt it is, nor begin an authentication. */
  lemma {:induction false} ReportKeepsAttempt(s: State, report: Event)
    requires IsReport(report)
    ensures var after := Step(s, report).state;
      && after.attempt == s.attempt && after.transactionId == s.transactionId && after.network == s.network
      && (after.phase == Authenticating <==> s.phase == Authenticating)
      && (IsListening(after.phase) ==> IsListening(s.phase))
      && (!s.AcceptsUpdate(report.token) ==> after == s)
  {
    hide Estimate.ApplyBaseFeeContext, State.ToSnapshot, Transaction.DecimalNonce;
  }

  function Heard(s: State, progress: Progress): State {
    if progress.report.Some? then Step(s, progress.report.value).state else s
  }

  lemma {:induction false} FeeAgrees(s: State, lane: Lane)
    requires LaneInv(lane, s.network) && Agrees(s, lane) && s.AcceptsUpdate(lane.token)
    ensures Agrees(Heard(s, FeeArrived(lane, s.network)), FeeArrived(lane, s.network).lane)
  {
    hide Resolve, Transaction.IsReadyForApproval, Step, Estimate.ApplyBaseFeeContext;
    var progress := FeeArrived(lane, s.network);
    if progress.report.Some? {
      ReportsAreHeard(s, progress.report.value);
    } else if lane.announced.Some? {
      var estimate := lane.announced.value;
      if !Resolve(lane.feeBasis, s.network, estimate).Unavailable? {
        ResolvingKeepsContext(lane.feeBasis, s.network, estimate);
        ContextIsOfTheFee(lane.feeBasis, lane.transaction, estimate);
      }
    }
  }

  /** The base-fee context an estimate gives depends on the fee state alone. */
  lemma {:induction false} ContextIsOfTheFee(a: Transaction, b: Transaction, estimate: Estimate)
    requires SameFee(a, b)
    ensures var forA, forB := estimate.ApplyBaseFeeContext(a), estimate.ApplyBaseFeeContext(b);
      && forA.currentBaseFee == forB.currentBaseFee && forA.nextBaseFee == forB.nextBaseFee
      && forB == b.(currentBaseFee := forB.currentBaseFee, nextBaseFee := forB.nextBaseFee)
  {
  }

  lemma {:induction false} CallbackAgrees(s: State, lane: Lane, callback: Callback)
    requires LaneInv(lane, s.network) && Agrees(s, lane) && s.AcceptsUpdate(lane.token)
    ensures Agrees(Heard(s, Called(lane, s.network, callback)), Called(lane, s.network, callback).lane)
  {
    hide Resolve, Transaction.IsReadyForApproval, Step, Estimate.ApplyBaseFeeContext;
    var progress := Called(lane, s.network, callback);
    if callback.OnFee? {
      FeeAgrees(s, lane);
    } else if progress.report.Some? {
      ReportsAreHeard(s, progress.report.value);
    }
  }

  /** What a preparation has validated stays as it is, and what is ready by its report is what it validated. */
  lemma {:induction false} CallbackKeepsValidated(lane: Lane, network: Network, callback: Callback)
    requires LaneInv(lane, network)
    ensures lane.validated.Some? ==> Called(lane, network, callback).lane.validated == lane.validated
  {
    hide Resolve, Transaction.IsReadyForApproval, CarriesFee, SameFee;
  }

  lemma {:induction false} AgreedIsValidated(s: State, lane: Lane)
    requires LaneInv(lane, s.network) && Agrees(s, lane) && s.AcceptsUpdate(lane.token) && s.phase == Ready
    ensures Validates(lane, s.transaction)
  {
    hide Resolve, Transaction.IsReadyForApproval, CarriesFee, SameFee;
  }

  lemma {:induction false} ReadyHasFee(transaction: Transaction, network: Network)
    requires transaction.IsReadyForApproval(network)
    ensures transaction.preparedFee.Some?
  {
  }

  lemma {:induction false} InterpretationKeepsReadiness(transaction: Transaction, text: Option<string>,
                                                        network: Network)
    ensures transaction.(interpretation := text).IsReadyForApproval(network)
       <==> transaction.IsReadyForApproval(network)
  {
  }

  lemma {:induction false} CallingKeepsSystem(system: System, attempt: nat, callback: Callback)
    requires SystemInv(system)
    ensures SystemInv(Next(system, Calls(attempt, callback)))
  {
    hide Step, Inv, LaneInv, Transaction.IsReadyForApproval, Agrees, Called;
    if attempt in system.lanes {
      var s, lane := system.reducer, system.lanes[attempt];
      var progress := Called(lane, s.network, callback);
      var after := Next(system, Calls(attempt, callback));
      CallbackKeepsLane(lane, s.network, callback);
      CallbackKeepsToken(lane, s.network, callback);
      if progress.report.Some? {
        StepKeepsInv(s, progress.report.value);
        ReportKeepsAttempt(s, progress.report.value);
      }
      if s.AcceptsUpdate(lane.token) {
        CallbackAgrees(s, lane, callback);
      } else {
        DeafAgrees(s, progress.lane);
      }
      forall other | other in system.lanes && other != attempt
        ensures LaneHolds(after, other)
      {
        OthersAgree(s, system.lanes[other], lane.token, progress.report);
      }
      assert LaneHolds(after, attempt);
      CallingKeepsTheHeld(system, attempt, callback);
    }
  }

  lemma {:induction false} CallingKeepsTheHeld(system: System, attempt: nat, callback: Callback)
    requires SystemInv(system) && attempt in system.lanes
    ensures var after := Next(system, Calls(attempt, callback));
      IsHeld(after.reducer.phase) ==> WasValidated(after.lanes, after.reducer.transaction)
  {
    hide Step, Inv, LaneInv, Transaction.IsReadyForApproval, Agrees, Called, Validates;
    var s, lane := system.reducer, system.lanes[attempt];
    var progress := Called(lane, s.network, callback);
    var after := Next(system, Calls(attempt, callback));
    assert LaneHolds(system, attempt);
    CallbackKeepsLane(lane, s.network, callback);
    CallbackKeepsToken(lane, s.network, callback);
    CallbackKeepsValidated(lane, s.network, callback);
    if progress.report.Some? {
      ReportKeepsAttempt(s, progress.report.value);
    }
    if IsHeld(after.reducer.phase) {
      if s.AcceptsUpdate(lane.token) && progress.report.Some? {
        CallbackAgrees(s, lane, callback);
        ReportLeavesListening(s, progress.report.value);
        AgreedIsValidated(after.reducer, progress.lane);
        assert Validates(after.lanes[attempt], after.reducer.transaction);
      } else {
        StillValidated(system.lanes, after.lanes, after.reducer.transaction);
      }
    }
  }

  lemma {:induction false} ReportLeavesListening(s: State, report: Event)
    requires IsReport(report) && IsListening(s.phase)
    ensures var after := Step(s, report).state;
      IsListening(after.phase) || after.phase == Failed
  {
    hide Estimate.ApplyBaseFeeContext, State.ToSnapshot, Transaction.DecimalNonce;
  }

  lemma {:induction false} DeafAgrees(s: State, lane: Lane)
    requires !s.AcceptsUpdate(lane.token)
    ensures Agrees(s, lane)
  {
  }

  lemma {:induction false} OthersAgree(s: State, other: Lane, token: Token, report: Option<Event>)
    requires Agrees(s, other) && other.token.attempt != token.attempt
    requires report.Some? ==> IsReport(report.value) && report.value.token == token
    ensures Agrees(if report.Some? then Step(s, report.value).state else s, other)
  {
    hide Step;
    if report.Some? {
      ReportKeepsAttempt(s, report.value);
    }
  }

  /** What a preparation reports, it reports with its own token. */
  predicate ReportsAsItself(lane: Lane, progress: Progress) {
    && progress.lane.token == lane.token
    && (progress.report.Some? ==> IsReport(progress.report.value) && progress.report.value.token == lane.token)
  }

  lemma {:induction false} CallbackKeepsToken(lane: Lane, network: Network, callback: Callback)
    ensures ReportsAsItself(lane, Called(lane, network, callback))
  {
    hide Resolve, Transaction.IsReadyForApproval, FeeArrived, EstimateArrived, FinishTried;
    match callback {
      case OnFee => FeeKeepsToken(lane, network);
      case OnEstimate(estimate) => EstimateKeepsToken(lane, network, estimate);
      case OnFinish => FinishKeepsToken(lane, network);
      case _ =>
    }
  }

  lemma {:induction false} FeeKeepsToken(lane: Lane, network: Network)
    ensures ReportsAsItself(lane, FeeArrived(lane, network))
  {
    hide Resolve;
  }

  lemma {:induction false} EstimateKeepsToken(lane: Lane, network: Network, estimate: Estimate)
    ensures ReportsAsItself(lane, EstimateArrived(lane, network, estimate))
  {
  }

  lemma {:induction false} FinishKeepsToken(lane: Lane, network: Network)
    ensures ReportsAsItself(lane, FinishTried(lane, network))
  {
    hide Transaction.IsReadyForApproval;
  }

  // ----- every run

  lemma {:induction false} SystemInvAlways(start: State, moves: seq<Move>)
    requires Inv(start) && start.phase == Idle
    ensures SystemInv(Runs(System(start, map[]), moves))
    decreases |moves|
  {
    hide SystemInv, Inv, Next;
    if moves == [] {
      NoPreparationsAtFirst(start);
    } else {
      var system, move := Runs(System(start, map[]), moves[..|moves| - 1]), moves[|moves| - 1];
      SystemInvAlways(start, moves[..|moves| - 1]);
      if move.Calls? {
        CallingKeepsSystem(system, move.attempt, move.callback);
      } else {
        TellingKeepsSystem(system, move.event);
      }
    }
  }

  lemma {:induction false} NoPreparationsAtFirst(start: State)
    requires Inv(start) && start.phase == Idle
    ensures SystemInv(System(start, map[]))
  {
  }

  /** Whatever the interleaving, a transaction that is ready, or being authenticated or preflighted, is one that some
      preparation validated, but for the interpretation that may still arrive; so it is ready for approval on its
      network. Until an authentication has failed, that preparation is the one of the current attempt. */
  lemma {:induction false} ReadyIsWhatWasValidated(start: State, moves: seq<Move>)
    requires Inv(start) && start.phase == Idle
    ensures var system := Runs(System(start, map[]), moves); var s := system.reducer;
      && (IsHeld(s.phase) ==>
            WasValidated(system.lanes, s.transaction) && s.transaction.IsReadyForApproval(s.network))
      && (s.phase == Ready ==> s.CanApprove())
      && (s.phase == Ready && s.attempt in system.lanes ==>
            var lane := system.lanes[s.attempt];
            Validates(lane, s.transaction) && lane.completions == 1 && s.transaction == lane.transaction)
  {
    SystemInvAlways(start, moves);
    hide Runs, Transaction.IsReadyForApproval, CarriesFee, Resolve, Inv, State.AllowsMutation;
    var system := Runs(System(start, map[]), moves); var s := system.reducer;
    if IsHeld(s.phase) {
      var attempt :| attempt in system.lanes && Validates(system.lanes[attempt], s.transaction);
      assert LaneHolds(system, attempt);
      InterpretationKeepsReadiness(system.lanes[attempt].validated.value, s.transaction.interpretation, s.network);
      if s.attempt in system.lanes {
        assert LaneHolds(system, s.attempt);
      }
    }
  }

  /** The two procedures that decide on fees agree: approve a transaction that a preparation has validated, let the
      preflight see the estimate that preparation saw, and the preflight lets it through as it is; only where the market
      is unknown does that take a fee component of the user's. */
  lemma {:induction false} PreparedTransactionPassesPreflight(start: State, moves: seq<Move>, attempt: nat)
    requires Inv(start) && start.phase == Idle
    ensures var system := Runs(System(start, map[]), moves); var s := system.reducer;
      attempt in system.lanes && Validates(system.lanes[attempt], s.transaction) ==>
        && system.lanes[attempt].resolvedWith.Some? && s.transaction.preparedFee.Some?
        && var estimate := system.lanes[attempt].resolvedWith.value;
           estimate.IsWellFormed() ==>
             (Preflight(s.transaction, s.network, estimate) == Safe(s.transaction, estimate)
              <==> (estimate.support == UnknownMarket ==>
                      s.transaction.provenance.ContainsUserControlledValueFor(s.transaction.preparedFee.value)))
  {
    SystemInvAlways(start, moves);
    hide Runs, Transaction.IsReadyForApproval, Resolve, Preflight, Estimate.IsWellFormed;
    var system := Runs(System(start, map[]), moves); var s := system.reducer;
    if attempt in system.lanes && Validates(system.lanes[attempt], s.transaction) {
      assert LaneHolds(system, attempt);
      var lane := system.lanes[attempt];
      var estimate := lane.resolvedWith.value;
      InterpretationKeepsReadiness(lane.validated.value, s.transaction.interpretation, s.network);
      ReadyHasFee(s.transaction, s.network);
      if estimate.IsWellFormed() {
        PreflightOfPreparedIsSafe(lane.feeBasis, s.transaction, s.network, estimate);
      }
    }
  }

  /** Every preparation completes at most once. */
  lemma {:induction false} PreparationCompletesOnce(start: State, moves: seq<Move>, attempt: nat)
    requires Inv(start) && start.phase == Idle
    ensures var lanes := Runs(System(start, map[]), moves).lanes;
      attempt in lanes ==> lanes[attempt].completions <= 1
  {
    SystemInvAlways(start, moves);
    hide Runs;
    if attempt in Runs(System(start, map[]), moves).lanes {
      assert LaneHolds(Runs(System(start, map[]), moves), attempt);
    }
  }
}
