/** Where the parts of a prepared transaction come from: each is what it was at the start, or what arrived for it. */
module PreparationTrace {
  import opened Wrappers
  import opened Quantities
  import opened Fees
  import opened FeeResolution
  import opened ApprovalState
  import opened Edits
  import opened ApprovalRuns
  import opened Preparation

  // ----- one callback

  /** What the preparation is still waiting for. */
  predicate Awaits(lane: Lane, callback: Callback) {
    !lane.cancelled && !IsBusy(lane) &&
    match callback
    case OnNonce(_) => !lane.finished && !lane.nonceReady
    case OnEstimate(_) => !lane.feeResolved
    case OnGas(_) => !lane.finished && lane.feeResolved && lane.requiresGas && !lane.gasReady
    case OnInterpretation(_) => true
    case OnFinish => !lane.finished && lane.nonceReady && lane.gasReady
    case _ => false
  }

  /** What every callback leaves alone: whose preparation it is, what was asked for, and the request itself. */
  predicate KeepsRequest(lane: Lane, after: Lane) {
    && after.token == lane.token && after.feeBasis == lane.feeBasis && after.requiresGas == lane.requiresGas
    && after.transaction.id == lane.transaction.id && after.transaction.request == lane.transaction.request
    && after.transaction.intent == lane.transaction.intent
  }

  /** A nonce, a gas limit or an interpretation that is awaited is installed as it arrives, and nothing else changes
      one. */
  predicate InstallsArrivals(lane: Lane, callback: Callback, after: Lane) {
    && (if Awaits(lane, callback) && callback.OnNonce? && callback.nonce.Some?
        then after.transaction.nonce == callback.nonce && after.nonceReady
        else after.transaction.nonce == lane.transaction.nonce && after.nonceReady == lane.nonceReady)
    && (if Awaits(lane, callback) && callback.OnGas? && callback.gas.Some?
        then after.transaction.gas == callback.gas && after.gasReady
        else after.transaction.gas == lane.transaction.gas && (lane.requiresGas ==> after.gasReady == lane.gasReady))
    && (if Awaits(lane, callback) && callback.OnInterpretation?
        then after.transaction.interpretation == callback.text
        else after.transaction.interpretation == lane.transaction.interpretation)
  }

  /** The fee is resolved against an estimate that was awaited when it arrived. */
  predicate TakesEstimates(lane: Lane, callback: Callback, after: Lane) {
    && (after.announced.Some? && after.announced != lane.announced ==>
          callback.OnEstimate? && Awaits(lane, callback) && after.announced == Some(callback.estimate))
    && (after.resolvedWith.Some? && after.resolvedWith != lane.resolvedWith ==>
          callback.OnFee? && after.resolvedWith == lane.announced)
  }

  lemma {:induction false} ArrivalsAreInstalled(lane: Lane, network: Network, callback: Callback)
    ensures var after := Called(lane, network, callback).lane;
      KeepsRequest(lane, after) && InstallsArrivals(lane, callback, after) && TakesEstimates(lane, callback, after)
  {
    hide FeeArrived, EstimateArrived, FinishTried;
    match callback {
      case OnFee => FeeLeavesTheRest(lane, network);
      case OnEstimate(estimate) => EstimateLeavesTheRest(lane, network, estimate);
      case OnFinish => FinishLeavesTheRest(lane, network);
      case _ =>
    }
  }

  lemma {:induction false} FeeLeavesTheRest(lane: Lane, network: Network)
    ensures var after := FeeArrived(lane, network).lane;
      KeepsRequest(lane, after) && InstallsArrivals(lane, OnFee, after) && TakesEstimates(lane, OnFee, after)
  {
    hide Resolve;
  }

  lemma {:induction false} EstimateLeavesTheRest(lane: Lane, network: Network, estimate: Estimate)
    ensures var after := EstimateArrived(lane, network, estimate).lane;
      && KeepsRequest(lane, after) && InstallsArrivals(lane, OnEstimate(estimate), after)
      && TakesEstimates(lane, OnEstimate(estimate), after)
  {
    hide IsForChain, Intent.IsStructurallyValid;
  }

  lemma {:induction false} FinishLeavesTheRest(lane: Lane, network: Network)
    ensures var after := FinishTried(lane, network).lane;
      KeepsRequest(lane, after) && InstallsArrivals(lane, OnFinish, after) && TakesEstimates(lane, OnFinish, after)
  {
    hide Transaction.IsReadyForApproval;
  }

  /** What is awaited and does not come fails the preparation, each in its own way; a failure cancels whatever is still
      under way, and is reported. */
  predicate FailsWith(progress: Progress, failure: FeeResolution.PreparationFailure) {
    && progress.lane.finished && progress.lane.cancelled && progress.lane.validated.None?
    && progress.report == Some(PreparationFailure(progress.lane.token, failure))
  }

  lemma {:induction false} MissingAnswersFail(lane: Lane, network: Network, callback: Callback)
    requires LaneInv(lane, network) && Awaits(lane, callback) && !lane.finished
    ensures var progress := Called(lane, network, callback);
      && (callback.OnNonce? && callback.nonce.None? ==> FailsWith(progress, NonceUnavailable))
      && (callback.OnGas? && callback.gas.None? ==> FailsWith(progress, GasEstimationFailed))
      && (callback.OnEstimate? && !lane.feeBasis.intent.IsStructurallyValid() ==>
            FailsWith(progress, InvalidTransaction))
      && (callback.OnEstimate? && lane.feeBasis.intent.IsStructurallyValid() ==>
            IsForChain(callback.estimate, network) || FailsWith(progress, GasPriceUnavailable))
      && (callback.OnFinish? && !lane.transaction.IsReadyForApproval(network) ==>
            FailsWith(progress, InvalidTransaction))
  {
    hide Resolve, Transaction.IsReadyForApproval;
  }

  /** The resolution of the fee fails the preparation as it says, or as unsafe once the fee has been shown. */
  lemma {:induction false} UnresolvedFeesFail(lane: Lane, network: Network)
    requires LaneInv(lane, network) && lane.announced.Some? && lane.failing.None? && !lane.finished && !lane.cancelled
    ensures var outcome := Resolve(lane.feeBasis, network, lane.announced.value);
      var progress := Called(lane, network, OnFee);
      && (outcome.Unavailable? ==> FailsWith(progress, outcome.failure))
      && (outcome.UnsafeUserFee? ==>
            && SameFee(progress.lane.transaction,
                       outcome.transaction.(intent := progress.lane.transaction.intent))
            && FailsWith(Called(progress.lane, network, OnFailure), UnsafeFees))
  {
    hide Resolve, Transaction.IsReadyForApproval;
  }

  // ----- every run

  function At(start: State, moves: seq<Move>, k: nat): System
    requires k <= |moves|
  {
    Runs(System(start, map[]), moves[..k])
  }

  /** Move `j` brings the preparation an answer it was waiting for. */
  predicate Arrives(start: State, moves: seq<Move>, j: nat, attempt: nat, callback: Callback) {
    && j < |moves| && moves[j] == Calls(attempt, callback)
    && attempt in At(start, moves, j).lanes && Awaits(At(start, moves, j).lanes[attempt], callback)
  }

  /** Move `j` told the reducer something that had it ask for this preparation. */
  predicate IsAskedAt(start: State, moves: seq<Move>, j: nat, lane: Lane) {
    && j < |moves| && moves[j].Tells? && !IsReport(moves[j].event)
    && var last := Last(Step(At(start, moves, j).reducer, moves[j].event).effects);
    && last.Some? && last.value.RunPreparation?
    && last.value.token == lane.token && last.value.transaction == lane.feeBasis
    && (lane.requiresGas <==> lane.feeBasis.gas.None? || last.value.forceGasCheck)
  }

  ghost predicate OpeningIsTraced(start: State, moves: seq<Move>, lane: Lane) {
    && (exists j :: IsAskedAt(start, moves, j, lane))
    && lane.transaction.id == lane.feeBasis.id && lane.transaction.request == lane.feeBasis.request
    && lane.transaction.intent == lane.feeBasis.intent
  }

  /** The nonce is the one the transaction had, or the one that arrived. */
  ghost predicate NonceIsTraced(start: State, moves: seq<Move>, attempt: nat, lane: Lane) {
    if lane.feeBasis.nonce.Some? then lane.nonceReady && lane.transaction.nonce == lane.feeBasis.nonce
    else if !lane.nonceReady then lane.transaction.nonce.None?
    else lane.transaction.nonce.Some? && exists j :: Arrives(start, moves, j, attempt, OnNonce(lane.transaction.nonce))
  }

  /** The gas limit is the one that arrived, if one was to be estimated, and the one the transaction had if not. */
  ghost predicate GasIsTraced(start: State, moves: seq<Move>, attempt: nat, lane: Lane) {
    if lane.requiresGas && lane.gasReady
    then lane.transaction.gas.Some? && exists j :: Arrives(start, moves, j, attempt, OnGas(lane.transaction.gas))
    else lane.transaction.gas == lane.feeBasis.gas
  }

  predicate TextArrives(start: State, moves: seq<Move>, k: nat, attempt: nat) {
    && k < |moves| && moves[k].Calls? && moves[k].callback.OnInterpretation?
    && Arrives(start, moves, k, attempt, moves[k].callback)
  }

  /** The last text to arrive. */
  ghost predicate IsLastText(start: State, moves: seq<Move>, j: nat, attempt: nat, text: Option<string>) {
    && Arrives(start, moves, j, attempt, OnInterpretation(text))
    && forall k :: j < k < |moves| ==> !TextArrives(start, moves, k, attempt)
  }

  ghost predicate TextIsTraced(start: State, moves: seq<Move>, attempt: nat, lane: Lane) {
    || (exists j :: IsLastText(start, moves, j, attempt, lane.transaction.interpretation))
    || (&& lane.transaction.interpretation == lane.feeBasis.interpretation
        && forall k :: 0 <= k < |moves| ==> !TextArrives(start, moves, k, attempt))
  }

  ghost predicate EstimatesAreTraced(start: State, moves: seq<Move>, attempt: nat, lane: Lane) {
    && (lane.announced.Some? ==> exists j :: Arrives(start, moves, j, attempt, OnEstimate(lane.announced.value)))
    && (lane.resolvedWith.Some? ==>
          exists j :: Arrives(start, moves, j, attempt, OnEstimate(lane.resolvedWith.value)))
  }

  ghost predicate IsTraced(start: State, moves: seq<Move>, attempt: nat) {
    var lanes := At(start, moves, |moves|).lanes;
    attempt in lanes ==>
      && OpeningIsTraced(start, moves, lanes[attempt])
      && NonceIsTraced(start, moves, attempt, lanes[attempt]) && GasIsTraced(start, moves, attempt, lanes[attempt])
      && TextIsTraced(start, moves, attempt, lanes[attempt])
      && EstimatesAreTraced(start, moves, attempt, lanes[attempt])
  }

  lemma {:induction false} OneMoreMove(start: State, moves: seq<Move>)
    requires moves != []
    ensures At(start, moves, |moves|) == Next(At(start, moves, |moves| - 1), moves[|moves| - 1])
    ensures forall j :: 0 <= j < |moves| ==> At(start, moves[..|moves| - 1], j) == At(start, moves, j)
  {
    hide Next;
    assert moves[..|moves|] == moves;
    forall j | 0 <= j < |moves|
      ensures At(start, moves[..|moves| - 1], j) == At(start, moves, j)
    {
      assert moves[..|moves| - 1][..j] == moves[..j];
    }
  }

  /** What has arrived before goes on having arrived. */
  lemma {:induction false} StillArrives(start: State, moves: seq<Move>, j: nat, attempt: nat, callback: Callback)
    requires moves != []
    ensures Arrives(start, moves[..|moves| - 1], j, attempt, callback)
       <==> j < |moves| - 1 && Arrives(start, moves, j, attempt, callback)
  {
    hide Runs, Awaits;
    OneMoreMove(start, moves);
  }

  lemma {:induction false} LaneGoesOn(start: State, moves: seq<Move>, attempt: nat, lane: Lane, after: Lane)
    requires moves != []
    requires var earlier := moves[..|moves| - 1];
      && OpeningIsTraced(start, earlier, lane)
      && NonceIsTraced(start, earlier, attempt, lane) && GasIsTraced(start, earlier, attempt, lane)
      && EstimatesAreTraced(start, earlier, attempt, lane)
    requires KeepsRequest(lane, after)
    requires
      || (after.transaction.nonce == lane.transaction.nonce && after.nonceReady == lane.nonceReady)
      || (after.nonceReady && !lane.nonceReady && after.transaction.nonce.Some?
          && Arrives(start, moves, |moves| - 1, attempt, OnNonce(after.transaction.nonce)))
    requires
      || (after.transaction.gas == lane.transaction.gas && (lane.requiresGas ==> after.gasReady == lane.gasReady))
      || (lane.requiresGas && after.gasReady && after.transaction.gas.Some?
          && Arrives(start, moves, |moves| - 1, attempt, OnGas(after.transaction.gas)))
    requires after.announced.Some? && after.announced != lane.announced ==>
      Arrives(start, moves, |moves| - 1, attempt, OnEstimate(after.announced.value))
    requires after.resolvedWith.Some? && after.resolvedWith != lane.resolvedWith ==>
      after.resolvedWith == lane.announced
    ensures OpeningIsTraced(start, moves, after)
    ensures NonceIsTraced(start, moves, attempt, after) && GasIsTraced(start, moves, attempt, after)
    ensures EstimatesAreTraced(start, moves, attempt, after)
  {
    hide Runs, Arrives, IsAskedAt;
    var earlier := moves[..|moves| - 1];
    forall j: nat, callback | Arrives(start, earlier, j, attempt, callback)
      ensures Arrives(start, moves, j, attempt, callback)
    {
      StillArrives(start, moves, j, attempt, callback);
    }
    var asked: nat :| IsAskedAt(start, earlier, asked, lane);
    StillAsked(start, moves, asked, lane, after);
  }

  lemma {:induction false} StillAsked(start: State, moves: seq<Move>, j: nat, lane: Lane, after: Lane)
    requires moves != [] && IsAskedAt(start, moves[..|moves| - 1], j, lane) && KeepsRequest(lane, after)
    ensures IsAskedAt(start, moves, j, after)
  {
    hide Runs, Step;
    OneMoreMove(start, moves);
  }

  lemma {:induction false} TextGoesOn(start: State, moves: seq<Move>, attempt: nat, lane: Lane, after: Lane)
    requires moves != [] && TextIsTraced(start, moves[..|moves| - 1], attempt, lane) && KeepsRequest(lane, after)
    requires if TextArrives(start, moves, |moves| - 1, attempt)
             then moves[|moves| - 1].callback.text == after.transaction.interpretation
             else after.transaction.interpretation == lane.transaction.interpretation
    ensures TextIsTraced(start, moves, attempt, after)
  {
    hide Runs, Arrives;
    var earlier := moves[..|moves| - 1];
    var text := after.transaction.interpretation;
    if TextArrives(start, moves, |moves| - 1, attempt) {
      assert IsLastText(start, moves, |moves| - 1, attempt, text);
    } else {
      forall k: nat | k < |earlier|
        ensures TextArrives(start, moves, k, attempt) ==> TextArrives(start, earlier, k, attempt)
      {
        if moves[k].Calls? {
          StillArrives(start, moves, k, attempt, moves[k].callback);
        }
      }
      if j: nat :| IsLastText(start, earlier, j, attempt, text) {
        StillArrives(start, moves, j, attempt, OnInterpretation(text));
        assert IsLastText(start, moves, j, attempt, text);
      }
    }
  }

  lemma {:induction false} CallIsTraced(start: State, moves: seq<Move>, attempt: nat)
    requires moves != [] && moves[|moves| - 1].Calls? && moves[|moves| - 1].attempt == attempt
    requires IsTraced(start, moves[..|moves| - 1], attempt)
    ensures IsTraced(start, moves, attempt)
  {
    hide Runs, Called, Awaits, OpeningIsTraced, NonceIsTraced, GasIsTraced, TextIsTraced, EstimatesAreTraced, Step;
    var earlier, callback := moves[..|moves| - 1], moves[|moves| - 1].callback;
    var before := At(start, moves, |moves| - 1);
    OneMoreMove(start, moves);
    assert At(start, earlier, |earlier|) == before;
    if attempt in before.lanes {
      var lane := before.lanes[attempt];
      var after := Called(lane, before.reducer.network, callback).lane;
      ArrivalsAreInstalled(lane, before.reducer.network, callback);
      AwaitedNonceIsNew(lane, callback);
      LaneGoesOn(start, moves, attempt, lane, after);
      TextGoesOn(start, moves, attempt, lane, after);
    }
  }

  lemma {:induction false} AwaitedNonceIsNew(lane: Lane, callback: Callback)
    ensures Awaits(lane, callback) && callback.OnNonce? ==> !lane.nonceReady
    ensures Awaits(lane, callback) && callback.OnGas? ==> lane.requiresGas
  {
  }

  lemma {:induction false} OthersAreTraced(start: State, moves: seq<Move>, attempt: nat)
    requires Inv(start) && start.phase == Idle
    requires moves != [] && !(moves[|moves| - 1].Calls? && moves[|moves| - 1].attempt == attempt)
    requires IsTraced(start, moves[..|moves| - 1], attempt)
    ensures IsTraced(start, moves, attempt)
  {
    hide Runs, Called, Awaits, OpeningIsTraced, NonceIsTraced, GasIsTraced, TextIsTraced, EstimatesAreTraced, Step;
    hide Inv;
    var earlier, move := moves[..|moves| - 1], moves[|moves| - 1];
    var before, after := At(start, moves, |moves| - 1), At(start, moves, |moves|);
    OneMoreMove(start, moves);
    assert At(start, earlier, |earlier|) == before;
    if attempt in after.lanes {
      if attempt in before.lanes && after.lanes[attempt] == before.lanes[attempt] {
        LaneGoesOn(start, moves, attempt, before.lanes[attempt], before.lanes[attempt]);
        TextGoesOn(start, moves, attempt, before.lanes[attempt], before.lanes[attempt]);
      } else {
        OnlyTellsOpen(before, move, attempt);
        OpenedIsTraced(start, moves, attempt);
      }
    }
  }

  lemma {:induction false} LanesStay(start: State, moves: seq<Move>, k: nat, attempt: nat)
    requires k <= |moves| && attempt in At(start, moves, k).lanes
    ensures attempt in At(start, moves, |moves|).lanes
    decreases |moves|
  {
    hide Runs, Called, Step;
    if k < |moves| {
      OneMoreMove(start, moves);
      LanesStay(start, moves[..|moves| - 1], k, attempt);
      assert At(start, moves[..|moves| - 1], |moves| - 1) == At(start, moves, |moves| - 1);
    }
  }

  /** A preparation is opened under an attempt that no preparation has had. */
  lemma {:induction false} OpenedAnew(system: System, event: Event, attempt: nat)
    requires SystemInv(system)
    requires var after := Next(system, Tells(event));
      attempt in after.lanes && !(attempt in system.lanes && after.lanes[attempt] == system.lanes[attempt])
    ensures attempt !in system.lanes && !IsReport(event)
    ensures var last := Last(Step(system.reducer, event).effects);
      && last.Some? && last.value.RunPreparation?
      && Next(system, Tells(event)).lanes[attempt]
         == Opened(last.value.token, last.value.transaction, last.value.forceGasCheck)
  {
    hide Step, LaneInv, Agrees, Inv, WasValidated;
    assert attempt in system.lanes ==> LaneHolds(system, attempt);
    PreparationIsOpenedAnew(system.reducer, event);
  }

  lemma {:induction false} OpenedIsTraced(start: State, moves: seq<Move>, attempt: nat)
    requires Inv(start) && start.phase == Idle && moves != [] && moves[|moves| - 1].Tells?
    requires var before, after := At(start, moves, |moves| - 1), At(start, moves, |moves|);
      && attempt in after.lanes
      && !(attempt in before.lanes && after.lanes[attempt] == before.lanes[attempt])
    ensures IsTraced(start, moves, attempt)
  {
    hide Runs, Step, SystemInv, Awaits;
    var earlier, event := moves[..|moves| - 1], moves[|moves| - 1].event;
    var before := At(start, moves, |moves| - 1);
    OneMoreMove(start, moves);
    SystemInvAlways(start, earlier);
    OpenedAnew(before, event, attempt);
    assert IsAskedAt(start, moves, |moves| - 1, At(start, moves, |moves|).lanes[attempt]);
    assert At(start, earlier, |earlier|) == before;
    forall k: nat | k < |moves|
      ensures attempt !in At(start, moves, k).lanes
    {
      assert At(start, earlier, k) == At(start, moves, k);
      if attempt in At(start, moves, k).lanes {
        LanesStay(start, earlier, k, attempt);
      }
    }
  }

  lemma {:induction false} OnlyTellsOpen(system: System, move: Move, attempt: nat)
    requires !(move.Calls? && move.attempt == attempt)
    ensures var after := Next(system, move);
      attempt in after.lanes && !(attempt in system.lanes && after.lanes[attempt] == system.lanes[attempt]) ==>
        move.Tells?
  {
    hide Called, Step;
  }

  /** In every run: what a preparation holds is what it was asked for with, and what arrived for it. */
  lemma {:induction false} EveryPartIsTraced(start: State, moves: seq<Move>, attempt: nat)
    requires Inv(start) && start.phase == Idle
    ensures IsTraced(start, moves, attempt)
    decreases |moves|
  {
    hide Runs, Next, OpeningIsTraced, NonceIsTraced, GasIsTraced, TextIsTraced, EstimatesAreTraced;
    if moves == [] {
      NothingAtFirst(start, attempt);
    } else {
      EveryPartIsTraced(start, moves[..|moves| - 1], attempt);
      if moves[|moves| - 1].Calls? && moves[|moves| - 1].attempt == attempt {
        CallIsTraced(start, moves, attempt);
      } else {
        OthersAreTraced(start, moves, attempt);
      }
    }
  }

  lemma {:induction false} NothingAtFirst(start: State, attempt: nat)
    ensures IsTraced(start, [], attempt)
  {
  }

  /** The transaction is put together from what this preparation was asked for with and what arrived for it: the nonce
      that arrived unless there was one, the gas limit that arrived if one was to be estimated, and the fee resolved
      against an estimate that arrived. */
  ghost predicate IsComposed(start: State, moves: seq<Move>, attempt: nat, transaction: Transaction) {
    && attempt in At(start, moves, |moves|).lanes
    && var lane := At(start, moves, |moves|).lanes[attempt]; var opening := lane.feeBasis;
    && Validates(lane, transaction) && (exists j :: IsAskedAt(start, moves, j, lane))
    && transaction.id == opening.id && transaction.request == opening.request && transaction.intent == opening.intent
    && transaction.nonce.Some? && transaction.gas.Some?
    && (if opening.nonce.Some? then transaction.nonce == opening.nonce
        else exists j :: Arrives(start, moves, j, attempt, OnNonce(transaction.nonce)))
    && (if lane.requiresGas then exists j :: Arrives(start, moves, j, attempt, OnGas(transaction.gas))
        else transaction.gas == opening.gas)
    && lane.resolvedWith.Some?
    && (exists j :: Arrives(start, moves, j, attempt, OnEstimate(lane.resolvedWith.value)))
    && CarriesFee(transaction, Resolve(opening, At(start, moves, |moves|).reducer.network, lane.resolvedWith.value))
  }

  /** In every run: a transaction that is ready, authenticated or preflighted has been put together like this, although
      answers come in any order, edits and restarts come in between, and the reducer installs updates only. */
  lemma {:induction false} HeldIsComposed(start: State, moves: seq<Move>)
    requires Inv(start) && start.phase == Idle
    ensures var s := Runs(System(start, map[]), moves).reducer;
      IsHeld(s.phase) ==> exists attempt :: IsComposed(start, moves, attempt, s.transaction)
  {
    var system := Runs(System(start, map[]), moves); var s := system.reducer;
    assert moves[..|moves|] == moves;
    if IsHeld(s.phase) {
      SystemInvAlways(start, moves);
      ReadyIsWhatWasValidated(start, moves);
      hide Runs, Transaction.IsReadyForApproval, IsTraced, IsComposed, Inv, Agrees, LaneInv, Validates;
      var attempt :| attempt in system.lanes && Validates(system.lanes[attempt], s.transaction);
      assert LaneHolds(system, attempt);
      EveryPartIsTraced(start, moves, attempt);
      TracedIsComposed(start, moves, attempt, s.transaction);
    }
  }

  lemma {:induction false} TracedIsComposed(start: State, moves: seq<Move>, attempt: nat, transaction: Transaction)
    requires IsTraced(start, moves, attempt)
    requires var system := At(start, moves, |moves|);
      && attempt in system.lanes && LaneInv(system.lanes[attempt], system.reducer.network)
      && Validates(system.lanes[attempt], transaction) && transaction.IsReadyForApproval(system.reducer.network)
    ensures IsComposed(start, moves, attempt, transaction)
  {
    var system := At(start, moves, |moves|);
    ReadyHasTexts(transaction, system.reducer.network);
    ValidatedIsComplete(system.lanes[attempt], system.reducer.network, transaction);
    hide Runs, Resolve, Transaction.IsReadyForApproval, Arrives, IsAskedAt, TextIsTraced, LaneInv, CarriesFee;
    hide Validates;
  }

  lemma {:induction false} ValidatedIsComplete(lane: Lane, network: Network, transaction: Transaction)
    requires LaneInv(lane, network) && Validates(lane, transaction)
    ensures lane.nonceReady && lane.gasReady && lane.resolvedWith.Some?
    ensures transaction == lane.transaction.(interpretation := transaction.interpretation)
    ensures CarriesFee(transaction, Resolve(lane.feeBasis, network, lane.resolvedWith.value))
  {
    hide Resolve, Transaction.IsReadyForApproval;
  }

  lemma {:induction false} ReadyHasTexts(transaction: Transaction, network: Network)
    requires transaction.IsReadyForApproval(network)
    ensures transaction.nonce.Some? && transaction.gas.Some?
  {
  }
}
