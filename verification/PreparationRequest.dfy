/** A preparation under way: the callbacks of its requests change the variables they share. */
module PreparationRequest {
  import opened Wrappers
  import opened Fees
  import opened FeeResolution
  import opened ApprovalState
  import opened Preparation

  /** The variables after some callbacks, and what they have reported. */
  datatype Course = Course(lane: Lane, reports: seq<Event>) {
    function Then(network: Network, callback: Callback): Course {
      var progress := Called(lane, network, callback);
      Course(progress.lane, if progress.report.Some? then reports + [progress.report.value] else reports)
    }
  }

  class Request {
    const token: Token
    const network: Network
    const feeBasis: Transaction
    const requiresGas: bool
    var transaction: Transaction
    var finished: bool
    var cancelled: bool
    var nonceReady: bool
    var gasReady: bool
    var feeResolved: bool
    var reports: seq<Event>
    ghost var validated: Option<Transaction>
    ghost var resolvedWith: Option<Estimate>

    /** Between callbacks nothing is pending. */
    ghost function Now(): Course
      reads this
    {
      Course(Lane(token, transaction, feeBasis, requiresGas, nonceReady, gasReady, feeResolved, resolvedWith,
                  None, None, finished, cancelled, if finished then 1 else 0, validated), reports)
    }

    /** It never waits once all is ready; gas comes after the fee, and before the fee only a failure finishes. */
    predicate Valid()
      reads this
    {
      && (nonceReady && gasReady ==> finished || cancelled)
      && (gasReady ==> feeResolved)
      && (finished && !feeResolved ==> cancelled)
    }

    constructor (token: Token, transaction: Transaction, forceGasCheck: bool, network: Network)
      ensures this.network == network
      ensures Valid() && Now() == Course(Opened(token, transaction, forceGasCheck), [])
    {
      this.token, this.network, this.feeBasis := token, network, transaction;
      this.requiresGas := transaction.gas.None? || forceGasCheck;
      this.transaction := transaction;
      this.nonceReady := transaction.nonce.Some?;
      this.finished, this.cancelled, this.gasReady, this.feeResolved := false, false, false, false;
      this.reports, this.validated, this.resolvedWith := [], None, None;
    }

    method Cancel()
      modifies this
      ensures Now() == old(Now()).Then(network, OnCancellation)
    {
      cancelled := true;
    }

    method Fail(failure: FeeResolution.PreparationFailure)
      modifies this
      ensures var progress := Failing(old(Now()).lane, failure);
        Now() == Course(progress.lane, if progress.report.Some? then old(reports) + [progress.report.value]
                                       else old(reports))
    {
      if finished || cancelled {
        return;
      }
      cancelled := true;
      finished := true;
      reports := reports + [PreparationFailure(token, failure)];
    }

    method Update()
      modifies this
      ensures Now() == old(Now()).(reports := old(reports) + [PreparationUpdate(token, transaction)])
    {
      reports := reports + [PreparationUpdate(token, transaction)];
    }

    method FinishIfReady()
      modifies this
      ensures Now() == old(Now()).Then(network, OnFinish)
    {
      hide Transaction.IsReadyForApproval;
      if cancelled || finished || !nonceReady || !gasReady {
        return;
      }
      if !transaction.IsReadyForApproval(network) {
        Fail(InvalidTransaction);
        return;
      }
      finished, validated := true, Some(transaction);
      reports := reports + [PreparationSucceeded(token, transaction)];
    }

    method NonceReceived(nonce: Option<string>)
      requires Valid()
      modifies this
      ensures Valid() && Now() == old(Now()).Then(network, OnNonce(nonce)).Then(network, OnFinish)
    {
      hide Transaction.IsReadyForApproval;
      if cancelled || finished || nonceReady {
        return;
      }
      if nonce.None? {
        Fail(NonceUnavailable);
        return;
      }
      transaction := transaction.(nonce := nonce);
      nonceReady := true;
      Update();
      FinishIfReady();
    }

    method GasReceived(gas: Option<string>)
      requires Valid() && feeResolved && requiresGas
      modifies this
      ensures Valid() && Now() == old(Now()).Then(network, OnGas(gas)).Then(network, OnFinish)
    {
      hide Transaction.IsReadyForApproval;
      if cancelled || finished || gasReady {
        return;
      }
      if gas.None? {
        Fail(GasEstimationFailed);
        return;
      }
      transaction := transaction.(gas := gas);
      gasReady := true;
      Update();
      FinishIfReady();
    }

    method InterpretationReceived(text: Option<string>)
      requires Valid()
      modifies this
      ensures Valid() && Now() == old(Now()).Then(network, OnInterpretation(text))
    {
      if cancelled {
        return;
      }
      transaction := transaction.(interpretation := text);
      Update();
    }

    /** The estimate arrives once; it is announced, and the fee resolved, without a callback in between. */
    method EstimateReceived(estimate: Estimate)
      requires Valid() && !feeResolved
      modifies this
      ensures Valid()
      ensures Now() == old(Now()).Then(network, OnEstimate(estimate)).Then(network, OnFee)
                       .Then(network, OnFailure).Then(network, OnFinish)
    {
      hide Transaction.IsReadyForApproval, Resolve, IsForChain, Intent.IsStructurallyValid, FeeTaken, FinishTried;
      if cancelled {
        CancelledStays(Now().lane);
        return;
      }
      if !feeBasis.intent.IsStructurallyValid() {
        Fail(InvalidTransaction);
        CancelledStays(Now().lane);
        return;
      }
      if !IsForChain(estimate, network) {
        Fail(GasPriceUnavailable);
        CancelledStays(Now().lane);
        return;
      }
      reports := reports + [PreparationEstimate(token, estimate)];
      FeeReceived(estimate, Resolve(feeBasis, network, estimate));
    }

    /** Unlike the other callbacks, a cancelled or failed preparation ignores the rest of this one. */
    lemma CancelledStays(lane: Lane)
      requires lane.cancelled && lane.failing.None?
      ensures Called(lane, network, OnFee) == Quiet(lane)
      ensures Called(lane, network, OnFailure) == Quiet(lane)
      ensures Called(lane, network, OnFinish) == Quiet(lane)
    {
    }

    method FeeReceived(ghost estimate: Estimate, outcome: Outcome)
      requires Valid() && !feeResolved && !cancelled
      modifies this
      ensures Valid()
      ensures var progress := FeeTaken(old(Now()).lane, estimate, outcome);
        Now() == Course(progress.lane, if progress.report.Some? then old(reports) + [progress.report.value]
                                       else old(reports)).Then(network, OnFailure).Then(network, OnFinish)
    {
      hide Transaction.IsReadyForApproval;
      if outcome.Unavailable? {
        Fail(outcome.failure);
        return;
      }
      InstallFee(outcome.transaction, if outcome.Prepared? then Some(estimate) else None);
      if outcome.UnsafeUserFee? {
        Fail(UnsafeFees);
      } else if !requiresGas {
        gasReady := true;
        FinishIfReady();
      }
    }

    /** Copies the resolved fee state, and reports an update if it changes anything. */
    method InstallFee(resolved: Transaction, ghost against: Option<Estimate>)
      modifies this
      ensures var before := old(Now()).lane;
        var after := before.transaction.(
          preparedFee := resolved.preparedFee, provenance := resolved.provenance,
          currentBaseFee := resolved.currentBaseFee, nextBaseFee := resolved.nextBaseFee);
        Now() == Course(before.(feeResolved := true, resolvedWith := against, transaction := after),
                        if after != before.transaction then old(reports) + [PreparationUpdate(token, after)]
                        else old(reports))
    {
      var changed := transaction.preparedFee != resolved.preparedFee || transaction.provenance != resolved.provenance
        || transaction.currentBaseFee != resolved.currentBaseFee || transaction.nextBaseFee != resolved.nextBaseFee;
      transaction := transaction.(
        preparedFee := resolved.preparedFee, provenance := resolved.provenance,
        currentBaseFee := resolved.currentBaseFee, nextBaseFee := resolved.nextBaseFee);
      assert changed <==> transaction != old(transaction);
      feeResolved := true;
      resolvedWith := against;
      if changed {
        Update();
      }
    }
  }
}
