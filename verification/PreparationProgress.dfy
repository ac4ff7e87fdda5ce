/** That a preparation gets through: once all it needs has arrived, in whatever order, the transaction is ready. */
module PreparationProgress {
  import opened Wrappers
  import opened Quantities
  import opened Fees
  import opened FeeResolution
  import opened ApprovalState
  import opened Edits
  import opened ApprovalRuns
  import opened Preparation
  import opened PreparationTrace

  /** What arrives for a preparation: a nonce, an estimate, and a gas limit. */
  datatype Answers = Answers(nonce: string, estimate: Estimate, gas: string)

  /** The three answers when the nonce comes first, after the fee has been resolved, or last. */
  datatype Order = NonceFirst | NonceSecond | NonceLast

  function Arriving(answers: Answers, order: Order): (callbacks: seq<Callback>)
    ensures |callbacks| == 5
  {
    var nonce, gas := OnNonce(Some(answers.nonce)), OnGas(Some(answers.gas));
    match order
    case NonceFirst => [nonce, OnEstimate(answers.estimate), OnFee, gas, OnFinish]
    case NonceSecond => [OnEstimate(answers.estimate), OnFee, nonce, gas, OnFinish]
    case NonceLast => [OnEstimate(answers.estimate), OnFee, gas, nonce, OnFinish]
  }

  /** What the transaction becomes: the fee as resolved, the nonce it had or the one that arrived, and the gas limit
      that arrived if one was to be estimated. */
  function Completed(opening: Transaction, requiresGas: bool, network: Network, answers: Answers): Transaction
    requires Resolve(opening, network, answers.estimate).Prepared?
  {
    var resolved := Resolve(opening, network, answers.estimate).transaction;
    opening.(
      nonce := if opening.nonce.Some? then opening.nonce else Some(answers.nonce),
      gas := if requiresGas then Some(answers.gas) else opening.gas,
      preparedFee := resolved.preparedFee, provenance := resolved.provenance,
      currentBaseFee := resolved.currentBaseFee, nextBaseFee := resolved.nextBaseFee)
  }

  // ----- one answer

  predicate IsWaiting(lane: Lane) {
    !lane.cancelled && !lane.finished && !IsBusy(lane)
  }

  function WithNonce(lane: Lane, nonce: string): Lane {
    if lane.nonceReady then lane
    else lane.(transaction := lane.transaction.(nonce := Some(nonce)), nonceReady := true)
  }

  function WithGas(lane: Lane, gas: string): Lane {
    if !lane.requiresGas || lane.gasReady then lane
    else lane.(transaction := lane.transaction.(gas := Some(gas)), gasReady := true)
  }

  function WithFee(lane: Lane, network: Network, estimate: Estimate): Lane
    requires Resolve(lane.feeBasis, network, estimate).Prepared?
  {
    var resolved := Resolve(lane.feeBasis, network, estimate).transaction;
    lane.(feeResolved := true, resolvedWith := Some(estimate), gasReady := lane.gasReady || !lane.requiresGas,
          transaction := lane.transaction.(
            preparedFee := resolved.preparedFee, provenance := resolved.provenance,
            currentBaseFee := resolved.currentBaseFee, nextBaseFee := resolved.nextBaseFee))
  }

  lemma {:induction false} NonceIsTaken(lane: Lane, network: Network, nonce: string)
    requires IsWaiting(lane)
    ensures Called(lane, network, OnNonce(Some(nonce))).lane == WithNonce(lane, nonce)
  {
  }

  lemma {:induction false} GasIsTaken(lane: Lane, network: Network, gas: string)
    requires IsWaiting(lane) && lane.feeResolved
    ensures Called(lane, network, OnGas(Some(gas))).lane == WithGas(lane, gas)
  {
  }

  lemma {:induction false} FeeIsTaken(lane: Lane, network: Network, estimate: Estimate)
    requires IsWaiting(lane) && !lane.feeResolved
    requires lane.feeBasis.intent.IsStructurallyValid() && IsForChain(estimate, network)
    requires Resolve(lane.feeBasis, network, estimate).Prepared?
    ensures var announced := Called(lane, network, OnEstimate(estimate)).lane;
      Called(announced, network, OnFee).lane == WithFee(lane, network, estimate)
  {
    hide Resolve, IsForChain, Intent.IsStructurallyValid;
  }

  // ----- all of them

  function CalledAll(lane: Lane, network: Network, callbacks: seq<Callback>): Lane
    decreases |callbacks|
  {
    if callbacks == [] then lane
    else Called(CalledAll(lane, network, callbacks[..|callbacks| - 1]), network, callbacks[|callbacks| - 1]).lane
  }

  lemma {:induction false} CalledNext(lane: Lane, network: Network, callbacks: seq<Callback>, k: nat)
    requires k < |callbacks|
    ensures CalledAll(lane, network, callbacks[..k + 1])
         == Called(CalledAll(lane, network, callbacks[..k]), network, callbacks[k]).lane
    ensures CalledAll(lane, network, callbacks[..0]) == lane
  {
    hide Called;
    assert callbacks[..k + 1][..k] == callbacks[..k];
  }

  /** The answers can be used. */
  predicate AreGood(opening: Transaction, network: Network, answers: Answers) {
    && opening.intent.IsStructurallyValid() && IsForChain(answers.estimate, network)
    && Resolve(opening, network, answers.estimate).Prepared?
  }

  /** Just before the end all is there, whatever the order. */
  lemma {:induction false} AllIsThere(token: Token, opening: Transaction, forceGasCheck: bool, network: Network,
                                      answers: Answers, order: Order)
    requires AreGood(opening, network, answers)
    ensures var lane := Opened(token, opening, forceGasCheck);
      var before := CalledAll(lane, network, Arriving(answers, order)[..4]);
      && IsWaiting(before) && before.nonceReady && before.gasReady && before.token == token && before.validated.None?
      && before.transaction == Completed(opening, lane.requiresGas, network, answers)
  {
    var lane := Opened(token, opening, forceGasCheck);
    var callbacks := Arriving(answers, order);
    hide Called, CalledAll, Resolve, IsForChain, Intent.IsStructurallyValid;
    CalledNext(lane, network, callbacks, 0);
    CalledNext(lane, network, callbacks, 1);
    CalledNext(lane, network, callbacks, 2);
    CalledNext(lane, network, callbacks, 3);
    var first := if order.NonceFirst? then WithNonce(lane, answers.nonce) else lane;
    if order.NonceFirst? {
      NonceIsTaken(lane, network, answers.nonce);
    }
    FeeIsTaken(first, network, answers.estimate);
    var second := WithFee(first, network, answers.estimate);
    if order.NonceSecond? {
      NonceIsTaken(second, network, answers.nonce);
      GasIsTaken(WithNonce(second, answers.nonce), network, answers.gas);
    } else {
      GasIsTaken(second, network, answers.gas);
      NonceIsTaken(WithGas(second, answers.gas), network, answers.nonce);
    }
  }

  /** Once all has arrived, the preparation succeeds with the transaction put together from it, or fails if that is not
      fit to be approved. */
  lemma {:induction false} PreparationGoesThrough(token: Token, opening: Transaction, forceGasCheck: bool,
                                                  network: Network, answers: Answers, order: Order)
    requires AreGood(opening, network, answers)
    ensures var lane := Opened(token, opening, forceGasCheck);
      var completed := Completed(opening, lane.requiresGas, network, answers);
      var progress := Called(CalledAll(lane, network, Arriving(answers, order)[..4]), network, OnFinish);
      if completed.IsReadyForApproval(network)
      then progress.report == Some(PreparationSucceeded(token, completed)) && progress.lane.validated == Some(completed)
      else FailsWith(progress, InvalidTransaction)
  {
    AllIsThere(token, opening, forceGasCheck, network, answers, order);
    hide CalledAll, Resolve, Transaction.IsReadyForApproval;
  }

  // ----- and the reducer with it

  function Calling(attempt: nat, callbacks: seq<Callback>): (moves: seq<Move>)
    ensures |moves| == |callbacks|
  {
    seq(|callbacks|, i requires 0 <= i < |callbacks| => Calls(attempt, callbacks[i]))
  }

  /** A report of a preparation that is not over keeps it current. */
  lemma {:induction false} ReportsKeepCurrent(s: State, report: Event)
    requires IsReport(report) && s.IsCurrent(report.token) && !IsCompletion(report)
    ensures var after := Step(s, report).state; after.IsCurrent(report.token) && after.network == s.network
  {
    hide Estimate.ApplyBaseFeeContext, State.ToSnapshot, Transaction.DecimalNonce;
  }

  lemma {:induction false} OnlyTheEndCompletes(lane: Lane, network: Network, callback: Callback)
    ensures var progress := Called(lane, network, callback);
      progress.report.Some? && IsCompletion(progress.report.value) ==> progress.lane.finished
  {
    hide Resolve, Transaction.IsReadyForApproval, IsForChain, Intent.IsStructurallyValid;
  }

  /** While nothing has ended the preparation, lane and reducer go on together. */
  lemma {:induction false} BothGoOn(system: System, attempt: nat, callbacks: seq<Callback>)
    requires attempt in system.lanes && system.reducer.IsCurrent(system.lanes[attempt].token)
    requires !CalledAll(system.lanes[attempt], system.reducer.network, callbacks).finished
    ensures var after := Runs(system, Calling(attempt, callbacks)); var lane := system.lanes[attempt];
      && after.reducer.network == system.reducer.network && attempt in after.lanes
      && after.lanes[attempt] == CalledAll(lane, system.reducer.network, callbacks)
      && after.lanes[attempt].token == lane.token && after.reducer.IsCurrent(lane.token)
    decreases |callbacks|
  {
    hide Called, Step, State.IsCurrent;
    if callbacks != [] {
      var earlier, callback := callbacks[..|callbacks| - 1], callbacks[|callbacks| - 1];
      var lane, network := system.lanes[attempt], system.reducer.network;
      var before := CalledAll(lane, network, earlier);
      SilentOnceOver(before, network, callback);
      BothGoOn(system, attempt, earlier);
      assert Calling(attempt, callbacks)[..|callbacks| - 1] == Calling(attempt, earlier);
      CallbackKeepsToken(before, network, callback);
      OnlyTheEndCompletes(before, network, callback);
      var report := Called(before, network, callback).report;
      if report.Some? {
        ReportsKeepCurrent(Runs(system, Calling(attempt, earlier)).reducer, report.value);
      }
    }
  }

  /** So from any state of a run that is not finished: once a preparation has been started and what it needs has
      arrived, in whatever order, the transaction is ready, and is the one put together from it. */
  lemma {:induction false} ReadyInTheEnd(system: System, forceGasCheck: bool, answers: Answers, order: Order)
    requires SystemInv(system) && system.reducer.phase != Finished
    requires AreGood(system.reducer.transaction, system.reducer.network, answers)
    ensures var opening, network := system.reducer.transaction, system.reducer.network;
      var completed := Completed(opening, opening.gas.None? || forceGasCheck, network, answers);
      var started := Next(system, Tells(StartPreparation(forceGasCheck)));
      var after := Runs(started, Calling(system.reducer.attempt + 1, Arriving(answers, order))).reducer;
      completed.IsReadyForApproval(network) ==>
        after.phase == Ready && after.CanApprove() && after.transaction == completed
  {
    var s := system.reducer;
    var started := Next(system, Tells(StartPreparation(forceGasCheck)));
    StartOpens(system, forceGasCheck);
    hide Step, Transaction.IsReadyForApproval, Resolve, SystemInv, Inv, Next, Arriving, Opened;
    hide AreGood, Completed, State.IsCurrent, State.CanApprove, Calling, Runs;
    TellingKeepsSystem(system, StartPreparation(forceGasCheck));
    OnceStarted(started, s.attempt + 1, s.transaction, forceGasCheck, answers, order);
  }

  lemma {:induction false} OnceStarted(started: System, attempt: nat, opening: Transaction, forceGasCheck: bool,
                                       answers: Answers, order: Order)
    requires SystemInv(started) && attempt in started.lanes
    requires var token := Token(attempt, opening.id, ForPreparation);
      started.lanes[attempt] == Opened(token, opening, forceGasCheck) && started.reducer.IsCurrent(token)
    requires AreGood(opening, started.reducer.network, answers)
    ensures var network := started.reducer.network;
      var completed := Completed(opening, opening.gas.None? || forceGasCheck, network, answers);
      var after := Runs(started, Calling(attempt, Arriving(answers, order))).reducer;
      completed.IsReadyForApproval(network) ==>
        after.phase == Ready && after.CanApprove() && after.transaction == completed
  {
    hide Step, Called, CalledAll, Transaction.IsReadyForApproval, Resolve, SystemInv, Inv, Next, Arriving;
    hide Completed, State.IsCurrent, State.CanApprove, Calling, Runs, FailsWith, IsForChain;
    var token, network := Token(attempt, opening.id, ForPreparation), started.reducer.network;
    var before := Arriving(answers, order)[..4];
    AllIsThere(token, opening, forceGasCheck, network, answers, order);
    PreparationGoesThrough(token, opening, forceGasCheck, network, answers, order);
    BothGoOn(started, attempt, before);
    RunsKeepSystem(started, Calling(attempt, before));
    LastCall(started, attempt, answers, order);
    if Completed(opening, opening.gas.None? || forceGasCheck, network, answers).IsReadyForApproval(network) {
      FinishMakesReady(Runs(started, Calling(attempt, before)), attempt);
    }
  }

  lemma {:induction false} LastCall(system: System, attempt: nat, answers: Answers, order: Order)
    ensures var callbacks := Arriving(answers, order);
      && |callbacks| == 5 && callbacks[4] == OnFinish
      && Runs(system, Calling(attempt, callbacks))
         == Next(Runs(system, Calling(attempt, callbacks[..4])), Calls(attempt, OnFinish))
  {
    hide Next;
    var callbacks := Arriving(answers, order);
    assert Calling(attempt, callbacks)[..4] == Calling(attempt, callbacks[..4]);
  }

  lemma {:induction false} RunsKeepSystem(system: System, moves: seq<Move>)
    requires SystemInv(system)
    ensures SystemInv(Runs(system, moves))
    decreases |moves|
  {
    hide SystemInv, Next;
    if moves != [] {
      var before, move := Runs(system, moves[..|moves| - 1]), moves[|moves| - 1];
      RunsKeepSystem(system, moves[..|moves| - 1]);
      if move.Calls? {
        CallingKeepsSystem(before, move.attempt, move.callback);
      } else {
        TellingKeepsSystem(before, move.event);
      }
    }
  }

  /** The success of the current preparation makes its transaction ready. */
  lemma {:induction false} FinishMakesReady(system: System, attempt: nat)
    requires SystemInv(system) && attempt in system.lanes
    requires var lane := system.lanes[attempt];
      && system.reducer.IsCurrent(lane.token) && IsWaiting(lane)
      && lane.transaction.IsReadyForApproval(system.reducer.network)
      && Called(lane, system.reducer.network, OnFinish).report
         == Some(PreparationSucceeded(lane.token, lane.transaction))
    ensures var after := Next(system, Calls(attempt, OnFinish)).reducer;
      after.phase == Ready && after.CanApprove() && after.transaction == system.lanes[attempt].transaction
  {
    hide Step, Called, Transaction.IsReadyForApproval, Inv, Resolve;
    var lane := system.lanes[attempt];
    assert LaneHolds(system, attempt);
    ReportsAreHeard(system.reducer, PreparationSucceeded(lane.token, lane.transaction));
  }

  lemma {:induction false} StartOpens(system: System, forceGasCheck: bool)
    requires system.reducer.phase != Finished
    ensures var s := system.reducer; var attempt := s.attempt + 1;
      var started := Next(system, Tells(StartPreparation(forceGasCheck)));
      var token := Token(attempt, s.transaction.id, ForPreparation);
      && attempt in started.lanes && started.lanes[attempt] == Opened(token, s.transaction, forceGasCheck)
      && started.reducer.IsCurrent(token) && started.reducer.network == s.network
  {
    hide State.ToSnapshot;
  }
}
