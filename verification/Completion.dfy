/** From preparation to completion: what completes is what a preparation validated. */
module Completion {
  import opened Wrappers
  import opened Quantities
  import opened Fees
  import opened FeeResolution
  import opened ApprovalState
  import opened ApprovalRuns
  import Preparation

  /** The event that a move brings the reducer, if any. */
  function HeardIn(system: Preparation.System, move: Preparation.Move): Option<Event> {
    match move
    case Calls(attempt, callback) =>
      if attempt !in system.lanes then None
      else Preparation.Called(system.lanes[attempt], system.reducer.network, callback).report
    case Tells(event) => if Preparation.IsReport(event) then None else Some(event)
  }

  function Opening(start: State): Preparation.System {
    Preparation.System(start, map[])
  }

  /** All that the reducer hears in a run. */
  function HeardDuring(start: State, moves: seq<Preparation.Move>): seq<Event>
    decreases |moves|
  {
    if moves == [] then []
    else
      var earlier := moves[..|moves| - 1];
      var heard := HeardIn(Preparation.Runs(Opening(start), earlier), moves[|moves| - 1]);
      HeardDuring(start, earlier) + (if heard.Some? then [heard.value] else [])
  }

  lemma {:induction false} ReducerFollowsWhatItHears(start: State, moves: seq<Preparation.Move>)
    ensures After(start, HeardDuring(start, moves)).state == Preparation.Runs(Opening(start), moves).reducer
    decreases |moves|
  {
    hide Step;
    if moves != [] {
      var earlier, move := moves[..|moves| - 1], moves[|moves| - 1];
      ReducerFollowsWhatItHears(start, earlier);
      var system := Preparation.Runs(Opening(start), earlier);
      var heard := HeardIn(system, move);
      MoveIsHeard(system, move);
      if heard.Some? {
        AfterOneMore(start, HeardDuring(start, earlier), heard.value);
      } else {
        assert HeardDuring(start, moves) == HeardDuring(start, earlier);
      }
    }
  }

  lemma {:induction false} MoveIsHeard(system: Preparation.System, move: Preparation.Move)
    ensures Preparation.Next(system, move).reducer
         == if HeardIn(system, move).Some? then Step(system.reducer, HeardIn(system, move).value).state
            else system.reducer
  {
    hide Step, Preparation.Called;
  }

  lemma {:induction false} AfterOneMore(start: State, events: seq<Event>, event: Event)
    ensures After(start, events + [event]).state == Step(After(start, events).state, event).state
  {
    hide Step;
    assert (events + [event])[..|events|] == events;
  }

  /** What `completed` owes to a preparation: up to interpretation and base-fee context it is what was validated, and
      its fee is safe under the estimate of the preflight that let it through. */
  predicate IsOfPreparation(lane: Preparation.Lane, completed: Transaction, estimate: Estimate) {
    && lane.validated.Some?
    && completed.SameButBaseFees(lane.validated.value.(interpretation := completed.interpretation))
    && completed.preparedFee.Some? && IsSafe(completed, completed.preparedFee.value, estimate)
  }

  predicate SomeLaneAccountsFor(lanes: map<nat, Preparation.Lane>, completed: Transaction, estimate: Estimate) {
    exists attempt :: attempt in lanes && IsOfPreparation(lanes[attempt], completed, estimate)
  }

  /** Whether authentication is required or not, and however callbacks, edits, the slider, alerts and retries come in
      between: the transaction an approval completes with is one that a preparation validated, up to its interpretation
      and base-fee context. */
  lemma {:induction false} CompletedWasValidated(start: State, moves: seq<Preparation.Move>, event: Event,
                                                 completed: Transaction)
    requires Inv(start) && start.phase == Idle
    ensures var system := Preparation.Runs(Opening(start), moves);
      var h := After(start, HeardDuring(start, moves));
      IsFaithful(h, event) && Completes(system.reducer, event, completed) ==>
        event.PreflightFinished? && SomeLaneAccountsFor(system.lanes, completed, event.result.estimate)
  {
    hide Step, IsSafe, Transaction.IsReadyForApproval, IsFaithful, ApprovalHolds;
    hide Inv, Completes, Preparation.Runs, HeardDuring, After;
    var system, events := Preparation.Runs(Opening(start), moves), HeardDuring(start, moves);
    var h := After(start, events);
    ReducerFollowsWhatItHears(start, moves);
    if IsFaithful(h, event) && Completes(system.reducer, event, completed) {
      InvAlways(start, events);
      ApprovalAlways(start, events);
      CompletionIsOfTheHeld(h, event, completed);
      Preparation.ReadyIsWhatWasValidated(start, moves);
      var attempt :| attempt in system.lanes && Preparation.Validates(system.lanes[attempt], h.state.transaction);
      StaysOfPreparation(system.lanes[attempt], h.state.transaction, completed, event.result.estimate);
    }
  }

  lemma {:induction false} StaysOfPreparation(lane: Preparation.Lane, held: Transaction, completed: Transaction,
                                              estimate: Estimate)
    requires Preparation.Validates(lane, held) && completed.SameButBaseFees(held)
    requires completed.preparedFee.Some? && IsSafe(completed, completed.preparedFee.value, estimate)
    ensures IsOfPreparation(lane, completed, estimate)
  {
    hide IsSafe;
  }

  // ----- what is held, and what completes, can be signed and paid

  predicate IsAffordable(gasLimit: nat, price: nat) {
    gasLimit * price <= MAX_UINT256
  }

  /** Nonce and gas limit can be read, the gas limit is not zero, the most it can cost fits into 256 bits, and a legacy
      fee comes without an access list, and on the main network not for nothing. */
  predicate IsFit(transaction: Transaction, network: Network) {
    && transaction.nonce.Some? && ParseUInt256(transaction.nonce.value, true).Some?
    && transaction.gas.Some? && transaction.preparedFee.Some?
    && var limit, fee := ParseUInt256(transaction.gas.value, true), transaction.preparedFee.value;
    && limit.Some? && limit.value > 0 && IsAffordable(limit.value, fee.Cap())
    && (fee.Eip1559? ==> fee.maxPriorityFee <= fee.maxFee)
    && (fee.Legacy? ==> transaction.request.accessList == [] && (network.isEthMainnet ==> fee.gasPrice > 0))
  }

  /** The base fee the transaction is shown with is covered, and there is one on a network known to have them. */
  predicate CoversWhatIsShown(transaction: Transaction, network: Network) {
    && (network.catalogEip1559 ==> transaction.BasisBaseFee().Some?)
    && (transaction.BasisBaseFee().Some? && transaction.preparedFee.Some? ==>
          transaction.preparedFee.value.Cap() >= transaction.BasisBaseFee().value)
  }

  lemma {:induction false} ReadyIsFit(transaction: Transaction, network: Network)
    requires transaction.IsReadyForApproval(network)
    ensures IsFit(transaction, network) && CoversWhatIsShown(transaction, network)
  {
    hide ParseUInt256;
  }

  /** In every run: what is ready, authenticated or preflighted is fit, and covers the base fee it is shown with. */
  lemma {:induction false} HeldIsFit(start: State, moves: seq<Preparation.Move>)
    requires Inv(start) && start.phase == Idle
    ensures var s := Preparation.Runs(Opening(start), moves).reducer;
      Preparation.IsHeld(s.phase) ==> IsFit(s.transaction, s.network) && CoversWhatIsShown(s.transaction, s.network)
  {
    hide Preparation.Runs, IsFit, CoversWhatIsShown, Transaction.IsReadyForApproval;
    var s := Preparation.Runs(Opening(start), moves).reducer;
    Preparation.ReadyIsWhatWasValidated(start, moves);
    if Preparation.IsHeld(s.phase) {
      ReadyIsFit(s.transaction, s.network);
    }
  }

  /** And so is what completes. */
  lemma {:induction false} CompletedIsFit(start: State, moves: seq<Preparation.Move>, event: Event,
                                          completed: Transaction)
    requires Inv(start) && start.phase == Idle
    ensures var s := Preparation.Runs(Opening(start), moves).reducer;
      IsFaithful(After(start, HeardDuring(start, moves)), event) && Completes(s, event, completed) ==>
        IsFit(completed, s.network)
  {
    hide Step, IsSafe, IsFit, IsFaithful, ApprovalHolds, Inv, Completes, Preparation.Runs, HeardDuring, After;
    var events := HeardDuring(start, moves);
    var h := After(start, events);
    ReducerFollowsWhatItHears(start, moves);
    if IsFaithful(h, event) && Completes(h.state, event, completed) {
      InvAlways(start, events);
      ApprovalAlways(start, events);
      CompletionIsOfTheHeld(h, event, completed);
      HeldIsFit(start, moves);
      BaseFeesAside(completed, h.state.transaction, h.state.network);
    }
  }

  lemma {:induction false} BaseFeesAside(a: Transaction, b: Transaction, network: Network)
    requires a.SameButBaseFees(b) && IsFit(b, network)
    ensures IsFit(a, network)
  {
    hide ParseUInt256;
  }
}
