# The wallet's core, verified

A Dafny model of the parts of the wallet that carry state, concurrency or arithmetic, with proofs of what they keep.
`dafny verify dfyconfig.toml` checks it.

**The approval of a transaction.** `ApprovalState` says what each event does to the nine-phase reducer; `Approval` is
the reducer itself, an object that changes its state in place, each handler proved to do what `ApprovalState` says.
`ApprovalRuns` proves what holds over every run: tokens are issued once, each result takes effect at most once, there is
at most one completion, and what completes is what was approved; `ApprovalProgress` that it gets on: every request of
the user's is answered, and from every state there is a way to the end. `Coordinator` runs the effects step by step,
with outputs and operations that may call back at each of them; `Outputs` proves that every output is handed out once,
`Snapshots` when what it says is up to date. `Preparation` races the nonce, fee, gas and interpretation callbacks of
every preparation against everything the user can do, and proves that a ready transaction is one that was validated,
although only updates are ever installed; `PreparationTrace` says where each part of it comes from, and
`PreparationProgress` that a preparation gets through once all has arrived. `Completion` puts it together, from
preparation to completion. `PreparationRequest` is one preparation as an object, `Cancellation` the object its requests
share. The number of the attempt is unbounded.

**Fees.** `Fees` has the fee, the record of who chose each component, and the estimate. `FeeResolution` has the two
separately written decision procedures, the resolution during preparation and the preflight after approval, and proves
that they agree; `FeeVerdicts` says exactly what they decide, for every market and every intent, in terms of who has
chosen which component. `Edits` is creation, the fee editor and the slider's effect on a transaction; `Slider` the
interpolation and its inverse by binary search; `FeeHistory` the order statistics behind an estimate, and how long a
suggested fee lasts; `Gwei` printing and exact decimal parsing; `Quantities` the 256-bit bound.

**The shared authorization token.** `JwtState` is the state of one process and what each operation does to it,
`JwtTombstones` what trimming the rejections keeps, `JwtProvider` the provider as an object beside a store. `JwtSystem`
has any number of processes that share a store and an exclusive lock, may crash and restart, read the store at any time
without the lock, merge what they read after the store has moved on, and use clock readings that are out of date.
`JwtRejections` proves that a rejected token stays rejected, `JwtSurvival` when every stored tombstone survives,
`JwtRepair` when storing leaves something to repair, `JwtUse` which record a process uses, and `JwtProgress` that what
is to be stored gets stored and used, and that the provider's own methods are runs of the system. `BrokerFlight`,
`RefreshFlights` and `RepairCoordinator` are the three actors; an actor runs one method at a time, so an invariant that
every method keeps holds in every interleaving.

**Codecs.** `Base58` is the in-place base conversion, proved against numerals (`Positional`), with both round trips and
the sufficiency of the buffer sizes. `Solana` is the wire transaction: compact lengths, the search for the signer, and
the signature written in place.

## What the proofs found

- A safe preflight finishes the approval without clearing the flag that the slider is held, so the finished phase
  absorbs every event but one (`ApprovalRuns.FinishedAbsorbs`, exact; `SliderFlagOutlivesThePreflight`, a run from the
  initial state).
- A slider that is released with a cancellation leaves its change in the transaction, unprepared: nothing can be
  approved until the user edits or starts again. Released otherwise, it never does
  (`ApprovalProgress.NoSliderChangeIsLost`).
- A snapshot can be late: a listener that cancels while it is handed an estimate gets the completion first and then a
  snapshot of the cancelled preparation (`Snapshots.SnapshotsMayComeLate`). Only the frame of an event that announces an
  estimate can be interrupted like this, and its snapshot is late exactly when an event sent during the announcement has
  changed it (`Snapshots.SnapshotsAreLateExactly`, `LateMeansChangedDuring`).
- A tombstone can be shortened: a token rejected without its record and then with it is dropped while the stored copy
  still has hours to go. It happens exactly when the second rejection brings a record that expires earlier
  (`JwtRejections.RejectionShortensExactly`, `UnexpiredTombstoneCanGo`, `JwtSurvival.ShorteningLoses`); in every run in
  which no rejection does so, all unexpired stored tombstones survive (`JwtSurvival.StoredTombstonesSurvive`). The token
  itself has expired by then, which is why a rejected token stays rejected in any case.
- Two tokens issued in the same second can keep the repair loop busy until one of them expires: the cached one is never
  stored, and the stored one never replaces it in the cache. That is a fixed point of repairing
  (`JwtRepair.RepairEndsExactly`, `StoredAlreadyStays`, `TokensOfOneSecondNeverSettle`).
- Resolution is not idempotent for every transaction: a requested component without a recorded source is taken for the
  wallet's own the second time (`Edits.UnrecordedSourcesAreNotKept`). `FeeResolution.ResolutionIsIdempotentExactly` says
  when, in terms of the transaction and the estimate alone. The parser of requests records every source, and the slider,
  the resolution and the preflight keep the record (`Edits.IsOrderly`).
- An edit may bring a fee of another kind than was asked for, or a record of sources that leaves out a component; those
  are exactly the edits that leave the records incomplete (`Edits.EditKeepsOrder`).
- The recommended fee outlasts five maximal rises from 5 wei on, not only from 8.

## Model

| member | source | states |
|---|---|---|
| ApprovalRuns.CompletesWhatWasApproved | Shared/Ethereum/TransactionApprovalCoordinator.swift:718-809 | In every run with authentication required, a transaction that completes was ready when the user approved it, an authentication for that same attempt and transaction then succeeded, nothing but its base-fee context has changed since, and its fee is safe under the estimate the preflight fetched |
| ApprovalRuns.CompletionIsOfTheHeld | Shared/Ethereum/TransactionApprovalCoordinator.swift:790-816 | With or without authentication, what completes is the transaction held, up to its base fees, with a fee that is safe |
| ApprovalRuns.ApprovalKept | Shared/Ethereum/TransactionApprovalCoordinator.swift:718-809 | While authentication and preflight are under way, the transaction stays the one that was approved, and the preflight is run on it |
| ApprovalRuns.OnlyPreflightCompletes | Shared/Ethereum/TransactionApprovalCoordinator.swift:790-816 | Apart from a caller that finishes with a transaction, only a current, safe preflight result completes one, with the estimate's base-fee context |
| ApprovalRuns.SafePreflightKeepsTheTransaction | Shared/Ethereum/Ethereum.swift:385-459 | A preflight that finds the fee safe hands back the transaction it was given, up to the base-fee context |
| ApprovalRuns.TokensAreIssuedOnce | Shared/Ethereum/TransactionApprovalCoordinator.swift:32-64 | In every run no request token is issued twice |
| ApprovalRuns.NewTokenIsCurrent | Shared/Ethereum/TransactionApprovalCoordinator.swift:614-788 | A request is current when it is issued |
| ApprovalRuns.ResultTakesEffectOnce | Shared/Ethereum/TransactionApprovalCoordinator.swift:527-544 | After a request's result has taken effect, no later result for it does, whatever happens in between |
| ApprovalRuns.SpentForever | Shared/Ethereum/TransactionApprovalCoordinator.swift:32-64 | A token that is used up never becomes current again |
| ApprovalRuns.AttemptsAdvance | Shared/Ethereum/TransactionApprovalCoordinator.swift:5-166 | Every event begins a new attempt, or lets the current one advance along the phases of a single attempt, for the same transaction |
| ApprovalRuns.AsksForTheNext | Shared/Ethereum/TransactionApprovalCoordinator.swift:614-788 | Whatever an event asks for, it asks for with a token of the new state's own transaction, attempt and phase, in a new attempt, or for a preflight in the one that was ready or authenticating, with the transaction held, and after cancelling what is active |
| ApprovalRuns.StaleReportsAreIgnored | Shared/Ethereum/TransactionApprovalCoordinator.swift:527-558 | A report for a request that is not current changes nothing and has no effect, unless it is an update of the transaction that was made ready; that one installs the transaction and shows it, and nothing else |
| ApprovalRuns.CompletesOnce | Shared/Ethereum/TransactionApprovalCoordinator.swift:980-996 | At most one completion in a run, and exactly one once the approval is finished |
| ApprovalRuns.FinishedAbsorbs | Shared/Ethereum/TransactionApprovalCoordinator.swift:160-164 | A finished approval absorbs every event, except that releasing the slider still clears the flag that it is held |
| ApprovalRuns.SliderFlagOutlivesThePreflight | Shared/Ethereum/TransactionApprovalCoordinator.swift:799-816 | That exception is real, for every transaction and every safe preflight: in the run in which the user takes hold of the slider during preparation, approves and authenticates, the approval finishes with the flag set, and releasing the slider changes the finished state |
| ApprovalRuns.StepKeepsInv | Shared/Ethereum/TransactionApprovalCoordinator.swift:168-185 | Inductive invariant: a pending restart implies the editing phase, a held slider and no alert; an alert that shows is current and its phase is that of its kind; the attempt belongs to the transaction |
| ApprovalRuns.InvAlways | Shared/Ethereum/TransactionApprovalCoordinator.swift:560-578 | The invariant holds after every run |
| ApprovalRuns.ReadyMeansUnchanged | Shared/Ethereum/TransactionApprovalCoordinator.swift:914-965 | Unless it is being edited, the transaction has not been changed by an edit or the slider since the last preparation began; so a ready one is as it was prepared |
| ApprovalRuns.PresentedActionsWork | Shared/Ethereum/TransactionApprovalCoordinator.swift:290-333 | The buttons an alert is presented with are exactly the actions the reducer acts on |
| ApprovalRuns.AlertsAlwaysFounded | Shared/Ethereum/TransactionApprovalCoordinator.swift:671-716 | In every run a failed preparation is retried as it was run, a verdict on the fee comes with the estimate it was reached on, and after a failure no base fee is left that no estimate vouches for |
| ApprovalRuns.PreparationStartsClean | Shared/Ethereum/TransactionApprovalCoordinator.swift:614-641 | A preparation starts without estimate, alert, held slider or pending restart of the attempt before |
| ApprovalRuns.EstimatesAreInstalled | Shared/Ethereum/TransactionApprovalCoordinator.swift:998-1012 | Every estimate that is announced is held, and the transaction carries its base-fee context |
| ApprovalRuns.SuggestedNonceStays | Shared/Ethereum/TransactionApprovalCoordinator.swift:643-655 | The first nonce the wallet has suggested is kept |
| ApprovalRuns.OnlyTheLastEffectCounts | Shared/Ethereum/TransactionApprovalCoordinator.swift:580-612 | Of an event's effects only the last starts a request or completes |
| ApprovalProgress.NeverStuck | Shared/Ethereum/TransactionApprovalCoordinator.swift:580-816 | An approval is never stuck: from every state that is not finished, whatever is under way or showing, starting again leads through update, success, approval, authentication and a safe preflight to the completion with that transaction |
| ApprovalProgress.NoSliderChangeIsLost | Shared/Ethereum/TransactionApprovalCoordinator.swift:934-978 | In every run: released without a cancellation, the slider has what it changed prepared, under a new attempt; so unless the approval is over, a change that is not prepared has been made in the editor or given up |
| ApprovalProgress.SliderChangeAlwaysPending | Shared/Ethereum/TransactionApprovalCoordinator.swift:934-978 | The invariant behind it: a slider change that has not been prepared has its restart pending |
| ApprovalProgress.SliderMoves | Shared/Ethereum/TransactionApprovalCoordinator.swift:934-965 | Wherever the transaction may be changed, a slider move that changes it is prepared at once, or when the slider is released if it is held |
| ApprovalProgress.EditsTakeEffect | Shared/Ethereum/TransactionApprovalCoordinator.swift:914-926 | An edit that changes something takes effect exactly where nothing is under way and there is a fee to edit or the preparation has failed: it is installed, and a new attempt begins with editing |
| ApprovalProgress.AlertsAreAnswered | Shared/Ethereum/TransactionApprovalCoordinator.swift:876-912 | Every button of an alert closes it and does what it says: retrying prepares again with the gas check the failed preparation was run with, acknowledging prepares again, editing opens the editor, cancelling leaves all as it is |
| ApprovalProgress.CancellingComesLast | Shared/Ethereum/TransactionApprovalCoordinator.swift:290-333 | The button that goes on comes first, and cancelling last, wherever it is offered |
| ApprovalProgress.StaleAlertsAreIgnored | Shared/Ethereum/TransactionApprovalCoordinator.swift:876-882 | An alert that no longer shows is not answered |
| ApprovalProgress.VerdictsAreTold | Shared/Ethereum/TransactionApprovalCoordinator.swift:790-874 | The verdict of the preflight under way completes the approval or is told by the alert of its kind; either way its transaction is installed with the context of its estimate |
| ApprovalProgress.FailuresAreTold | Shared/Ethereum/TransactionApprovalCoordinator.swift:691-715 | The failure of the preparation under way is told as it is, and the transaction stays but for unverified base fees |
| ApprovalProgress.EstimatesAreTold | Shared/Ethereum/TransactionApprovalCoordinator.swift:657-669 | An estimate is announced before the transaction is shown with its context |
| ApprovalProgress.NoncesAreSuggested | Shared/Ethereum/TransactionApprovalCoordinator.swift:643-690 | The nonce of the first transaction that has one is suggested, be it of an update, a success or a verdict |
| ApprovalProgress.FailedAuthenticationGivesBack | Shared/Ethereum/TransactionApprovalCoordinator.swift:750-767 | After a failed authentication the same transaction can be approved again |
| ApprovalProgress.FinishingEnds | Shared/Ethereum/TransactionApprovalCoordinator.swift:980-996 | Finishing cancels, and completes with what the caller says |
| ApprovalProgress.SnapshotsTellTheTruth | Shared/Ethereum/TransactionApprovalCoordinator.swift:493-525 | What a snapshot says can be done has an effect, and nothing else; and it shows transaction, phase, attempt, nonce and the fee the estimate suggests |
| Approval.Reducer.Reduce | Shared/Ethereum/TransactionApprovalCoordinator.swift:580-996 | The reducer is an object that changes its state in place, handler by handler; each of the fourteen events leaves exactly the state, and yields exactly the effects, that the specified step does |
| Coordinator.OperationsAreAccountedFor | Shared/Ethereum/TransactionApprovalCoordinator.swift:1119-1214 | With outputs and operations calling back at every step: the active request belongs to the current attempt and transaction and has neither been cancelled nor delivered, and every operation ever started is active, or cancelled, or has delivered, or has yet to return |
| Coordinator.NothingIsLostAtRest | Shared/Ethereum/TransactionApprovalCoordinator.swift:1154-1207 | Once all has returned, no cancellation handle is lost, and a preparation or preflight that is under way has its own operation active |
| Coordinator.WorldInvAlways | Shared/Ethereum/TransactionApprovalCoordinator.swift:1115-1214 | The invariant behind both holds in every run |
| Coordinator.EffectsAreOrdered | Shared/Ethereum/TransactionApprovalCoordinator.swift:580-996 | An event's effects cancel or clear first and start an operation last |
| Coordinator.CancelsBeforeStarting | Shared/Ethereum/TransactionApprovalCoordinator.swift:614-788 | An event that starts an operation cancels first |
| Coordinator.QuietEventsSettleNothing | Shared/Ethereum/TransactionApprovalCoordinator.swift:580-996 | An event that leaves attempt and phase alone neither cancels nor clears the active request |
| Coordinator.EventSettlesTheActive | Shared/Ethereum/TransactionApprovalCoordinator.swift:1203-1214 | An event either leaves the active request current or begins by cancelling it or clearing it by its own token |
| Coordinator.UnderWayIsAskedFor | Shared/Ethereum/TransactionApprovalCoordinator.swift:614-788 | An event that puts a preparation or preflight under way asks for its operation |
| Outputs.EverythingIsHandedOut | Shared/Ethereum/TransactionApprovalCoordinator.swift:1115-1152 | In every run, however outputs and operations call back: every output has been handed out or has still to be exactly as often as the events sent have it among their effects, and once all has returned it has been handed out as often |
| Snapshots.SnapshotsAreCurrent | Shared/Ethereum/TransactionApprovalCoordinator.swift:493-525 | Every snapshot among an event's effects is of the state the event leads to |
| Snapshots.ChangesAreSent | Shared/Ethereum/TransactionApprovalCoordinator.swift:493-525 | An event that changes the snapshot sends one |
| Snapshots.SnapshotsAreLateExactly | Shared/Ethereum/TransactionApprovalCoordinator.swift:1115-1152 | In every run, with outputs and operations calling back, and the effects of each event beginning to run as soon as it has been reduced: a snapshot that is handed out is of the current state, except exactly when its own frame has announced an estimate before it, of a preparation or a preflight, and the snapshot has changed since that announcement |
| Snapshots.EveryFrameIsTraced | Shared/Ethereum/TransactionApprovalCoordinator.swift:1115-1152 | The invariant behind it: a frame with a snapshot still to hand out has just begun, or has been waiting ever since it announced an estimate |
| Snapshots.LateMeansChangedDuring | Shared/Ethereum/TransactionApprovalCoordinator.swift:1115-1152 | What makes a snapshot late is an event that was sent after the announcement and changed the snapshot |
| Snapshots.SnapshotsMayComeLate | Shared/Ethereum/TransactionApprovalCoordinator.swift:1119-1152 | That exception is real: a listener that cancels on receiving the estimate gets the snapshot of the cancelled preparation after the completion |
| Cancellation.RequestCancellation.Cancel | Shared/Ethereum/EthereumRPC.swift:257-277 | Cancelling takes effect once, and runs every registered action exactly once |
| Cancellation.RequestCancellation.Register | Shared/Ethereum/EthereumRPC.swift:279-292 | An action registered after the cancellation runs at once and is not kept |
| Cancellation.RequestCancellation.Finish | Shared/Ethereum/EthereumRPC.swift:294-298 | The action of a finished request never runs |
| Preparation.ReadyIsWhatWasValidated | Shared/Ethereum/Ethereum.swift:118-291 | For every interleaving of nonce, fee, gas and interpretation with the user's acts: a transaction that is ready, being authenticated or preflighted is one that some preparation validated, up to a later interpretation, and is ready for approval, although only updates are ever installed; until an authentication has failed it is the preparation of the current attempt |
| Preparation.PreparedTransactionPassesPreflight | Shared/Ethereum/Ethereum.swift:385-459 | In every run, a held transaction that a preparation validated passes the preflight unchanged if that sees the estimate the preparation saw; in an unknown market exactly if its fee has a component of the user's |
| PreparationTrace.HeldIsComposed | Shared/Ethereum/Ethereum.swift:118-291 | In every run: the transaction that is ready, authenticated or preflighted has been put together, by a preparation the reducer asked for, from what it was asked for with and what arrived for it: the nonce that arrived unless there was one, the gas limit that arrived if one was to be estimated, the fee resolved against an estimate that arrived |
| PreparationTrace.EveryPartIsTraced | Shared/Ethereum/Ethereum.swift:118-291 | The invariant behind it, for every preparation at every time, down to the last interpretation to arrive |
| PreparationTrace.ArrivalsAreInstalled | Shared/Ethereum/Ethereum.swift:167-244 | A nonce, gas limit or interpretation that is awaited is installed as it arrives, and nothing else changes one |
| PreparationTrace.MissingAnswersFail | Shared/Ethereum/Ethereum.swift:141-287 | What is awaited and does not come, or is no use, fails the preparation with its own failure, and cancels the rest |
| PreparationTrace.UnresolvedFeesFail | Shared/Ethereum/Ethereum.swift:255-286 | A fee that cannot be resolved fails the preparation as the resolution says, an unsafe one after it has been shown |
| PreparationProgress.ReadyInTheEnd | Shared/Ethereum/Ethereum.swift:118-291 | From every state of a run that is not finished: once a preparation has been started and nonce, estimate and gas limit have arrived in whatever order, the reducer is ready with the transaction put together from them, if that is fit to be approved |
| PreparationProgress.PreparationGoesThrough | Shared/Ethereum/Ethereum.swift:118-291 | The same for one preparation: it succeeds with that transaction, or fails as invalid if it is not fit |
| Completion.CompletedWasValidated | Shared/Ethereum/Ethereum.swift:118-459 | From end to end, in every run and whether authentication is required or not: a transaction that completes is one that a preparation validated, up to its interpretation and base-fee context, and its fee is safe under the estimate of the preflight |
| Completion.CompletedIsFit | Shared/Ethereum/Transaction.swift:768-800 | In every run what completes can be signed and paid: nonce and gas limit can be read, the gas limit is not zero, the most it can cost fits into 256 bits, and a legacy fee comes without an access list and on the main network not for nothing |
| Completion.HeldIsFit | Shared/Ethereum/Transaction.swift:768-812 | So can what is ready, authenticated or preflighted; and its fee covers the base fee it is shown with |
| Completion.ReducerFollowsWhatItHears | Shared/Ethereum/TransactionApprovalCoordinator.swift:1115-1117 | The reducer of the whole system is in the state that the events it heard lead to, so what holds over every run of the reducer holds here |
| Preparation.PreparationCompletesOnce | Shared/Ethereum/Ethereum.swift:141-165 | Every preparation completes at most once |
| Preparation.SilentOnceOver | Shared/Ethereum/Ethereum.swift:141-165 | A cancelled preparation reports nothing; a finished one never completes again |
| Preparation.SystemInvAlways | Shared/Ethereum/Ethereum.swift:118-291 | While the reducer listens to a preparation it holds that preparation's own transaction, with the announced base-fee context while the fee is being resolved |
| Preparation.CallbackKeepsLane | Shared/Ethereum/Ethereum.swift:118-291 | What the callbacks of one preparation keep, in any order |
| Preparation.TellingKeepsTheTransaction | Shared/Ethereum/TransactionApprovalCoordinator.swift:580-996 | No act of the user's and no other result changes the transaction while the reducer listens to a preparation |
| Preparation.TellingKeepsTheHeld | Shared/Ethereum/TransactionApprovalCoordinator.swift:580-996 | Nobody but a preparation makes a transaction ready, and none but it changes one that is ready, authenticated or preflighted |
| Preparation.ReportsAreHeard | Shared/Ethereum/TransactionApprovalCoordinator.swift:643-716 | What the reducer makes of the reports of the preparation it listens to |
| Preparation.ResolvingKeepsContext | Shared/Ethereum/Ethereum.swift:652-690 | A resolved transaction has the base-fee context of the estimate it was resolved against |
| PreparationRequest.Request.EstimateReceived | Shared/Ethereum/Ethereum.swift:246-287 | The fee callback announces the estimate, copies the fee state, updates if anything changed, and fails or goes on |
| PreparationRequest.Request.FeeReceived | Shared/Ethereum/Ethereum.swift:255-286 | The same, from the outcome of the resolution on |
| PreparationRequest.Request.NonceReceived | Shared/Ethereum/Ethereum.swift:220-244 | The nonce callback updates and finishes if all is ready, or fails |
| PreparationRequest.Request.GasReceived | Shared/Ethereum/Ethereum.swift:167-195 | The gas callback updates and finishes if all is ready, or fails |
| PreparationRequest.Request.InterpretationReceived | Shared/Ethereum/Ethereum.swift:206-217 | The interpretation is reported unless cancelled, even after the success |
| PreparationRequest.Request.FinishIfReady | Shared/Ethereum/Ethereum.swift:149-165 | Success is reported once nonce and gas are ready and the transaction is valid |
| PreparationRequest.Request.Fail | Shared/Ethereum/Ethereum.swift:141-147 | The first failure cancels everything and completes; later ones do nothing |
| FeeResolution.ResolvedFeeCoversBaseFee | Shared/Ethereum/Ethereum.swift:652-1117 | Against a market with a base fee, resolution fails or yields a structurally valid fee whose cap covers that base fee |
| FeeResolution.UserValuesAreKeptExactly | Shared/Ethereum/Ethereum.swift:652-1117 | If the prepared fee is of the kind the intent asks for, every component whose recorded source is the user or the dapp keeps value and source, except exactly where a market without base fees meets a user's EIP-1559 fee and the intent leaves the kind open |
| FeeResolution.RequestedValuesAreKept | Shared/Ethereum/Ethereum.swift:652-1117 | Where nothing is prepared yet, every component the request asks for is prepared as requested, unless a recorded source other than the requester has taken it over |
| FeeResolution.ResolutionChangesOnlyTheFee | Shared/Ethereum/Ethereum.swift:652-1117 | Resolution touches fee, sources and base-fee context only |
| FeeResolution.ResolutionIsIdempotent | Shared/Ethereum/Ethereum.swift:652-1117 | Where every requested component has a recorded source, resolving again against the same estimate changes nothing; in an unknown market under its own condition |
| FeeResolution.ResolutionIsIdempotentExactly | Shared/Ethereum/Ethereum.swift:652-1117 | With or without recorded sources, for every market: resolving again changes nothing exactly under a condition on the input that can be checked before the first resolution: the fee is the slider's, or every requested component without a recorded source is already what the wallet would choose in its place |
| FeeResolution.SettledMeansGuessedRight | Shared/Ethereum/Ethereum.swift:972-1095 | The condition on the input says of the result that the wallet would choose the same fee again |
| FeeResolution.DynamicOutcome | Shared/Ethereum/Ethereum.swift:972-1095 | What the resolution of a requested EIP-1559 fee comes to, component by component: which are kept, which recommended, and which sources are recorded |
| FeeResolution.UnknownAgain | Shared/Ethereum/Ethereum.swift:870-1115 | In an unknown market, resolving again changes nothing exactly for the slider's fees and those with recorded sources |
| FeeResolution.SettledStays | Shared/Ethereum/Ethereum.swift:972-1095 | A covered EIP-1559 fee with recorded sources is resolved to itself exactly under that condition |
| FeeResolution.ResolutionAdoptsTheSuggestion | Shared/Services/GasService.swift:107-146 | Where the fee is left to the wallet, resolution installs the very fee the estimate suggests, and fails exactly where there is none |
| FeeResolution.PreflightOfPreparedIsSafe | Shared/Ethereum/Ethereum.swift:385-459 | Preflight of any ready transaction with the resolved fee and the same estimate answers safe, for every market, except that in an unknown one it does so exactly for fees with a component of the user's |
| FeeVerdicts.DynamicFeeIsDecided | Shared/Ethereum/Ethereum.swift:776-1097 | Against a market with a base fee, for every transaction that wants an EIP-1559 fee: it pays the priority fee that was chosen or is recommended, with the user's cap or one that lasts while the base fee doubles, exactly if there is such a fee; and if not, the user is to blame exactly where a component of the user's stands in the way |
| FeeVerdicts.UsersPriceIsDecided | Shared/Ethereum/Ethereum.swift:776-805 | A gas price of the user's is kept if it covers the base fee and is blamed if not |
| FeeVerdicts.LegacyFeeIsDecided | Shared/Ethereum/Ethereum.swift:914-984 | A requested legacy fee: the wallet's own price is the one it suggests, at least a wei above the base fee; the user's is kept exactly if valid and covering |
| FeeVerdicts.WalletsPriceIsDecided | Shared/Ethereum/Ethereum.swift:914-984 | The wallet's price for a requested legacy fee: the suggested one, and at least a wei above the base fee |
| FeeVerdicts.AnyFeeWithoutBaseFee | Shared/Ethereum/Ethereum.swift:876-898 | Where there is no base fee and the kind is left open: a valid gas price of the user's, or the one quoted |
| FeeVerdicts.UnknownAnyFeeIsDecided | Shared/Ethereum/Ethereum.swift:899-912 | In an unknown market only a fee of the user's own is let through, as it is, if it covers the base fee it carries |
| FeeVerdicts.UnknownDynamicFeeIsDecided | Shared/Ethereum/Ethereum.swift:986-1113 | Without a known base fee an EIP-1559 fee needs both components from the user |
| FeeVerdicts.UnknownLegacyFeeIsDecided | Shared/Ethereum/Ethereum.swift:914-984 | In an unknown market a legacy fee is the user's or the one quoted, if it covers the base fee the transaction carries |
| FeeVerdicts.SlidersFeeIsDecided | Shared/Ethereum/Ethereum.swift:724-771 | A fee set with the slider keeps the priority it pays: its priority fee, or what it left over the base fee it was set against |
| FeeVerdicts.SlidersFeeElsewhere | Shared/Ethereum/Ethereum.swift:724-771 | In other markets the slider's fee is kept, moved along with a base fee, or refused |
| FeeVerdicts.RefusalsAreDecided | Shared/Ethereum/Ethereum.swift:652-723 | Nothing is resolved for an intent that makes no sense, a foreign estimate, or a missing base fee; and with which failure |
| FeeVerdicts.OutdatedDynamicFeeIsDecided | Shared/Ethereum/Ethereum.swift:517-598 | A fee that no longer covers the base fee: the user is told if the cap is the user's; otherwise it is updated to the priority chosen or recommended and a cap that lasts while the base fee doubles, if there is such a fee and it is affordable |
| FeeVerdicts.OutdatedLegacyFeeIsDecided | Shared/Ethereum/Ethereum.swift:472-516 | The same for a legacy fee: the wallet's becomes the one it suggests, the slider's keeps what it left over the base fee it was set against |
| FeeVerdicts.WalletsUpdateIsDecided | Shared/Ethereum/Ethereum.swift:517-585 | What the wallet updates its own cap to, and when it cannot |
| FeeVerdicts.WalletsPriceUpdateIsDecided | Shared/Ethereum/Ethereum.swift:472-516 | What the wallet updates its own gas price, or the slider's, to |
| FeeVerdicts.WalletsCapLasts | Shared/Ethereum/Transaction.swift:121-149 | That cap pays the full priority fee exactly while the base fee has not more than doubled |
| FeeVerdicts.OtherVerdicts | Shared/Ethereum/Ethereum.swift:385-470 | All other verdicts of the preflight, for every market |
| FeeVerdicts.ContextIsTheEstimates | Shared/Services/GasService.swift:91-119 | A transaction gets the base fee of the estimate, loses it where there is none, and keeps it where that is unknown |
| FeeVerdicts.SourceIsTheStrongest | Shared/Ethereum/Transaction.swift:276-291 | The source of a fee is the strongest recorded for one of its components |
| FeeResolution.PreflightIsSafeExactly | Shared/Ethereum/Ethereum.swift:385-459 | Against a market with a base fee, for any transaction and network: preflight answers safe exactly when the estimate is of that chain, the fee is valid and covers the base fee, and the gas limit is there, not zero, and affordable in 256 bits |
| FeeResolution.UpdatedFeeIsSafe | Shared/Ethereum/Ethereum.swift:457-598 | A wallet-managed update changes the fee, covers the base fee, keeps the user's components, and is safe when checked again |
| Edits.UnrecordedSourcesAreNotKept | Shared/Ethereum/Ethereum.swift:772-870 | Idempotence needs recorded sources: without them a requested value gives way on the second resolution |
| Edits.ParsedTransactionIsOrderly | Shared/Ethereum/Transaction.swift:517-606 | A transaction as parsed from a request records the source of every component it asks for |
| Edits.ParsedAsRequested | Shared/Ethereum/Transaction.swift:517-606 | A parsed transaction has the request and its intent as they are, records every component that is asked for as the dapp's, and has the fee set if the intent settles it |
| Edits.RequestsAreMet | Shared/Ethereum/Ethereum.swift:652-1117 | From the request to the fee, for every market: what a dapp has asked for is what is prepared, component by component |
| Edits.GasPriceIsARequest | Shared/Ethereum/Transaction.swift:517-606 | A gas price alone is a legacy fee the dapp asks for |
| Edits.FeeIsAnIntent | Shared/Ethereum/Transaction.swift:517-606 | A fee without an intent is taken for the intent, with the source it comes with; what was not asked for is the wallet's |
| Edits.EditKeepsOrder | Shared/Ethereum/Transaction.swift:896-968 | An edit keeps those records exactly when a fee it brings is of the kind asked for and a record it brings leaves out no component |
| Edits.SliderKeepsOrder | Shared/Ethereum/Transaction.swift:1005-1061 | So does the slider |
| Edits.ResolutionKeepsOrder | Shared/Ethereum/Ethereum.swift:652-1117 | So does resolution |
| Edits.PreflightKeepsOrder | Shared/Ethereum/Ethereum.swift:385-598 | So does the preflight |
| Edits.UnsafeMeansUserControlled | Shared/Ethereum/Ethereum.swift:417-585 | The user is told of an unsafe fee only if a component of it is the user's |
| Edits.EditIsApplied | Shared/Ethereum/Transaction.swift:896-926 | An edit is refused exactly when its fee is invalid or it changes nothing; else fee and nonce read back as edited, and nothing else changes but the identifier |
| Edits.EditRecordsSources | Shared/Ethereum/Transaction.swift:928-968 | A changed component is recorded as edited, one that keeps its value keeps its source |
| Edits.HexTextIsRead | Shared/Ethereum/EthereumRPC.swift:5-29 | A quantity written in hexadecimal is read back, by the parser of quantities and, below 2^64, by that of nonces |
| Edits.HexTextIsCanonical | Shared/Ethereum/Transaction.swift:921-924 | It is written in small letters without leading zeros |
| Edits.SliderPaysItsPriority | Shared/Ethereum/Transaction.swift:1005-1061 | Whatever its kind, a fee set with the slider pays exactly the priority fee of the position on top of the base fee |
| Edits.SliderSetsItsFee | Shared/Ethereum/Transaction.swift:1005-1061 | A position sets its priority fee, on top of the base fee or with a cap that lasts while it doubles, and has no effect exactly where there is no such fee |
| Quantities.ParseUInt256 | Shared/Ethereum/EthereumRPC.swift:5-29 | A parsed quantity has at most 256 bits |
| Quantities.QuantityIsRead | Shared/Ethereum/EthereumRPC.swift:5-29 | A text is accepted exactly if it has a prefix or needs none and 1 to 256 hexadecimal digits that denote at most 256 bits, and is read as the number they denote |
| Quantities.WordIsRead | Shared/Extensions/FixedWidthInteger.swift:3-9 | A word is read as the number its digits denote if that fits into 64 bits; only a zero may be negative |
| Slider.ClosestSliderUnits | Shared/Ethereum/Transaction.swift:1263-1307 | The binary search ends at the position whose offset is nearest to the target among all 1,000,001, with an error of at most half of ⌈distance/10^6⌉, and none when the distance is at most 10^6 |
| Slider.SliderPosition | Shared/Ethereum/Transaction.swift:1216-1261 | The position shown is nearest to the fee over the whole slider; a fee the slider can produce is produced again |
| Slider.InterpolatedFee | Shared/Ethereum/Transaction.swift:1113-1151 | A slider fee lies between minimum and maximum, and exists for every position of a usable slider |
| Slider.InterpolationIsMonotone | Shared/Ethereum/Transaction.swift:1113-1175 | A further position never means a smaller fee |
| Slider.InterpolateIsExact | Shared/Ethereum/Transaction.swift:1153-1175 | Neither the clamp nor the check of the result ever matters |
| Slider.UsableWhenRecommending | Shared/Services/GasService.swift:22-49 | Minimum ≤ recommended ≤ maximum exactly when something is recommended |
| Slider.SliderIsLinear | Shared/Ethereum/Transaction.swift:1079-1175 | The marks are half the recommended fee, the recommended fee and twice the high one, within bounds; in between each segment rises in equal steps, rounded down |
| FeeHistory.PriorityInfo | Shared/Services/GasService.swift:534-569 | Whenever the rewards are well-formed there is an info, its recommended fee is at most its high one, and its slider is usable; the final guard never fires |
| FeeHistory.MediansAreOrdered | Shared/Services/GasService.swift:551-566 | The upper median of the lower percentile never exceeds that of the upper one |
| FeeHistory.SortingIsMonotone | Shared/Services/GasService.swift:551-560 | Every order statistic grows with its column |
| FeeHistory.RewardRows | Shared/Services/GasService.swift:540-549 | Rows are accepted exactly when both rewards are quantities in order |
| FeeHistory.Percentiles | Shared/Services/GasService.swift:551-560 | For each column the value of which no more than half are smaller and more than half at most as large, raised to the minimum |
| FeeHistory.UpperMedian | Shared/Services/GasService.swift:551-556 | The upper median is one of the values, no more than half of them are smaller, and more than half at most as large |
| FeeHistory.UpperMedianIsUnique | Shared/Services/GasService.swift:551-556 | That leaves no choice |
| FeeHistory.BaseFees | Shared/Services/GasService.swift:513-532 | The last two fees of a history of 2 to 11 quantities |
| FeeHistory.HistoryNeedsPrefixes | Shared/Services/GasService.swift:513-549 | The quantities of a history need their prefix |
| FeeHistory.RecommendedFeeKeepsItsPriority | Shared/Ethereum/Transaction.swift:121-149 | The recommended fee pays its full priority exactly while the base fee is at most twice the quoted one |
| FeeHistory.RecommendedFeeOutlastsFiveRises | Shared/Ethereum/Transaction.swift:121-149 | So it lasts five maximal rises (EIP-1559, Specification), exactly from a base fee of 5 wei on |
| FeeHistory.SuggestedPriceCoversTheNextBlock | Shared/Services/GasService.swift:154-161 | The suggested legacy price covers the next block exactly when there is a priority fee or the base fee is at least 8 wei |
| Gwei.PrintAndParse | Shared/Ethereum/Transaction.swift:726-734 | Parsing the printed gwei text of any wei amount returns that amount |
| Gwei.PrintedIsCanonical | Shared/Ethereum/Transaction.swift:726-734 | The printed text has no needless zero and no needless point |
| Gwei.GasPriceWei | Shared/Ethereum/Transaction.swift:1177-1208 | A text is accepted exactly when it is a decimal numeral, and the wei are its exact value rounded half to even, for any number of places |
| Gwei.RoundingIsUnique | Shared/Ethereum/Transaction.swift:1177-1208 | Rounding half to even determines the result |
| Base58.DecodeUndoesEncode | Safari Shared/Inpage Provider/base58.js:18-118 | Decoding the encoding of any byte sequence returns it |
| Base58.EncodeUndoesDecode | Safari Shared/Inpage Provider/base58.js:18-118 | Encoding what any text over the alphabet decodes to returns the text |
| Base58.AlphabetIsUnmistakable | Safari Shared/Inpage Provider/base58.js:7 | The alphabet is all digits and letters but 0, O, I and l, in the order of their codes |
| Base58.EncodedSizeSuffices | Safari Shared/Inpage Provider/base58.js:31 | 256^n < 58^(⌊138n/100⌋+1), so no carry is dropped in encoding |
| Base58.DecodedSizeSuffices | Safari Shared/Inpage Provider/base58.js:79 | 58^n < 256^(⌊733n/1000⌋+1), so no carry is dropped in decoding |
| Base58.Encode | Safari Shared/Inpage Provider/base58.js:18-61 | The in-place base conversion computes the specified text |
| Base58.Decode | Safari Shared/Inpage Provider/base58.js:63-118 | The in-place base conversion computes the specified bytes, and fails exactly on a character outside the alphabet |
| Base58.TakeBytes | Safari Shared/Inpage Provider/base58.js:35-47 | The outer loop over the bytes: the buffer holds the number read so far |
| Base58.TakeCharacters | Safari Shared/Inpage Provider/base58.js:83-100 | The outer loop over the characters, up to one outside the alphabet |
| Base58.TakeByte | Safari Shared/Inpage Provider/base58.js:36-45 | One carry loop, in place: multiplied by 256 and added |
| Base58.TakeDigit | Safari Shared/Inpage Provider/base58.js:89-98 | One carry loop, in place: multiplied by 58 and added |
| Base58.MultipliedValue | Safari Shared/Inpage Provider/base58.js:39-43 | The carry loop multiplies the number in the buffer and adds the carry |
| Base58.SkipZeros | Safari Shared/Inpage Provider/base58.js:49-52 | The leading zeros of the buffer are skipped |
| Solana.SignsForTheWallet | Safari Shared/Inpage Provider/solana.js:502-560 | In a transaction laid out as the wire format prescribes, signing replaces the signature of the first required signer with the wallet's key, and nothing else |
| Solana.RefusesForeignTransactions | Safari Shared/Inpage Provider/solana.js:486-500 | A transaction that does not require the wallet's signature is refused |
| Solana.UnknownVersionsAreRefused | Safari Shared/Inpage Provider/solana.js:450-484 | A versioned message of another version than 0 is refused |
| Solana.SignatureGoesToTheFirstSigner | Safari Shared/Inpage Provider/solana.js:450-528 | For every accepted transaction: as many signatures as required signers, all before the message, and the slot is that of the first required signer with the key |
| Solana.SigningChangesOneSlot | Safari Shared/Inpage Provider/solana.js:544-560 | The 64-byte slot lies before the message, no other byte changes, and every key is afterwards prepared as before |
| Solana.CosignersCommute | Safari Shared/Inpage Provider/solana.js:544-560 | Two wallets with different keys may sign in either order |
| Solana.PreparationIgnoresSignatures | Safari Shared/Inpage Provider/solana.js:502-528 | Preparation does not depend on the signatures present |
| Solana.EncodedLengthIsRead | Safari Shared/Inpage Provider/solana.js:426-448 | Reading a compact length undoes encoding it, for every length below 2^35 and wherever it stands |
| Solana.LengthReadIsSmall | Safari Shared/Inpage Provider/solana.js:426-448 | No length read reaches 2^35, so the arithmetic on doubles is exact |
| Solana.DecodeShortVec | Safari Shared/Inpage Provider/solana.js:426-448 | The loop reads the specified length, and fails on an unfinished or sixth byte |
| Solana.SignerDetailsForMessage | Safari Shared/Inpage Provider/solana.js:450-500 | The search finds the specified signer |
| Solana.ReadLayout | Safari Shared/Inpage Provider/solana.js:450-484 | The header is read as specified, legacy or version 0 |
| Solana.KeysMatch | Safari Shared/Inpage Provider/solana.js:486-493 | The byte comparison with its early exit compares the keys |
| Solana.PreparedStandardTransaction | Safari Shared/Inpage Provider/solana.js:502-528 | The transaction is prepared as specified |
| Solana.SignTransaction | Safari Shared/Inpage Provider/solana.js:544-560 | The signed transaction is a fresh copy with the signature in its slot |
| Solana.Set | Safari Shared/Inpage Provider/solana.js:556-557 | The signature is written in place |
| JwtSystem.EverySaveSucceedsTheLast | Shared/Services/AlchemyJWTProvider.swift:1155-1295 | Any number of processes, crashing and restarting: what is saved has a strictly larger revision than what was stored, does not reject its own record, does not go back to an earlier record unless the stored one has expired or been rejected, and serves its purpose: after a fetch the later of the fetched and the stored record, the stored one if both are of the same second |
| JwtSystem.RevisionInvAlways | Shared/Services/AlchemyJWTProvider.swift:1736-1858 | In every run the store is at least as new as what each process last saw, and the same if equally new |
| JwtSystem.EnvelopeSucceeds | Shared/Services/AlchemyJWTProvider.swift:1176-1204 | An envelope prepared from what was loaded succeeds it and serves its purpose; there is one exactly if the revisions are not exhausted and a fetched token is not rejected |
| JwtSystem.CachedIsNeverTombstoned | Shared/Services/AlchemyJWTProvider.swift:1736-1832 | In every run no process caches a token it holds a tombstone for |
| JwtSystem.CacheNeverGoesBack | Shared/Services/AlchemyJWTProvider.swift:1640-1655 | Neither reading the store nor a refresh replaces a good cached record by one issued earlier |
| JwtSystem.BestIsBest | Shared/Services/AlchemyJWTProvider.swift:1551-1572 | What is stored is no worse than the stored and the cached record |
| JwtProgress.FetchIsStored | Shared/Services/AlchemyJWTProvider.swift:1155-1216 | Whoever works through the free lock has the later of the fetched and the good stored record stored, under the next revision with all the rejections it knows |
| JwtProgress.RejectionIsStored | Shared/Services/AlchemyJWTProvider.swift:1219-1295 | A rejection taken in under the lock ends up in the store, and its token leaves it |
| JwtProgress.StoredIsUsed | Shared/Services/AlchemyJWTProvider.swift:1736-1832 | Any other process without a record of its own comes to use a good stored one by reading it |
| JwtProgress.CrashFreesTheLock | Shared/Services/AlchemyJWTProvider.swift:2478-2530 | A process that crashes gives the lock up and begins afresh |
| JwtProgress.PersistingIsARun | Shared/Services/AlchemyJWTProvider.swift:1155-1216 | What the provider's persisting does to process and store is what a run through the lock does, so what holds over runs holds for it |
| JwtProgress.PersistingARejectionIsARun | Shared/Services/AlchemyJWTProvider.swift:1219-1295 | The same for persisting a rejection |
| JwtProgress.PersistingTheBestIsARun | Shared/Services/AlchemyJWTProvider.swift:1492-1549 | Persisting the best there is: nothing if the store says it already, and a run through the lock if not |
| JwtProgress.UndecodableIsReplacedByTheBest | Shared/Services/AlchemyJWTProvider.swift:1492-1549 | Undecodable data never says anything already: the best there is is stored over it |
| JwtProgress.UndecodableIsReplaced | Shared/Services/AlchemyJWTProvider.swift:1155-1216 | Data that cannot be decoded is not read, and is replaced exactly by what a save stores over it |
| JwtUse.ReadingTakesOver | Shared/Services/AlchemyJWTProvider.swift:1736-1832 | Reading a newer envelope uses its record exactly when it is good and nothing good is cached, or it is the same token, later, or of the same second but stored later; otherwise what is cached stays exactly as long as it is good |
| JwtUse.ReadingOldTidiesUp | Shared/Services/AlchemyJWTProvider.swift:1736-1765 | Reading nothing newer only drops what has expired |
| JwtUse.RejectedIsNotRead | Shared/Services/AlchemyJWTProvider.swift:1781-1811 | A stored record that the envelope or the process itself rejects is never used, however many later rejections there are |
| JwtUse.RefreshTakesOver | Shared/Services/AlchemyJWTProvider.swift:1623-1676 | A refreshed record is used unless it has been rejected or another good one was issued no earlier |
| JwtUse.RejectionTakesOutOfUse | Shared/Services/AlchemyJWTProvider.swift:1575-1621 | A rejection takes that one token out of use and no other |
| JwtUse.RejectionIsRecorded | Shared/Services/AlchemyJWTProvider.swift:1575-1621 | Until when a rejection is remembered, and since when, with and without its record |
| JwtUse.UsableExactly | Shared/Services/AlchemyJWTProvider.swift:75-136 | A record can be used while it is issued at most five minutes ahead and has more than half a minute left, if it lasts one to six hours and says what its token says |
| JwtUse.BetterIsAnOrder | Shared/Services/AlchemyJWTProvider.swift:1551-1572 | The better of two records is always one of them: the one issued later, or in the same second to last longer |
| JwtUse.RepairIsNeededExactly | Shared/Services/AlchemyJWTProvider.swift:1399-1426 | Repair is needed exactly unless the store says all that the process knows |
| JwtRejections.RejectedIsNeverCached | Shared/Services/AlchemyJWTProvider.swift:1575-1621 | In every run, with at most sixteen live tombstones at each step, no process caches an unexpired token it knows to be rejected |
| JwtRejections.StoredRejectionsStay | Shared/Services/AlchemyJWTProvider.swift:1834-1858 | Under the same premise, a rejection that was ever stored stays in the store, and in every process that has read the store, until the token expires; even if rejections shorten tombstones |
| JwtSurvival.StoredTombstonesSurvive | Shared/Services/AlchemyJWTProvider.swift:1575-1943 | In every run in which at most sixteen are live and no rejection shortens one: every unexpired tombstone of all that was ever stored is in the store, to expire no earlier |
| JwtSurvival.SavesCarryStoredTombstones | Shared/Services/AlchemyJWTProvider.swift:1176-1295 | In such a run every save carries each unexpired tombstone of the envelope it replaces |
| JwtSurvival.SurvivalInvAlways | Shared/Services/AlchemyJWTProvider.swift:1736-1943 | The invariant behind both: every process holds the unexpired tombstones of what it has read, and every envelope under way those of the store |
| JwtSurvival.ShorteningLoses | Shared/Services/AlchemyJWTProvider.swift:1599-1613 | The other direction: a rejection that shortens a tombstone loses it, at the time it has set instead, while the stored one is still live |
| JwtRejections.RejectionInvAlways | Shared/Services/AlchemyJWTProvider.swift:1736-1943 | The invariant behind both holds in every run |
| JwtRejections.RejectionOutlasts | Shared/Services/AlchemyJWTProvider.swift:1589-1598 | The tombstone of a vended token outlasts it, whether or not its record is known |
| JwtRejections.RejectionIsNoLongerThanNeeded | Shared/Services/AlchemyJWTProvider.swift:1589-1598 | And lasts no longer than the longest-lived token that could be good |
| JwtRejections.UsableMeansVended | Shared/Services/AlchemyJWTProvider.swift:75-136 | A record that was ever usable is bounded by skew and lifetime |
| JwtRejections.MergingKnows | Shared/Services/AlchemyJWTProvider.swift:1736-1832 | Merging the store makes every stored rejection the process's own |
| JwtRejections.RejectingKnows | Shared/Services/AlchemyJWTProvider.swift:1575-1621 | A rejection is known, and no other forgotten |
| JwtRejections.RejectionShortensExactly | Shared/Services/AlchemyJWTProvider.swift:1599-1613 | A rejection keeps a tombstone at least as long as it was to last exactly when it brings no record, or one that expires no earlier |
| JwtRejections.UnexpiredTombstoneCanGo | Shared/Services/AlchemyJWTProvider.swift:1599-1613 | An input for which it happens: one tombstone is dropped while the stored copy still has hours to go |
| JwtRepair.RepairEndsExactly | Shared/Services/AlchemyJWTProvider.swift:1399-1549 | Storing the best available state leaves something to repair exactly when the cached record was not stored and will not be marked as stored |
| JwtRepair.StoredAlreadyStays | Shared/Services/AlchemyJWTProvider.swift:1492-1549 | A state with nothing new to store is left alone by a repair, and so is the store: a fixed point |
| JwtRepair.TokensOfOneSecondNeverSettle | Shared/Services/AlchemyJWTProvider.swift:1492-1549 | Two tokens issued in the same second, one cached and the better one stored: any number of repairs, at any times while both are good, leaves state and store as they are, with something still to repair |
| JwtRepair.DeadlockArises | Shared/Services/AlchemyJWTProvider.swift:1796-1811 | A process that fetched the one before it read that the other is stored gets there with its first repair |
| JwtTombstones.TrimmedFill | Shared/Services/AlchemyJWTProvider.swift:1915-1943 | Trimming leaves sixteen tombstones, or all live ones if they are fewer |
| JwtTombstones.NothingLiveIsTrimmed | Shared/Services/AlchemyJWTProvider.swift:1915-1943 | With at most sixteen live, nothing live is trimmed |
| JwtTombstones.LatestRejectionsStay | Shared/Services/AlchemyJWTProvider.swift:1915-1943 | What comes before a tombstone that stays, stays too |
| JwtTombstones.TrimmedWereRejectedEarlier | Shared/Services/AlchemyJWTProvider.swift:1915-1943 | Nothing that is trimmed was rejected later than anything that stays |
| JwtTombstones.WithRoomTheLiveStay | Shared/Services/AlchemyJWTProvider.swift:1915-1943 | With room for all, exactly what has not expired stays, as it is |
| JwtTombstones.PreservedStays | Shared/Services/AlchemyJWTProvider.swift:1921-1925 | The rejection being recorded is never trimmed |
| JwtTombstones.JoiningOnlyExtends | Shared/Services/AlchemyJWTProvider.swift:1767-1780 | Merging shortens no tombstone and predates no rejection |
| JwtTombstones.JoiningTakesTheLater | Shared/Services/AlchemyJWTProvider.swift:1767-1780 | It has every tombstone of either side, with the later expiry and the later rejection of two |
| JwtProvider.TrimmedTombstones | Shared/Services/AlchemyJWTProvider.swift:1915-1943 | Sorting and taking the first ones keeps the specified tombstones |
| JwtProvider.TakeFirst | Shared/Services/AlchemyJWTProvider.swift:1926-1936 | As many as there is room for, in their order |
| JwtProvider.Provider.MergePersistedState | Shared/Services/AlchemyJWTProvider.swift:1736-1832 | Merging changes the state in place as specified |
| JwtProvider.Provider.MarkRejectedLocally | Shared/Services/AlchemyJWTProvider.swift:1575-1621 | So does a rejection |
| JwtProvider.Provider.RecordRefreshSuccess | Shared/Services/AlchemyJWTProvider.swift:1623-1676 | So does a successful refresh |
| JwtProvider.Provider.PersistenceSnapshot | Shared/Services/AlchemyJWTProvider.swift:1834-1858 | The snapshot trims, and returns revision, envelope and tombstones |
| JwtProvider.Provider.PersistFetchedRecord | Shared/Services/AlchemyJWTProvider.swift:1155-1216 | The later of a fetched record and the good stored one is stored and returned, None exactly if it has been rejected or the revisions are exhausted; undecodable data is replaced, and while the store cannot be read or written the fetched record is used as it is |
| JwtProvider.Provider.SaveRejectionEnvelope | Shared/Services/AlchemyJWTProvider.swift:1263-1295 | The best record is stored with the tombstones, under the next revision |
| JwtProvider.Provider.PersistRejection | Shared/Services/AlchemyJWTProvider.swift:1219-1261 | A rejection is taken in after the store has been read, with the stored record if its own is not known, and then saved |
| JwtProvider.Provider.PersistBestAvailableState | Shared/Services/AlchemyJWTProvider.swift:1492-1549 | The best record is stored unless it is stored already; undecodable data is always replaced, and nothing happens while the store cannot be read |
| JwtProvider.Provider.RequiresPersistenceRepair | Shared/Services/AlchemyJWTProvider.swift:1399-1426 | Repair is needed while the record, a rejection, or the rejection of the stored record is not stored |
| BrokerFlight.Flight.Start | Shared/Services/AlchemyJWTProvider.swift:2103-2137 | A request of one's own takes the slot, even from a bypassed one that is still awaited |
| BrokerFlight.Flight.Finish | Shared/Services/AlchemyJWTProvider.swift:2185-2213 | The first to learn an outcome resumes every waiter of that request, once |
| BrokerFlight.Flight.TimeOutWaiter | Shared/Services/AlchemyJWTProvider.swift:2215-2225 | A timer resumes its waiter only if nothing has yet |
| BrokerFlight.Flight.JoinActiveOpportunistic | Shared/Services/AlchemyJWTProvider.swift:2139-2168 | A waiter joins only an opportunistic request in flight, with its timer running |
| BrokerFlight.Flight.EachWaiterIsResumedOnce | Shared/Services/AlchemyJWTProvider.swift:2098-2225 | In every interleaving each waiter is resumed at most once, and exactly once when its timer has gone off or its request finished |
| RefreshFlights.Coordinator.Run | Shared/Services/AlchemyJWTProvider.swift:2030-2048 | A caller joins the refresh in flight for its key or starts the only one |
| RefreshFlights.Coordinator.Clear | Shared/Services/AlchemyJWTProvider.swift:2058-2066 | A refresh is cleared by its own callers only |
| RefreshFlights.Coordinator.OneRefreshForEachKey | Shared/Services/AlchemyJWTProvider.swift:2018-2068 | At most one refresh runs for each key |
| RepairCoordinator.Coordinator.MarkDirty | Shared/Services/AlchemyJWTProvider.swift:2259-2281 | A change is never lost: something is active afterwards |
| RepairCoordinator.Coordinator.RepairCompleted | Shared/Services/AlchemyJWTProvider.swift:2283-2321 | A clean run that began before the last change starts another; idle means that a clean run has observed it; a failed one asks for a cooldown that doubles with every failed one since the last clean one |
| RepairCoordinator.Coordinator.CooldownCompleted | Shared/Services/AlchemyJWTProvider.swift:2323-2329 | After a cooldown the repair runs again |
| RepairCoordinator.Coordinator.CooldownCancelled | Shared/Services/AlchemyJWTProvider.swift:2331-2334 | Only a cancelled cooldown leaves a change unrepaired |
| RepairCoordinator.CooldownNanoseconds | Shared/Services/AlchemyJWTProvider.swift:2336-2350 | The cooldown doubles with every failed window up to the maximum, without overflow |

## Left out

- Views, windows, alerts and storyboards: the user interface is an arbitrary source of events.
- URLSession, the keychain, UserDefaults, `flock`, Darwin notifications and the clock: abstract steps that may fail, and
  time readings at most as late as the clock.
- Signing, hashing, RLP and wallet derivation: not modelled; a token stands for its own digest, so digests are
  injective, and their order and that of token strings is the same order of tokens.
- JSON and the segment checks of a token: a token is well-formed or not, and determines when it was issued and expires.
- Store data that cannot be decoded is modelled for the provider's own methods, not in runs of many processes: the path
  that replaces it starts from a process's own last revision, so the theorems on revisions do not cover it. Tombstones
  in an envelope are a map, so duplicates in a stored list are merged.
- The provider's back-off counters and notifications: they decide when to refresh, not what is used or stored. Of
  proactive refresh only what it does to the state is modelled: it may drop the cached record (`JwtSystem.Drops`).
- BrokerFlight.Flight.Await: does not model the retry of a caller whose request failed on another's behalf, which is a
  new call of its own.
- Slider positions are integer units, a million to a segment; the rounding of `Double` is not modelled, nor are prices
  in fiat currency.
- The raw gas-price text that a transaction keeps beside its fee: only the fee it denotes is modelled.
- `BigUInt` as a sequence of words, and its decimal printing: numbers are natural numbers with the explicit bound
  2^256 - 1. Attempt numbers and generations do not wrap around; revisions are bounded by 2^64 - 1.
- JwtSurvival.StoredTombstonesSurvive: assumes at most sixteen live rejections where a process takes one in.
- JwtRejections.RejectedIsNeverCached: assumes at most sixteen live rejections where a process takes one in, rejected
  tokens that were once usable, and a sound store to begin with.
- Structures of the original that are copied by assignment (the reducer's state, transactions, records) are values here.
- The run loop of the coordinator is a state machine over its steps rather than an object, since its outputs call back
  into it.
- Array lengths that wrap around in 32 bits: the sizes of Base58 buffers are exact.
- The network catalogue, custom networks, identifier mapping, error normalization and content-script routing: they would
  add easy members only.
