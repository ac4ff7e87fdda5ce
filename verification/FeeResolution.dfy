/** How a preparation resolves the fee of a transaction against a fresh estimate, and how the preflight checks it
    again: two separately written decision procedures that have to agree. */
module FeeResolution {
  import opened Wrappers
  import opened Quantities
  import opened Fees

  datatype PreparationFailure =
    | NonceUnavailable | GasPriceUnavailable | GasEstimationFailed | InvalidTransaction | UnsafeFees

  datatype Outcome =
    | Prepared(transaction: Transaction)
    | UnsafeUserFee(transaction: Transaction)
    | Unavailable(failure: PreparationFailure)

  /** Installs a fee; None when it is not structurally valid. */
  function Apply(resolved: Transaction, fee: Fee, source: Source, preserving: bool): Option<Transaction> {
    if !fee.IsStructurallyValid() then None
    else if resolved.preparedFee == Some(fee) && !preserving && resolved.FeeSource() == source then Some(resolved)
    else Some(resolved.SetPreparedFee(fee, source, preserving))
  }

  function Finish(applied: Option<Transaction>, otherwise: Outcome): Outcome {
    if applied.Some? then Prepared(applied.value) else otherwise
  }

  function UnsafeIf(userControlled: bool, resolved: Transaction, failure: PreparationFailure): Outcome {
    if userControlled then UnsafeUserFee(resolved) else Unavailable(failure)
  }

  function RecommendedPriority(estimate: Estimate): Option<nat> {
    if estimate.info.Some? then Some(estimate.info.value.recommendedPriorityFee) else None
  }

  /** A fee set with the slider is moved along with the base fee. */
  function ResolveSlider(
      resolved: Transaction, sliderFee: Fee, previousBaseFee: Option<nat>, estimate: Estimate): Outcome
  {
    var baseFee := estimate.BaseFee();
    match sliderFee
    case Eip1559(priorityFee, _) =>
      if baseFee.None? then Unavailable(InvalidTransaction) else
        var refreshed := RecommendedEip1559(baseFee.value, priorityFee);
        if refreshed.None? then Unavailable(InvalidTransaction)
        else Finish(Apply(resolved, refreshed.value, Slider, false), Unavailable(InvalidTransaction))
    case Legacy(gasPrice) =>
      if estimate.support == LegacyMarket then
        Finish(Apply(resolved, Legacy(gasPrice), Slider, false), Unavailable(InvalidTransaction))
      else if estimate.support == Eip1559Market && baseFee.Some? then
        var priorityFee :=
          if previousBaseFee.Some? && gasPrice > previousBaseFee.value then Some(gasPrice - previousBaseFee.value)
          else RecommendedPriority(estimate);
        if priorityFee.None? then Unavailable(GasPriceUnavailable)
        else if !IsUInt256(baseFee.value + priorityFee.value) then Unavailable(InvalidTransaction)
        else Finish(Apply(resolved, Legacy(baseFee.value + priorityFee.value), Slider, false),
                    Unavailable(InvalidTransaction))
      else Unavailable(InvalidTransaction)
  }

  function ResolveAutomaticEip1559(resolved: Transaction, estimate: Estimate): Outcome {
    var provenance := resolved.provenance;
    if estimate.BaseFee().None? then Unavailable(GasPriceUnavailable) else
      var baseFee := estimate.BaseFee().value;
      if resolved.GasPriceValue().Some? && IsUser(provenance.gasPrice) then
        if resolved.preparedFee.value.HasSufficientEffectivePriorityFee(baseFee) then Prepared(resolved)
        else UnsafeUserFee(resolved)
      else
        var prioritySource := Known(provenance.maxPriorityFee, Automatic);
        var maxFeeSource := Known(provenance.maxFee, Automatic);
        ResolveDynamic(resolved, estimate, baseFee, prioritySource, maxFeeSource,
                       resolved.MaxPriorityFeeValue(), resolved.MaxFeeValue(), GasPriceUnavailable)
  }

  /** The two components of a dynamic fee: what the user controls stays, the rest follows the estimate. */
  function ResolveDynamic(
      resolved: Transaction, estimate: Estimate, baseFee: nat, prioritySource: Source, maxFeeSource: Source,
      existingPriority: Option<nat>, existingMaxFee: Option<nat>, failure: PreparationFailure): Outcome
  {
    var prioritySettled := prioritySource.IsUserControlled() || prioritySource == Slider;
    var userControlled := prioritySource.IsUserControlled() || maxFeeSource.IsUserControlled();
    if prioritySettled && existingPriority.None? then UnsafeUserFee(resolved)
    else if !prioritySettled && maxFeeSource.IsUserControlled()
            && existingMaxFee.Some? && existingMaxFee.value <= baseFee then UnsafeUserFee(resolved)
    else if !prioritySettled && RecommendedPriority(estimate).None? then Unavailable(GasPriceUnavailable)
    else
      var priorityFee := if prioritySettled then existingPriority.value else RecommendedPriority(estimate).value;
      if maxFeeSource.IsUserControlled() && existingMaxFee.None? then UnsafeUserFee(resolved)
      else if !maxFeeSource.IsUserControlled() && RecommendedEip1559(baseFee, priorityFee).None? then
        UnsafeIf(prioritySource.IsUserControlled(), resolved, failure)
      else
        var fee :=
          if maxFeeSource.IsUserControlled() then Eip1559(priorityFee, existingMaxFee.value)
          else RecommendedEip1559(baseFee, priorityFee).value;
        if !fee.HasSufficientEffectivePriorityFee(baseFee) then UnsafeIf(userControlled, resolved, failure)
        else Finish(Apply(resolved, fee, Automatic, true), UnsafeIf(userControlled, resolved, failure))
  }

  function ResolveAutomaticLegacy(resolved: Transaction, network: Network, estimate: Estimate): Outcome {
    if IsUser(resolved.provenance.gasPrice) && resolved.GasPriceValue().Some? then
      if IsValidGasPrice(resolved.GasPriceValue().value, network) then Prepared(resolved)
      else UnsafeUserFee(resolved)
    else if estimate.gasPrice.None? then Unavailable(GasPriceUnavailable)
    else Finish(Apply(resolved, Legacy(estimate.gasPrice.value), Automatic, false), Unavailable(GasPriceUnavailable))
  }

  function ResolveAutomaticUnknown(resolved: Transaction, network: Network): Outcome {
    if && resolved.preparedFee.Some? && resolved.preparedFee.value.IsStructurallyValid()
       && resolved.provenance.ContainsUserControlledValueFor(resolved.preparedFee.value)
       && (resolved.preparedFee.value.Legacy? ==> IsValidGasPrice(resolved.preparedFee.value.gasPrice, network))
    then Prepared(resolved)
    else Unavailable(GasPriceUnavailable)
  }

  function ResolveLegacyIntent(
      resolved: Transaction, requestedGasPrice: Option<nat>, network: Network, estimate: Estimate): Outcome
  {
    var source :=
      Known(resolved.provenance.gasPrice, if requestedGasPrice.None? then Automatic else Dapp);
    var baseFee := estimate.BaseFee();
    var followsMarket := !source.IsUserControlled() && estimate.support == Eip1559Market && baseFee.Some?;
    if followsMarket && RecommendedPriority(estimate).None? then Unavailable(GasPriceUnavailable)
    else if followsMarket
            && SuggestedLegacyGasPrice(baseFee.value, RecommendedPriority(estimate).value).None? then
      Unavailable(InvalidTransaction)
    else
      var candidate :=
        if source.IsUserControlled() then resolved.GasPriceValue().Or(requestedGasPrice)
        else if followsMarket then
          SuggestedLegacyGasPrice(baseFee.value, RecommendedPriority(estimate).value)
        else estimate.gasPrice;
      if candidate.None? then Unavailable(GasPriceUnavailable)
      else if estimate.support == Eip1559Market && baseFee.None? then Unavailable(GasPriceUnavailable)
      else if estimate.support == Eip1559Market && source.IsWalletManaged()
              && !IsUInt256(baseFee.value + MINIMUM_PRIORITY_FEE) then Unavailable(InvalidTransaction)
      else if estimate.support == Eip1559Market && source.IsUserControlled() && candidate.value < baseFee.value then
        UnsafeUserFee(resolved)
      else
        var gasPrice :=
          if estimate.support == Eip1559Market && source.IsWalletManaged()
             && candidate.value < baseFee.value + MINIMUM_PRIORITY_FEE
          then baseFee.value + MINIMUM_PRIORITY_FEE else candidate.value;
        if !IsValidGasPrice(gasPrice, network) then
          UnsafeIf(source.IsUserControlled(), resolved, GasPriceUnavailable)
        else Finish(Apply(resolved, Legacy(gasPrice), source, true),
                    UnsafeIf(source.IsUserControlled(), resolved, InvalidTransaction))
  }

  function ResolveDynamicIntent(
      resolved: Transaction, requestedPriority: Option<nat>, requestedMaxFee: Option<nat>, estimate: Estimate): Outcome
  {
    var prioritySource :=
      Known(resolved.provenance.maxPriorityFee, if requestedPriority.None? then Automatic else Dapp);
    var maxFeeSource := Known(resolved.provenance.maxFee, if requestedMaxFee.None? then Automatic else Dapp);
    var priority, maxFee := resolved.MaxPriorityFeeValue(), resolved.MaxFeeValue();
    if estimate.support == Eip1559Market && estimate.BaseFee().Some? then
      ResolveDynamic(resolved, estimate, estimate.BaseFee().value, prioritySource, maxFeeSource,
                     priority, maxFee, InvalidTransaction)
    else if && estimate.support == UnknownMarket
            && prioritySource.IsUserControlled() && maxFeeSource.IsUserControlled()
            && priority.Some? && maxFee.Some?
    then Finish(Apply(resolved, Eip1559(priority.value, maxFee.value), Automatic, true),
                Unavailable(GasPriceUnavailable))
    else Unavailable(GasPriceUnavailable)
  }

  /** Against an unknown market a fee must still cover the base fee the transaction carries. */
  function CheckUnknownBasis(outcome: Outcome, estimate: Estimate): Outcome {
    if outcome.Prepared? && estimate.support == UnknownMarket then
      var resolved := outcome.transaction;
      if && resolved.BasisBaseFee().Some? && resolved.preparedFee.Some?
         && !resolved.preparedFee.value.HasSufficientEffectivePriorityFee(resolved.BasisBaseFee().value)
      then UnsafeIf(resolved.provenance.ContainsUserControlledValueFor(resolved.preparedFee.value),
                    resolved, GasPriceUnavailable)
      else outcome
    else outcome
  }

  function ResolveIntent(resolved: Transaction, network: Network, estimate: Estimate): Outcome {
    match resolved.intent
    case AnyFee =>
      (match estimate.support
       case Eip1559Market => ResolveAutomaticEip1559(resolved, estimate)
       case LegacyMarket => ResolveAutomaticLegacy(resolved, network, estimate)
       case UnknownMarket => ResolveAutomaticUnknown(resolved, network))
    case LegacyFee(gasPrice) => ResolveLegacyIntent(resolved, gasPrice, network, estimate)
    case DynamicFee(priority, maxFee) => ResolveDynamicIntent(resolved, priority, maxFee, estimate)
  }

  function Resolve(transaction: Transaction, network: Network, estimate: Estimate): Outcome {
    var resolved := estimate.ApplyBaseFeeContext(transaction);
    if !transaction.intent.IsStructurallyValid() then Unavailable(InvalidTransaction)
    else if !IsForChain(estimate, network) then Unavailable(GasPriceUnavailable)
    else if resolved.FeeSource() == Slider && resolved.preparedFee.Some? then
      ResolveSlider(resolved, resolved.preparedFee.value, transaction.BasisBaseFee(), estimate)
    else CheckUnknownBasis(ResolveIntent(resolved, network, estimate), estimate)
  }

  // ----- preflight

  datatype PreflightResult =
    | Safe(transaction: Transaction, estimate: Estimate)
    | WalletManagedUpdated(transaction: Transaction, estimate: Estimate)
    | UserControlledUnsafe(transaction: Transaction, estimate: Estimate)
    | FeesUnavailable(transaction: Transaction, estimate: Estimate)

  function UnsafeOr(userControlled: bool, candidate: Transaction, estimate: Estimate): PreflightResult {
    if userControlled then UserControlledUnsafe(candidate, estimate) else FeesUnavailable(candidate, estimate)
  }

  predicate IsSafe(candidate: Transaction, fee: Fee, estimate: Estimate) {
    match estimate.support
    case LegacyMarket => fee.Legacy?
    case Eip1559Market =>
      estimate.BaseFee().Some? && fee.HasSufficientEffectivePriorityFee(estimate.BaseFee().value)
    case UnknownMarket =>
      && candidate.provenance.ContainsUserControlledValueFor(fee)
      && (candidate.BasisBaseFee().Some? ==>
            fee.HasSufficientEffectivePriorityFee(candidate.BasisBaseFee().value))
  }

  datatype Update = Updated(fee: Option<Fee>, provenance: Provenance) | NoUpdate(result: PreflightResult)

  function UpdateLegacy(
      candidate: Transaction, existing: nat, previousBaseFee: Option<nat>, estimate: Estimate, baseFee: nat): Update
  {
    var source := Known(candidate.provenance.gasPrice, candidate.FeeSource());
    var keepsPriority := source == Slider && previousBaseFee.Some? && existing > previousBaseFee.value;
    if !source.IsWalletManaged() then NoUpdate(UserControlledUnsafe(candidate, estimate))
    else if !keepsPriority && RecommendedPriority(estimate).None? then NoUpdate(FeesUnavailable(candidate, estimate))
    else
      var priority :=
        if keepsPriority then existing - previousBaseFee.value else RecommendedPriority(estimate).value;
      var gasPrice :=
        if source == Slider then (if IsUInt256(baseFee + priority) then Some(baseFee + priority) else None)
        else SuggestedLegacyGasPrice(baseFee, priority);
      Updated(if gasPrice.Some? then Some(Legacy(gasPrice.value)) else None, Provenance(Some(source), None, None))
  }

  function UpdateDynamic(
      candidate: Transaction, existingPriority: nat, existingMaxFee: nat, estimate: Estimate, baseFee: nat): Update
  {
    var prioritySource := Known(candidate.provenance.maxPriorityFee, candidate.FeeSource());
    var maxFeeSource := Known(candidate.provenance.maxFee, candidate.FeeSource());
    var prioritySettled := prioritySource.IsUserControlled() || prioritySource == Slider;
    if !prioritySettled && maxFeeSource.IsUserControlled() && existingMaxFee <= baseFee then
      NoUpdate(UserControlledUnsafe(candidate, estimate))
    else if !prioritySettled && RecommendedPriority(estimate).None? then
      NoUpdate(FeesUnavailable(candidate, estimate))
    else
      var priority := if prioritySettled then existingPriority else RecommendedPriority(estimate).value;
      if !maxFeeSource.IsUserControlled() && RecommendedEip1559(baseFee, priority).None? then
        NoUpdate(UnsafeOr(prioritySource.IsUserControlled(), candidate, estimate))
      else
        var maxFee :=
          if maxFeeSource.IsUserControlled() then existingMaxFee
          else RecommendedEip1559(baseFee, priority).value.Cap();
        var fee := Eip1559(priority, maxFee);
        Updated(if fee.HasSufficientEffectivePriorityFee(baseFee) then Some(fee) else None,
                Provenance(None, Some(prioritySource), Some(maxFeeSource)))
  }

  function Preflight(transaction: Transaction, network: Network, estimate: Estimate): PreflightResult {
    var candidate := estimate.ApplyBaseFeeContext(transaction);
    var baseFee := estimate.BaseFee();
    if !IsForChain(estimate, network)
       || candidate.preparedFee.None? || !candidate.preparedFee.value.IsStructurallyValid()
       || candidate.GasLimit().None? || candidate.GasLimit().value == 0
    then FeesUnavailable(candidate, estimate)
    else
      var fee, gasLimit := candidate.preparedFee.value, candidate.GasLimit().value;
      var userControlled := candidate.provenance.ContainsUserControlledValueFor(fee);
      if fee.MaximumNetworkFee(gasLimit).None? then UnsafeOr(userControlled, candidate, estimate)
      else if IsSafe(candidate, fee, estimate) then Safe(candidate, estimate)
      else if estimate.support != Eip1559Market || baseFee.None? then
        UnsafeOr(estimate.support == UnknownMarket && userControlled, candidate, estimate)
      else
        var update :=
          if fee.Legacy? then
            UpdateLegacy(candidate, fee.gasPrice, transaction.BasisBaseFee(), estimate, baseFee.value)
          else UpdateDynamic(candidate, fee.maxPriorityFee, fee.maxFee, estimate, baseFee.value);
        if update.NoUpdate? then update.result
        else if update.fee.None? || !update.fee.value.IsStructurallyValid() then
          UnsafeOr(candidate.provenance.ContainsUserControlledValue(), candidate, estimate)
        else if update.fee.value.MaximumNetworkFee(gasLimit).None? then FeesUnavailable(candidate, estimate)
        else WalletManagedUpdated(
               candidate.(preparedFee := update.fee, provenance := update.provenance), estimate)
  }

  // ----- resolution against a market with a base fee

  /** A fee that covers `baseFee`. */
  predicate Covers(transaction: Transaction, baseFee: nat) {
    && transaction.preparedFee.Some?
    && transaction.preparedFee.value.IsStructurallyValid()
    && IsUInt256(baseFee) && transaction.preparedFee.value.Cap() >= baseFee
  }

  /** The prepared fee, if any, is of the kind the intent asks for. */
  predicate KindMatches(transaction: Transaction) {
    transaction.preparedFee.Some? ==>
      && (transaction.intent.LegacyFee? ==> transaction.preparedFee.value.Legacy?)
      && (transaction.intent.DynamicFee? ==> transaction.preparedFee.value.Eip1559?)
  }

  /** Every component of the prepared fee whose recorded source is the user's has the same value, and the same
      recorded source, in `after`. */
  predicate KeepsUserValues(before: Transaction, after: Transaction) {
    before.preparedFee.Some? ==>
      var fee, recorded := before.preparedFee.value, before.provenance;
      if fee.Legacy? then
        IsUser(recorded.gasPrice) ==>
          after.preparedFee == before.preparedFee && after.provenance.gasPrice == recorded.gasPrice
      else
        && (IsUser(recorded.maxPriorityFee) ==>
              && after.preparedFee.Some? && after.preparedFee.value.Eip1559?
              && after.preparedFee.value.maxPriorityFee == fee.maxPriorityFee
              && after.provenance.maxPriorityFee == recorded.maxPriorityFee)
        && (IsUser(recorded.maxFee) ==>
              && after.preparedFee.Some? && after.preparedFee.value.Eip1559?
              && after.preparedFee.value.maxFee == fee.maxFee
              && after.provenance.maxFee == recorded.maxFee)
  }

  /** A branch of resolution installed a valid fee, changed nothing else, and covers the base fee of its market. */
  predicate Resolves(resolved: Transaction, outcome: Outcome, estimate: Estimate) {
    outcome.Prepared? ==>
      var after := outcome.transaction;
      && after == resolved.(preparedFee := after.preparedFee, provenance := after.provenance)
      && after.preparedFee.Some?
      && (estimate.support == Eip1559Market ==> estimate.BaseFee().Some? && Covers(after, estimate.BaseFee().value))
      && (IsRecorded(resolved) ==> IsRecorded(after))
      && (KindMatches(resolved) ==> KindMatches(after))
  }

  /** The recorded sources are those of the prepared fee's components, all of them and no others. */
  predicate IsRecorded(transaction: Transaction) {
    transaction.preparedFee.Some? ==>
      var recorded := transaction.provenance;
      if transaction.preparedFee.value.Legacy? then
        recorded.gasPrice.Some? && recorded.maxPriorityFee.None? && recorded.maxFee.None?
      else recorded.gasPrice.None? && recorded.maxPriorityFee.Some? && recorded.maxFee.Some?
  }

  lemma SliderResolves(resolved: Transaction, fee: Fee, previousBaseFee: Option<nat>, estimate: Estimate)
    requires resolved.preparedFee == Some(fee)
    ensures Resolves(resolved, ResolveSlider(resolved, fee, previousBaseFee, estimate), estimate)
  {
  }

  lemma DynamicResolves(
      resolved: Transaction, estimate: Estimate, baseFee: nat, prioritySource: Source, maxFeeSource: Source,
      existingPriority: Option<nat>, existingMaxFee: Option<nat>, failure: PreparationFailure)
    requires estimate.BaseFee() == Some(baseFee) && !resolved.intent.LegacyFee?
    ensures Resolves(resolved, ResolveDynamic(resolved, estimate, baseFee, prioritySource, maxFeeSource,
                                              existingPriority, existingMaxFee, failure), estimate)
  {
  }

  lemma LegacyIntentResolves(
      resolved: Transaction, requestedGasPrice: Option<nat>, network: Network, estimate: Estimate)
    requires resolved.intent.LegacyFee?
    ensures Resolves(resolved, ResolveLegacyIntent(resolved, requestedGasPrice, network, estimate), estimate)
  {
  }

  lemma IntentResolves(resolved: Transaction, network: Network, estimate: Estimate)
    ensures Resolves(resolved, ResolveIntent(resolved, network, estimate), estimate)
  {
    match resolved.intent
    case LegacyFee(gasPrice) =>
      LegacyIntentResolves(resolved, gasPrice, network, estimate);
    case DynamicFee(priority, maxFee) =>
      if estimate.BaseFee().Some? {
        DynamicResolves(resolved, estimate, estimate.BaseFee().value,
                        Known(resolved.provenance.maxPriorityFee, if priority.None? then Automatic else Dapp),
                        Known(resolved.provenance.maxFee, if maxFee.None? then Automatic else Dapp),
                        resolved.MaxPriorityFeeValue(), resolved.MaxFeeValue(), InvalidTransaction);
      }
    case AnyFee =>
      if estimate.BaseFee().Some? {
        DynamicResolves(resolved, estimate, estimate.BaseFee().value,
                        Known(resolved.provenance.maxPriorityFee, Automatic),
                        Known(resolved.provenance.maxFee, Automatic),
                        resolved.MaxPriorityFeeValue(), resolved.MaxFeeValue(), GasPriceUnavailable);
      }
  }

  lemma ResolutionResolves(transaction: Transaction, network: Network, estimate: Estimate)
    ensures Resolves(estimate.ApplyBaseFeeContext(transaction), Resolve(transaction, network, estimate), estimate)
  {
    var resolved := estimate.ApplyBaseFeeContext(transaction);
    IntentResolves(resolved, network, estimate);
    if resolved.preparedFee.Some? {
      SliderResolves(resolved, resolved.preparedFee.value, transaction.BasisBaseFee(), estimate);
    }
  }

  lemma ResolvedFeeCoversBaseFee(transaction: Transaction, network: Network, estimate: Estimate)
    requires estimate.support == Eip1559Market
    requires Resolve(transaction, network, estimate).Prepared?
    ensures estimate.BaseFee().Some?
    ensures Covers(Resolve(transaction, network, estimate).transaction, estimate.BaseFee().value)
  {
    ResolutionResolves(transaction, network, estimate);
  }

  /** Resolution changes nothing but the fee and the base-fee context, which it takes from the estimate. */
  lemma ResolutionChangesOnlyTheFee(transaction: Transaction, network: Network, estimate: Estimate)
    requires Resolve(transaction, network, estimate).Prepared?
    ensures Resolve(transaction, network, estimate).transaction.SameButFee(transaction)
    ensures estimate.ApplyBaseFeeContext(Resolve(transaction, network, estimate).transaction)
         == Resolve(transaction, network, estimate).transaction
  {
    ResolutionResolves(transaction, network, estimate);
  }

  /** Whatever the market, the values of the user's stay exactly unless a market known to have no base fee meets an
      EIP-1559 fee with a component of the user's, and the intent leaves the kind of fee open. */
  lemma {:induction false} UserValuesAreKeptExactly(transaction: Transaction, network: Network, estimate: Estimate)
    requires KindMatches(transaction)
    requires Resolve(transaction, network, estimate).Prepared?
    ensures KeepsUserValues(transaction, Resolve(transaction, network, estimate).transaction)
       <==> !(&& estimate.support == LegacyMarket && transaction.intent.AnyFee?
              && transaction.preparedFee.Some? && transaction.preparedFee.value.Eip1559?
              && (IsUser(transaction.provenance.maxPriorityFee) || IsUser(transaction.provenance.maxFee)))
  {
  }

  // ----- resolving again

  /** Every fee component the intent asks for has a recorded source. */
  predicate SourcesRecorded(transaction: Transaction) {
    transaction.intent.DynamicFee? ==>
      && (transaction.intent.maxPriorityFee.Some? ==> transaction.provenance.maxPriorityFee.Some?)
      && (transaction.intent.maxFee.Some? ==> transaction.provenance.maxFee.Some?)
  }

  /** Resolving a transaction that carries the estimate's base fee already. */
  function ResolveAgain(transaction: Transaction, network: Network, estimate: Estimate): Outcome {
    if transaction.FeeSource() == Slider && transaction.preparedFee.Some? then
      ResolveSlider(transaction, transaction.preparedFee.value, estimate.BaseFee(), estimate)
    else ResolveIntent(transaction, network, estimate)
  }

  lemma SliderAgain(
      resolved: Transaction, fee: Fee, previousBaseFee: Option<nat>, network: Network, estimate: Estimate)
    requires estimate.support != UnknownMarket
    requires resolved.preparedFee == Some(fee) && resolved.FeeSource() == Slider
    requires ResolveSlider(resolved, fee, previousBaseFee, estimate).Prepared?
    ensures var outcome := ResolveSlider(resolved, fee, previousBaseFee, estimate);
      ResolveAgain(outcome.transaction, network, estimate) == outcome
  {
  }

  lemma DynamicAgain(
      resolved: Transaction, estimate: Estimate, baseFee: nat, prioritySource: Source, maxFeeSource: Source,
      existingPriority: Option<nat>, existingMaxFee: Option<nat>, failure: PreparationFailure)
    requires estimate.BaseFee() == Some(baseFee)
    requires prioritySource == Known(resolved.provenance.maxPriorityFee, Automatic)
    requires maxFeeSource == Known(resolved.provenance.maxFee, Automatic)
    requires ResolveDynamic(resolved, estimate, baseFee, prioritySource, maxFeeSource,
                            existingPriority, existingMaxFee, failure).Prepared?
    ensures var outcome := ResolveDynamic(resolved, estimate, baseFee, prioritySource, maxFeeSource,
                                          existingPriority, existingMaxFee, failure);
      var after := outcome.transaction;
      && after.preparedFee.Some? && after.preparedFee.value.Eip1559?
      && after == resolved.(preparedFee := after.preparedFee,
                            provenance := Provenance(None, Some(prioritySource), Some(maxFeeSource)))
      && ResolveDynamic(after, estimate, baseFee, prioritySource, maxFeeSource,
                        after.MaxPriorityFeeValue(), after.MaxFeeValue(), failure) == outcome
      && (after.FeeSource() == Slider ==>
            ResolveSlider(after, after.preparedFee.value, Some(baseFee), estimate) == outcome)
  {
  }

  lemma AutomaticAgain(resolved: Transaction, network: Network, estimate: Estimate)
    requires estimate.support != UnknownMarket && resolved.intent.AnyFee?
    requires ResolveIntent(resolved, network, estimate).Prepared?
    requires !(resolved.FeeSource() == Slider && resolved.preparedFee.Some?)
    ensures var outcome := ResolveIntent(resolved, network, estimate);
      ResolveAgain(outcome.transaction, network, estimate) == outcome
  {
    var recorded := resolved.provenance;
    if estimate.support == Eip1559Market && !(resolved.GasPriceValue().Some? && IsUser(recorded.gasPrice)) {
      DynamicAgain(resolved, estimate, estimate.BaseFee().value,
                   Known(recorded.maxPriorityFee, Automatic), Known(recorded.maxFee, Automatic),
                   resolved.MaxPriorityFeeValue(), resolved.MaxFeeValue(), GasPriceUnavailable);
    }
  }

  lemma LegacyIntentAgain(resolved: Transaction, network: Network, estimate: Estimate)
    requires estimate.support != UnknownMarket && resolved.intent.LegacyFee?
    requires ResolveIntent(resolved, network, estimate).Prepared?
    ensures var outcome := ResolveIntent(resolved, network, estimate);
      ResolveAgain(outcome.transaction, network, estimate) == outcome
  {
  }

  lemma DynamicIntentAgain(resolved: Transaction, network: Network, estimate: Estimate)
    requires estimate.support != UnknownMarket && resolved.intent.DynamicFee?
    requires SourcesRecorded(resolved)
    requires ResolveIntent(resolved, network, estimate).Prepared?
    ensures var outcome := ResolveIntent(resolved, network, estimate);
      ResolveAgain(outcome.transaction, network, estimate) == outcome
  {
    var recorded := resolved.provenance;
    DynamicAgain(resolved, estimate, estimate.BaseFee().value,
                 Known(recorded.maxPriorityFee, Automatic), Known(recorded.maxFee, Automatic),
                 resolved.MaxPriorityFeeValue(), resolved.MaxFeeValue(), InvalidTransaction);
  }

  /** An EIP-1559 fee that the wallet would choose again as far as it is the wallet's: the slider's priority fee with
      the recommended cap, or the recommended values where the source is automatic, below a cap of the user's. */
  predicate IsSettled(transaction: Transaction, estimate: Estimate)
    requires transaction.preparedFee.Some? && transaction.preparedFee.value.Eip1559? && estimate.BaseFee().Some?
  {
    var fee, baseFee := transaction.preparedFee.value, estimate.BaseFee().value;
    var recommended := RecommendedEip1559(baseFee, fee.maxPriorityFee) == Some(fee);
    if transaction.FeeSource() == Slider then recommended
    else
      && (transaction.provenance.maxPriorityFee == Some(Automatic) ==>
            && RecommendedPriority(estimate) == Some(fee.maxPriorityFee)
            && (IsUser(transaction.provenance.maxFee) ==> fee.maxFee > baseFee))
      && (!IsUser(transaction.provenance.maxFee) ==> recommended)
  }

  /** A covered EIP-1559 fee with recorded sources is resolved to itself exactly if it is settled. */
  lemma {:induction false} SettledStays(transaction: Transaction, network: Network, estimate: Estimate)
    requires estimate.support == Eip1559Market && estimate.BaseFee().Some? && transaction.intent.DynamicFee?
    requires Covers(transaction, estimate.BaseFee().value) && transaction.preparedFee.value.Eip1559?
    requires transaction.provenance.gasPrice.None?
    requires transaction.provenance.maxPriorityFee.Some? && transaction.provenance.maxFee.Some?
    ensures ResolveAgain(transaction, network, estimate) == Prepared(transaction) <==> IsSettled(transaction, estimate)
  {
    hide IsForChain, IsValidGasPrice, Intent.IsStructurallyValid, SuggestedLegacyGasPrice;
    hide ResolveAutomaticEip1559, ResolveAutomaticLegacy, ResolveLegacyIntent, ResolveAutomaticUnknown;
  }

  predicate IsSliders(transaction: Transaction) {
    transaction.FeeSource() == Slider && transaction.preparedFee.Some?
  }

  /** Where the market is unknown: what is resolved again has to be the slider's, or have its sources recorded and not
      be a requested gas price that passes for the slider's. */
  predicate StaysUnknown(transaction: Transaction) {
    || IsSliders(transaction)
    || (SourcesRecorded(transaction)
        && (transaction.intent.LegacyFee? ==> transaction.provenance.gasPrice != Some(Slider)))
  }

  lemma {:induction false} UnknownAgain(transaction: Transaction, network: Network, estimate: Estimate)
    requires estimate.support == UnknownMarket
    requires Resolve(transaction, network, estimate).Prepared?
    ensures var once := Resolve(transaction, network, estimate);
      Resolve(once.transaction, network, estimate) == once <==> StaysUnknown(transaction)
  {
    hide StaysUnknown, ResolveSlider, ResolveIntent, CheckUnknownBasis, SourcesRecorded;
    if IsSliders(estimate.ApplyBaseFeeContext(transaction)) {
      UnknownSliderAgain(transaction, network, estimate);
    } else {
      if transaction.intent.AnyFee? {
        UnknownAnyAgain(transaction, network, estimate);
      } else if transaction.intent.LegacyFee? {
        UnknownLegacyAgain(transaction, network, estimate);
      } else {
        UnknownDynamicAgain(transaction, network, estimate);
      }
    }
  }

  lemma {:induction false} UnknownAnyAgain(transaction: Transaction, network: Network, estimate: Estimate)
    requires estimate.support == UnknownMarket && transaction.intent.AnyFee?
    requires !IsSliders(estimate.ApplyBaseFeeContext(transaction))
    requires Resolve(transaction, network, estimate).Prepared?
    ensures var once := Resolve(transaction, network, estimate);
      Resolve(once.transaction, network, estimate) == once
    ensures StaysUnknown(transaction)
  {
    hide IsForChain, IsValidGasPrice, Fee.HasSufficientEffectivePriorityFee, ResolveSlider, ResolveDynamicIntent;
    hide ResolveLegacyIntent;
  }

  lemma {:induction false} UnknownSliderAgain(transaction: Transaction, network: Network, estimate: Estimate)
    requires estimate.support == UnknownMarket && IsSliders(estimate.ApplyBaseFeeContext(transaction))
    requires Resolve(transaction, network, estimate).Prepared?
    ensures var once := Resolve(transaction, network, estimate);
      Resolve(once.transaction, network, estimate) == once
    ensures StaysUnknown(transaction)
  {
    hide IsForChain, IsValidGasPrice, Fee.EffectivePriorityFee, Intent.IsStructurallyValid, ResolveIntent;
  }

  lemma {:induction false} UnknownLegacyAgain(transaction: Transaction, network: Network, estimate: Estimate)
    requires estimate.support == UnknownMarket && transaction.intent.LegacyFee?
    requires !IsSliders(estimate.ApplyBaseFeeContext(transaction))
    requires Resolve(transaction, network, estimate).Prepared?
    ensures var once := Resolve(transaction, network, estimate);
      Resolve(once.transaction, network, estimate) == once <==> StaysUnknown(transaction)
  {
    hide IsForChain, IsValidGasPrice, Fee.HasSufficientEffectivePriorityFee, Fee.IsStructurallyValid, IsUInt256;
    hide SuggestedLegacyGasPrice, ResolveSlider, ResolveDynamicIntent, ResolveAutomaticUnknown;
    hide Intent.IsStructurallyValid, Provenance.ContainsUserControlledValueFor;
    UnknownSliderPrice(estimate);
  }

  lemma {:induction false} UnknownDynamicAgain(transaction: Transaction, network: Network, estimate: Estimate)
    requires estimate.support == UnknownMarket && transaction.intent.DynamicFee?
    requires !IsSliders(estimate.ApplyBaseFeeContext(transaction))
    requires Resolve(transaction, network, estimate).Prepared?
    ensures var once := Resolve(transaction, network, estimate);
      Resolve(once.transaction, network, estimate) == once <==> StaysUnknown(transaction)
  {
    hide IsForChain, IsValidGasPrice, Fee.HasSufficientEffectivePriorityFee, Fee.IsStructurallyValid, IsUInt256;
    hide ResolveSlider, ResolveLegacyIntent, ResolveAutomaticUnknown, ResolveDynamic;
    hide Intent.IsStructurallyValid, Provenance.ContainsUserControlledValueFor;
  }

  lemma {:induction false} UnknownSliderPrice(estimate: Estimate)
    requires estimate.support == UnknownMarket
    ensures forall resolved, gasPrice, previousBaseFee ::
      ResolveSlider(resolved, Legacy(gasPrice), previousBaseFee, estimate) == Unavailable(InvalidTransaction)
  {
  }

  lemma {:induction false} SliderSettles(transaction: Transaction, network: Network, estimate: Estimate)
    requires estimate.support != UnknownMarket && IsSliders(transaction)
    requires Resolve(transaction, network, estimate).Prepared?
    ensures var once := Resolve(transaction, network, estimate);
      Resolve(once.transaction, network, estimate) == once
  {
    var resolved := estimate.ApplyBaseFeeContext(transaction);
    var after := Resolve(transaction, network, estimate).transaction;
    ResolutionResolves(transaction, network, estimate);
    SliderAgain(resolved, resolved.preparedFee.value, transaction.BasisBaseFee(), network, estimate);
    assert Resolve(after, network, estimate) == ResolveAgain(after, network, estimate);
  }

  lemma {:induction false} DynamicSettles(transaction: Transaction, network: Network, estimate: Estimate)
    requires estimate.support == Eip1559Market && transaction.intent.DynamicFee? && !IsSliders(transaction)
    requires Resolve(transaction, network, estimate).Prepared?
    ensures var once := Resolve(transaction, network, estimate);
      && once.transaction.preparedFee.Some? && once.transaction.preparedFee.value.Eip1559? && estimate.BaseFee().Some?
      && (Resolve(once.transaction, network, estimate) == once <==> IsSettled(once.transaction, estimate))
  {
    hide IsSettled, ResolveSlider, ResolveIntent, Fee.EffectivePriorityFee, IsUInt256;
    var after := Resolve(transaction, network, estimate).transaction;
    ResolutionResolves(transaction, network, estimate);
    DynamicOutcome(transaction, network, estimate);
    SettledStays(after, network, estimate);
    assert Resolve(after, network, estimate) == ResolveAgain(after, network, estimate);
  }

  /** A component that is asked for without a recorded source: taken for the requester's once, then for the wallet's. */
  predicate IsGuessed(requested: Option<nat>, source: Option<Source>) {
    requested.Some? && source.None?
  }

  predicate PriorityIsKept(transaction: Transaction)
    requires transaction.intent.DynamicFee?
  {
    var source := transaction.provenance.maxPriorityFee;
    IsGuessed(transaction.intent.maxPriorityFee, source) || IsUser(source) || source == Some(Slider)
  }

  /** The priority fee that resolution will prepare. */
  function PriorityToBe(transaction: Transaction, estimate: Estimate): Option<nat>
    requires transaction.intent.DynamicFee?
  {
    if PriorityIsKept(transaction) then transaction.MaxPriorityFeeValue() else RecommendedPriority(estimate)
  }

  /** Every guessed component is what the wallet would recommend in its place: the priority fee the estimate's, below a
      cap of the user's, and the cap the one recommended for the priority fee. */
  predicate GuessesRight(transaction: Transaction, estimate: Estimate)
    requires transaction.intent.DynamicFee?
  {
    var recorded, priority := transaction.provenance, PriorityToBe(transaction, estimate);
    var cap, baseFee := transaction.MaxFeeValue(), estimate.BaseFee();
    && (IsGuessed(transaction.intent.maxPriorityFee, recorded.maxPriorityFee) && recorded.maxFee != Some(Slider) ==>
          && RecommendedPriority(estimate) == priority
          && (IsUser(recorded.maxFee) ==> cap.Some? && baseFee.Some? && cap.value > baseFee.value))
    && (IsGuessed(transaction.intent.maxFee, recorded.maxFee) ==>
          && priority.Some? && cap.Some? && baseFee.Some?
          && RecommendedEip1559(baseFee.value, priority.value) == Some(Eip1559(priority.value, cap.value)))
  }

  /** What the resolution of a dynamic intent comes to, when it succeeds. */
  lemma {:induction false} DynamicOutcome(transaction: Transaction, network: Network, estimate: Estimate)
    requires estimate.support == Eip1559Market && transaction.intent.DynamicFee? && !IsSliders(transaction)
    requires Resolve(transaction, network, estimate).Prepared?
    ensures var after := Resolve(transaction, network, estimate).transaction;
      var priority := PriorityToBe(transaction, estimate);
      var recorded, cap := transaction.provenance, transaction.MaxFeeValue();
      var capIsKept := IsUser(recorded.maxFee) || IsGuessed(transaction.intent.maxFee, recorded.maxFee);
      && estimate.BaseFee().Some? && priority.Some? && (capIsKept ==> cap.Some?)
      && (!capIsKept ==> RecommendedEip1559(estimate.BaseFee().value, priority.value).Some?)
      && (capIsKept && !PriorityIsKept(transaction) ==> cap.value > estimate.BaseFee().value)
      && after.preparedFee == (if capIsKept then Some(Eip1559(priority.value, cap.value))
                               else RecommendedEip1559(estimate.BaseFee().value, priority.value))
      && after.provenance == Provenance(None, recorded.maxPriorityFee.Or(Some(Automatic)),
                                        recorded.maxFee.Or(Some(Automatic)))
  {
    hide Fee.EffectivePriorityFee, Fee.IsStructurallyValid, IsUInt256, IsForChain, Intent.IsStructurallyValid;
    hide ResolveSlider;
  }

  lemma {:induction false} SettledMeansGuessedRight(transaction: Transaction, network: Network, estimate: Estimate)
    requires estimate.support == Eip1559Market && transaction.intent.DynamicFee? && !IsSliders(transaction)
    requires Resolve(transaction, network, estimate).Prepared?
    ensures var after := Resolve(transaction, network, estimate).transaction;
      && after.preparedFee.Some? && after.preparedFee.value.Eip1559? && estimate.BaseFee().Some?
      && (IsSettled(after, estimate) <==> GuessesRight(transaction, estimate))
  {
    hide Resolve, IsUInt256, Transaction.MaxPriorityFeeValue, Transaction.MaxFeeValue, IsSliders;
    DynamicOutcome(transaction, network, estimate);
  }

  /** Where every requested component has a recorded source, resolving again changes nothing. */
  lemma {:induction false} ResolutionIsIdempotent(transaction: Transaction, network: Network, estimate: Estimate)
    requires SourcesRecorded(transaction) && (estimate.support == UnknownMarket ==> StaysUnknown(transaction))
    requires Resolve(transaction, network, estimate).Prepared?
    ensures Resolve(Resolve(transaction, network, estimate).transaction, network, estimate)
         == Resolve(transaction, network, estimate)
  {
    var resolved := estimate.ApplyBaseFeeContext(transaction);
    var after := Resolve(transaction, network, estimate).transaction;
    if estimate.support == UnknownMarket {
      UnknownAgain(transaction, network, estimate);
      return;
    }
    ResolutionResolves(transaction, network, estimate);
    if IsSliders(resolved) {
      SliderAgain(resolved, resolved.preparedFee.value, transaction.BasisBaseFee(), network, estimate);
    } else if resolved.intent.AnyFee? {
      AutomaticAgain(resolved, network, estimate);
    } else if resolved.intent.LegacyFee? {
      LegacyIntentAgain(resolved, network, estimate);
    } else {
      DynamicIntentAgain(resolved, network, estimate);
    }
    assert Resolve(after, network, estimate) == ResolveAgain(after, network, estimate);
  }

  /** What makes a resolution final, in each market. */
  predicate IsFinal(transaction: Transaction, estimate: Estimate) {
    match estimate.support
    case LegacyMarket => true
    case UnknownMarket => StaysUnknown(transaction)
    case Eip1559Market =>
      transaction.intent.DynamicFee? ==> IsSliders(transaction) || GuessesRight(transaction, estimate)
  }

  /** Recorded or not: whether resolving again changes anything can be told before resolving at all. */
  lemma {:induction false} ResolutionIsIdempotentExactly(transaction: Transaction, network: Network,
                                                         estimate: Estimate)
    requires Resolve(transaction, network, estimate).Prepared?
    ensures var once := Resolve(transaction, network, estimate);
      Resolve(once.transaction, network, estimate) == once <==> IsFinal(transaction, estimate)
  {
    hide Resolve, IsSettled, StaysUnknown, GuessesRight, IsSliders, SourcesRecorded;
    if estimate.support == UnknownMarket {
      UnknownAgain(transaction, network, estimate);
    } else if IsSliders(transaction) {
      SliderSettles(transaction, network, estimate);
    } else if transaction.intent.DynamicFee? {
      DynamicNeedsAMarket(transaction, network, estimate);
      DynamicSettles(transaction, network, estimate);
      SettledMeansGuessedRight(transaction, network, estimate);
    } else {
      OthersAreRecorded(transaction);
      ResolutionIsIdempotent(transaction, network, estimate);
    }
  }

  lemma {:induction false} OthersAreRecorded(transaction: Transaction)
    requires !transaction.intent.DynamicFee?
    ensures SourcesRecorded(transaction)
  {
  }

  lemma {:induction false} DynamicNeedsAMarket(transaction: Transaction, network: Network, estimate: Estimate)
    requires transaction.intent.DynamicFee? && !IsSliders(transaction)
    requires Resolve(transaction, network, estimate).Prepared?
    ensures estimate.support != LegacyMarket
  {
    hide ResolveDynamic, ResolveSlider;
  }

  /** The two procedures agree: any ready transaction that carries the resolved fee, whatever nonce, gas limit and
      interpretation have arrived since, passes the preflight with the same estimate as it is. Only where the market is
      unknown does that take a component of the user's. */
  lemma {:induction false} PreflightOfPreparedIsSafe(transaction: Transaction, prepared: Transaction, network: Network,
                                                     estimate: Estimate)
    requires estimate.IsWellFormed()
    requires Resolve(transaction, network, estimate).Prepared?
    requires var resolved := Resolve(transaction, network, estimate).transaction;
      && prepared.preparedFee == resolved.preparedFee && prepared.provenance == resolved.provenance
      && prepared.currentBaseFee == resolved.currentBaseFee && prepared.nextBaseFee == resolved.nextBaseFee
    requires prepared.IsReadyForApproval(network)
    ensures Preflight(prepared, network, estimate) == Safe(prepared, estimate)
       <==> (estimate.support == UnknownMarket ==>
               prepared.provenance.ContainsUserControlledValueFor(prepared.preparedFee.value))
  {
    ResolutionResolves(transaction, network, estimate);
  }

  /** Against a market with a base fee, the preflight lets through exactly the valid fees that cover it, given a gas
      limit that is affordable in 256 bits, and an estimate for the network's own chain. */
  lemma {:induction false} PreflightIsSafeExactly(transaction: Transaction, network: Network, estimate: Estimate)
    requires estimate.support == Eip1559Market && estimate.IsWellFormed()
    ensures Preflight(transaction, network, estimate).Safe? <==>
      && IsForChain(estimate, network) && estimate.BaseFee().Some?
      && Covers(transaction, estimate.BaseFee().value)
      && transaction.GasLimit().Some? && transaction.GasLimit().value != 0
      && transaction.preparedFee.value.MaximumNetworkFee(transaction.GasLimit().value).Some?
  {
  }

  lemma UpdatedFeeIsSafe(transaction: Transaction, network: Network, estimate: Estimate)
    ensures var result := Preflight(transaction, network, estimate); var after := result.transaction;
      result.WalletManagedUpdated? ==>
        && after.SameButFee(transaction)
        && after.preparedFee != transaction.preparedFee
        && estimate.BaseFee().Some? && Covers(after, estimate.BaseFee().value)
        && KeepsUserValues(transaction, after)
        && Preflight(after, network, estimate) == Safe(after, estimate)
  {
  }

  predicate IsAutomatic(source: Option<Source>) {
    source.None? || source.value == Automatic
  }

  /** Where the user has left the fee to the wallet, resolution installs the very fee the wallet suggests, and fails
      exactly where it has none to suggest. */
  lemma {:induction false} ResolutionAdoptsTheSuggestion(transaction: Transaction, network: Network, estimate: Estimate)
    requires transaction.intent.AnyFee? && estimate.support != UnknownMarket && IsForChain(estimate, network)
    requires IsAutomatic(transaction.provenance.gasPrice)
    requires IsAutomatic(transaction.provenance.maxPriorityFee) && IsAutomatic(transaction.provenance.maxFee)
    ensures var outcome, suggestion := Resolve(transaction, network, estimate), estimate.SuggestedFee(AnyFee);
      if suggestion.Some? then outcome.Prepared? && outcome.transaction.preparedFee == suggestion
      else outcome == Unavailable(GasPriceUnavailable)
  {
  }

  /** The wallet has not taken the component over. */
  predicate IsTheRequesters(source: Option<Source>) {
    source.None? || source.value.IsUserControlled()
  }

  predicate IsKept(requested: Option<nat>, source: Option<Source>, value: nat) {
    requested.Some? && IsTheRequesters(source) ==> requested.value == value
  }

  /** Where nothing is prepared yet, every component the request asks for, and the wallet has not taken over, is the one
      that is prepared. */
  lemma {:induction false} RequestedValuesAreKept(transaction: Transaction, network: Network, estimate: Estimate)
    requires transaction.preparedFee.None?
    requires Resolve(transaction, network, estimate).Prepared?
    ensures var fee := Resolve(transaction, network, estimate).transaction.preparedFee;
      var recorded := transaction.provenance;
      match transaction.intent
      case AnyFee => fee.Some?
      case LegacyFee(gasPrice) =>
        fee.Some? && fee.value.Legacy? && IsKept(gasPrice, recorded.gasPrice, fee.value.gasPrice)
      case DynamicFee(priority, maxFee) =>
        && fee.Some? && fee.value.Eip1559?
        && IsKept(priority, recorded.maxPriorityFee, fee.value.maxPriorityFee)
        && IsKept(maxFee, recorded.maxFee, fee.value.maxFee)
  {
    hide IsForChain, IsValidGasPrice, Intent.IsStructurallyValid, SuggestedLegacyGasPrice;
    hide Fee.EffectivePriorityFee, Provenance.From;
  }
}
