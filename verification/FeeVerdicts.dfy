/** What the two decision procedures on fees decide: which fee for every market and every intent, and who is to blame
    when there is none. */
module FeeVerdicts {
  import opened Wrappers
  import opened Quantities
  import opened Fees
  import opened FeeResolution

  // ----- the base-fee context, and the source of a fee

  /** The transaction gets the base fee of the estimate: the next block's before the current one's, and none where there
      are none. Where that is unknown it keeps the one it has, unless the estimate has one. */
  lemma {:induction false} ContextIsTheEstimates(transaction: Transaction, estimate: Estimate)
    ensures var after := estimate.ApplyBaseFeeContext(transaction);
      && after.SameButBaseFees(transaction)
      && (estimate.nextBaseFee.Some? ==> estimate.BaseFee() == estimate.nextBaseFee)
      && (estimate.nextBaseFee.None? ==> estimate.BaseFee() == estimate.currentBaseFee)
      && (estimate.support == Eip1559Market ==>
            && after.BasisBaseFee() == estimate.BaseFee() && after.nextBaseFee == estimate.nextBaseFee
            && (estimate.currentBaseFee.Some? ==> after.currentBaseFee == estimate.currentBaseFee))
      && (estimate.support == LegacyMarket ==> after.BasisBaseFee().None?)
      && (estimate.support == UnknownMarket ==>
            after.BasisBaseFee()
            == if estimate.BaseFee().Some? then estimate.BaseFee() else transaction.BasisBaseFee())
  {
  }

  /** Manual before the dapp's, the dapp's before the slider's, the slider's before the wallet's own. */
  function Strength(source: Source): nat {
    match source
    case Automatic => 0
    case Slider => 1
    case Dapp => 2
    case Manual => 3
  }

  predicate IsStrongest(source: Source, recorded: set<Option<Source>>) {
    && (source == Automatic || Some(source) in recorded)
    && forall other :: other in recorded && other.Some? ==> Strength(other.value) <= Strength(source)
  }

  /** The source of a fee is the strongest recorded for one of its components. */
  lemma {:induction false} SourceIsTheStrongest(transaction: Transaction)
    ensures var recorded := transaction.provenance;
      IsStrongest(transaction.FeeSource(),
                  if transaction.preparedFee.None? then {recorded.gasPrice, recorded.maxPriorityFee, recorded.maxFee}
                  else if transaction.preparedFee.value.Legacy? then {recorded.gasPrice}
                  else {recorded.maxPriorityFee, recorded.maxFee})
  {
  }

  // ----- who has chosen a component

  function PrioritySource(transaction: Transaction): Source {
    var isRequested := transaction.intent.DynamicFee? && transaction.intent.maxPriorityFee.Some?;
    Known(transaction.provenance.maxPriorityFee, if isRequested then Dapp else Automatic)
  }

  function CapSource(transaction: Transaction): Source {
    var isRequested := transaction.intent.DynamicFee? && transaction.intent.maxFee.Some?;
    Known(transaction.provenance.maxFee, if isRequested then Dapp else Automatic)
  }

  function PriceSource(transaction: Transaction): Source {
    var isRequested := transaction.intent.LegacyFee? && transaction.intent.gasPrice.Some?;
    Known(transaction.provenance.gasPrice, if isRequested then Dapp else Automatic)
  }

  /** The user has chosen it, directly or with the slider. */
  predicate IsChosen(source: Source) {
    source != Automatic
  }

  // ----- markets with a base fee

  /** An estimate of the network's own chain, for an intent that makes sense, with a base fee. */
  predicate IsQuoted(transaction: Transaction, network: Network, estimate: Estimate) {
    && transaction.intent.IsStructurallyValid() && IsForChain(estimate, network)
    && estimate.support == Eip1559Market && estimate.BaseFee().Some? && IsUInt256(estimate.BaseFee().value)
  }

  /** The priority fee to be paid: the one that was chosen, or the one recommended. */
  function PriorityToPay(transaction: Transaction, estimate: Estimate): Option<nat> {
    if IsChosen(PrioritySource(transaction)) then transaction.MaxPriorityFeeValue() else RecommendedPriority(estimate)
  }

  /** The wallet can name a cap that lasts while the base fee doubles. */
  predicate HasCap(baseFee: nat, priority: nat) {
    priority >= 1 && IsUInt256(2 * baseFee + priority)
  }

  /** The user's cap covers the base fee and the priority fee; a recommended priority fee must not come to nothing. */
  predicate CapSuffices(cap: nat, baseFee: nat, priority: nat, isChosen: bool) {
    IsUInt256(cap) && cap >= priority && cap >= baseFee && (!isChosen ==> cap > baseFee)
  }

  /** What is asked for: who has chosen the priority fee and the cap, the cap there is, and the priority fee to pay. */
  datatype Wish = Wish(prioritySource: Source, capSource: Source, cap: Option<nat>, priority: Option<nat>) {
    predicate CanBeMet(baseFee: nat) {
      && priority.Some?
      && (if capSource.IsUserControlled()
          then cap.Some? && CapSuffices(cap.value, baseFee, priority.value, IsChosen(prioritySource))
          else HasCap(baseFee, priority.value))
    }

    /** It pays the priority fee; its cap is the user's, or lasts while the base fee doubles. */
    function Fee(baseFee: nat): Fee
      requires CanBeMet(baseFee)
    {
      Eip1559(priority.value, if capSource.IsUserControlled() then cap.value else 2 * baseFee + priority.value)
    }

    /** A component of the user's stands in the way. */
    predicate BlamesTheUser(baseFee: nat) {
      if priority.None? then
        IsChosen(prioritySource) || (capSource.IsUserControlled() && cap.Some? && cap.value <= baseFee)
      else capSource.IsUserControlled() || prioritySource.IsUserControlled()
    }
  }

  /** The outcome is the fee wished for, exactly if there is one; if not, it blames the user exactly where a component
      of the user's stands in the way. */
  predicate MeetsExactly(wish: Wish, outcome: Outcome, before: Transaction, baseFee: nat, failure: PreparationFailure) {
    if wish.CanBeMet(baseFee) then
      var recorded := before.provenance;
      outcome == Prepared(before.(
        preparedFee := Some(wish.Fee(baseFee)),
        provenance := Provenance(None, recorded.maxPriorityFee.Or(Some(Automatic)),
                                 recorded.maxFee.Or(Some(Automatic)))))
    else if wish.BlamesTheUser(baseFee) then outcome == UnsafeUserFee(before)
    else outcome == Unavailable(if wish.priority.None? then GasPriceUnavailable else failure)
  }

  lemma {:induction false} DynamicIsDecided(
      resolved: Transaction, estimate: Estimate, baseFee: nat, prioritySource: Source, capSource: Source,
      priority: Option<nat>, cap: Option<nat>, failure: PreparationFailure)
    requires IsUInt256(baseFee)
    ensures var wish := Wish(prioritySource, capSource, cap,
                             if IsChosen(prioritySource) then priority else RecommendedPriority(estimate));
      MeetsExactly(wish, ResolveDynamic(resolved, estimate, baseFee, prioritySource, capSource, priority, cap, failure),
                   resolved, baseFee, failure)
  {
  }

  function WishOf(transaction: Transaction, estimate: Estimate): Wish {
    Wish(PrioritySource(transaction), CapSource(transaction), transaction.MaxFeeValue(),
         PriorityToPay(transaction, estimate))
  }

  /** An EIP-1559 fee is to be resolved: asked for, or not asked about and no gas price of the user's in its way. */
  predicate IsForDynamicFee(transaction: Transaction) {
    || transaction.intent.DynamicFee?
    || (transaction.intent.AnyFee? && !(transaction.GasPriceValue().Some? && IsUser(transaction.provenance.gasPrice)))
  }

  /** Against a market with a base fee, for every transaction that wants an EIP-1559 fee. */
  lemma {:induction false} DynamicFeeIsDecided(transaction: Transaction, network: Network, estimate: Estimate)
    requires IsQuoted(transaction, network, estimate) && IsForDynamicFee(transaction) && !IsSliders(transaction)
    ensures MeetsExactly(WishOf(transaction, estimate), Resolve(transaction, network, estimate),
                         estimate.ApplyBaseFeeContext(transaction), estimate.BaseFee().value,
                         if transaction.intent.DynamicFee? then InvalidTransaction else GasPriceUnavailable)
  {
    hide ResolveSlider, ResolveLegacyIntent, ResolveAutomaticLegacy, ResolveAutomaticUnknown, ResolveDynamic;
    hide IsForChain, Intent.IsStructurallyValid, MeetsExactly, IsUInt256;
    var resolved := estimate.ApplyBaseFeeContext(transaction);
    DynamicIsDecided(resolved, estimate, estimate.BaseFee().value, PrioritySource(transaction), CapSource(transaction),
                     resolved.MaxPriorityFeeValue(), resolved.MaxFeeValue(),
                     if transaction.intent.DynamicFee? then InvalidTransaction else GasPriceUnavailable);
  }

  /** A gas price of the user's is kept if it covers the base fee, and blamed if not. */
  lemma {:induction false} UsersPriceIsDecided(transaction: Transaction, network: Network, estimate: Estimate)
    requires IsQuoted(transaction, network, estimate) && transaction.intent.AnyFee?
    requires transaction.GasPriceValue().Some? && IsUser(transaction.provenance.gasPrice)
    ensures var price := transaction.GasPriceValue().value; var held := estimate.ApplyBaseFeeContext(transaction);
      Resolve(transaction, network, estimate)
        == if IsUInt256(price) && price >= estimate.BaseFee().value then Prepared(held) else UnsafeUserFee(held)
  {
    hide ResolveSlider, ResolveDynamic, IsForChain;
  }

  // ----- legacy fees

  /** The price the wallet takes for a requested legacy fee: the suggested one, at least a wei above the base fee. */
  lemma {:induction false} WalletsPriceIsDecided(
      resolved: Transaction, requested: Option<nat>, network: Network, estimate: Estimate)
    requires estimate.support == Eip1559Market && estimate.BaseFee().Some?
    requires Known(resolved.provenance.gasPrice, if requested.None? then Automatic else Dapp).IsWalletManaged()
    ensures var outcome := ResolveLegacyIntent(resolved, requested, network, estimate);
      var baseFee := estimate.BaseFee().value;
      outcome.Prepared? ==>
        && RecommendedPriority(estimate).Some?
        && var suggested := SuggestedLegacyGasPrice(baseFee, RecommendedPriority(estimate).value);
           suggested.Some? && outcome.transaction.preparedFee
             == Some(Legacy(if suggested.value > baseFee then suggested.value else baseFee + 1))
  {
    hide SuggestedLegacyGasPrice, IsValidGasPrice, Transaction.FeeSource, IsUInt256;
  }

  /** What the wallet suggests for a legacy fee; where there is a base fee, at least a wei is left for the priority. */
  function WalletPrice(estimate: Estimate): Option<nat> {
    var suggested := estimate.SuggestedFee(LegacyFee(None));
    if suggested.None? then None
    else if estimate.support == Eip1559Market && suggested.value.Cap() == estimate.BaseFee().value
    then (if IsUInt256(suggested.value.Cap() + 1) then Some(suggested.value.Cap() + 1) else None)
    else Some(suggested.value.Cap())
  }

  predicate PreparesPrice(outcome: Outcome, before: Transaction, price: nat, source: Source) {
    outcome == Prepared(before.(preparedFee := Some(Legacy(price)), provenance := Provenance(Some(source), None, None)))
  }

  /** A requested legacy fee in a known market: the wallet's own price is the one it suggests; the user's is kept if it
      is valid and covers the base fee. */
  lemma {:induction false} LegacyFeeIsDecided(transaction: Transaction, network: Network, estimate: Estimate)
    requires transaction.intent.LegacyFee? && transaction.intent.IsStructurallyValid() && IsForChain(estimate, network)
    requires estimate.support != UnknownMarket && estimate.IsWellFormed() && !IsSliders(transaction)
    ensures var outcome, source := Resolve(transaction, network, estimate), PriceSource(transaction);
      var held := estimate.ApplyBaseFeeContext(transaction);
      var price := if source.IsUserControlled() then transaction.GasPriceValue().Or(transaction.intent.gasPrice)
                   else WalletPrice(estimate);
      var isQuoted := estimate.support == Eip1559Market ==> estimate.BaseFee().Some?;
      var covers := price.Some? && estimate.BaseFee().Some? ==> price.value >= estimate.BaseFee().value;
      && (outcome.Prepared? <==> isQuoted && price.Some? && covers && IsValidGasPrice(price.value, network))
      && (outcome.Prepared? ==> PreparesPrice(outcome, held, price.value, source))
      && (!outcome.Prepared? ==>
            if source.IsUserControlled() && isQuoted && price.Some? then outcome == UnsafeUserFee(held)
            else outcome.Unavailable?)
      && (outcome.Unavailable? ==>
            outcome.failure == if && !source.IsUserControlled() && estimate.support == Eip1559Market
                                  && estimate.BaseFee().Some? && RecommendedPriority(estimate).Some?
                               then InvalidTransaction else GasPriceUnavailable)
  {
    hide ResolveSlider, ResolveDynamic, ResolveDynamicIntent, IsForChain;
  }

  /** Where there is no base fee and the kind is left open: a valid gas price of the user's, or the one quoted. */
  lemma {:induction false} AnyFeeWithoutBaseFee(transaction: Transaction, network: Network, estimate: Estimate)
    requires transaction.intent.AnyFee? && estimate.support == LegacyMarket && IsForChain(estimate, network)
    requires !IsSliders(transaction) && estimate.IsWellFormed()
    ensures var outcome, price := Resolve(transaction, network, estimate), transaction.GasPriceValue();
      var held := estimate.ApplyBaseFeeContext(transaction);
      if price.Some? && IsUser(transaction.provenance.gasPrice)
      then outcome == if IsValidGasPrice(price.value, network) then Prepared(held) else UnsafeUserFee(held)
      else if estimate.gasPrice.None? then outcome == Unavailable(GasPriceUnavailable)
      else PreparesPrice(outcome, held, estimate.gasPrice.value, Automatic)
           || (outcome == Prepared(held) && held.preparedFee == Some(Legacy(estimate.gasPrice.value)))
  {
    hide ResolveSlider, ResolveDynamic, IsForChain;
  }

  // ----- unknown markets, where nothing can be recommended

  /** The fee covers the base fee that the transaction carries, if any. */
  predicate CoversBasis(transaction: Transaction, fee: Fee) {
    transaction.BasisBaseFee().Some? ==> fee.HasSufficientEffectivePriorityFee(transaction.BasisBaseFee().value)
  }

  /** Only a fee of the user's own is let through, as it is. */
  lemma {:induction false} UnknownAnyFeeIsDecided(transaction: Transaction, network: Network, estimate: Estimate)
    requires transaction.intent.AnyFee? && estimate.support == UnknownMarket && IsForChain(estimate, network)
    requires !IsSliders(transaction)
    ensures var outcome, held := Resolve(transaction, network, estimate), estimate.ApplyBaseFeeContext(transaction);
      var isUsers := transaction.preparedFee.Some?
        && transaction.provenance.ContainsUserControlledValueFor(transaction.preparedFee.value);
      if && isUsers && transaction.preparedFee.value.IsStructurallyValid()
         && (transaction.preparedFee.value.Legacy? ==> IsValidGasPrice(transaction.preparedFee.value.gasPrice, network))
      then outcome == if CoversBasis(held, transaction.preparedFee.value) then Prepared(held) else UnsafeUserFee(held)
      else outcome == Unavailable(GasPriceUnavailable)
  {
    hide ResolveSlider, ResolveDynamic, IsForChain, Provenance.ContainsUserControlledValueFor;
    hide Fee.HasSufficientEffectivePriorityFee, Fee.IsStructurallyValid, IsValidGasPrice;
  }

  /** An EIP-1559 fee needs both components from the user; without a base fee of its own the market knows of none. */
  lemma {:induction false} UnknownDynamicFeeIsDecided(transaction: Transaction, network: Network, estimate: Estimate)
    requires transaction.intent.DynamicFee? && transaction.intent.IsStructurallyValid()
    requires estimate.support != Eip1559Market && IsForChain(estimate, network) && !IsSliders(transaction)
    ensures var outcome, held := Resolve(transaction, network, estimate), estimate.ApplyBaseFeeContext(transaction);
      var priority, cap := transaction.MaxPriorityFeeValue(), transaction.MaxFeeValue();
      var recorded := transaction.provenance;
      if && estimate.support == UnknownMarket && priority.Some? && cap.Some?
         && PrioritySource(transaction).IsUserControlled() && CapSource(transaction).IsUserControlled()
         && Eip1559(priority.value, cap.value).IsStructurallyValid()
      then
        var fee := Eip1559(priority.value, cap.value);
        var after := held.(preparedFee := Some(fee),
                           provenance := Provenance(None, recorded.maxPriorityFee.Or(Some(Automatic)),
                                                    recorded.maxFee.Or(Some(Automatic))));
        if CoversBasis(held, fee) then outcome == Prepared(after)
        else if after.provenance.ContainsUserControlledValueFor(fee) then outcome == UnsafeUserFee(after)
        else outcome == Unavailable(GasPriceUnavailable)
      else outcome == Unavailable(GasPriceUnavailable)
  {
    hide ResolveSlider, ResolveDynamic, IsForChain, Provenance.ContainsUserControlledValueFor;
    hide Fee.HasSufficientEffectivePriorityFee, Fee.IsStructurallyValid;
  }

  /** A legacy fee is the user's, or the one quoted. */
  lemma {:induction false} UnknownLegacyFeeIsDecided(transaction: Transaction, network: Network, estimate: Estimate)
    requires transaction.intent.LegacyFee? && transaction.intent.IsStructurallyValid() && IsForChain(estimate, network)
    requires estimate.support == UnknownMarket && !IsSliders(transaction)
    ensures var outcome, source := Resolve(transaction, network, estimate), PriceSource(transaction);
      var held := estimate.ApplyBaseFeeContext(transaction);
      var price := if source.IsUserControlled() then transaction.GasPriceValue().Or(transaction.intent.gasPrice)
                   else estimate.gasPrice;
      if price.None? then outcome == Unavailable(GasPriceUnavailable)
      else if !IsValidGasPrice(price.value, network) then
        outcome == if source.IsUserControlled() then UnsafeUserFee(held) else Unavailable(GasPriceUnavailable)
      else if CoversBasis(held, Legacy(price.value)) then PreparesPrice(outcome, held, price.value, source)
      else if source.IsUserControlled() then
        outcome.UnsafeUserFee? && outcome.transaction.preparedFee == Some(Legacy(price.value))
      else outcome == Unavailable(GasPriceUnavailable)
  {
    hide ResolveSlider, ResolveDynamic, IsForChain;
  }

  // ----- the slider's fee, and refusals

  /** A fee set with the slider keeps the priority it pays: an EIP-1559 fee its priority fee, a legacy fee what it left
      over the base fee it was set against, or the recommended one if that was nothing. */
  lemma {:induction false} SlidersFeeIsDecided(transaction: Transaction, network: Network, estimate: Estimate)
    requires IsQuoted(transaction, network, estimate) && IsSliders(transaction)
    ensures var outcome, fee := Resolve(transaction, network, estimate), transaction.preparedFee.value;
      var held, baseFee := estimate.ApplyBaseFeeContext(transaction), estimate.BaseFee().value;
      var basis := transaction.BasisBaseFee();
      var left := if fee.Legacy? && basis.Some? && fee.gasPrice > basis.value then Some(fee.gasPrice - basis.value)
                  else RecommendedPriority(estimate);
      && (fee.Eip1559? ==>
            if HasCap(baseFee, fee.maxPriorityFee)
            then outcome == Prepared(held.(
                   preparedFee := Some(Eip1559(fee.maxPriorityFee, 2 * baseFee + fee.maxPriorityFee)),
                   provenance := outcome.transaction.provenance))
            else outcome == Unavailable(InvalidTransaction))
      && (fee.Legacy? ==>
            if left.None? then outcome == Unavailable(GasPriceUnavailable)
            else if IsUInt256(baseFee + left.value)
            then outcome == Prepared(held.(preparedFee := Some(Legacy(baseFee + left.value)),
                                           provenance := outcome.transaction.provenance))
            else outcome == Unavailable(InvalidTransaction))
      && (outcome.Prepared? ==> outcome.transaction.FeeSource() == Slider)
  {
    hide ResolveIntent, IsForChain, Intent.IsStructurallyValid;
  }

  lemma {:induction false} SlidersFeeElsewhere(transaction: Transaction, network: Network, estimate: Estimate)
    requires transaction.intent.IsStructurallyValid() && IsForChain(estimate, network) && estimate.IsWellFormed()
    requires estimate.support != Eip1559Market && IsSliders(transaction)
    ensures var outcome, fee := Resolve(transaction, network, estimate), transaction.preparedFee.value;
      var held := estimate.ApplyBaseFeeContext(transaction);
      if fee.Legacy? && estimate.support == LegacyMarket
      then if fee.IsStructurallyValid()
           then outcome.Prepared? && outcome.transaction.preparedFee == Some(fee)
           else outcome == Unavailable(InvalidTransaction)
      else if && fee.Eip1559? && estimate.BaseFee().Some?
              && HasCap(estimate.BaseFee().value, fee.maxPriorityFee)
      then outcome.Prepared? && outcome.transaction.preparedFee
             == Some(Eip1559(fee.maxPriorityFee, 2 * estimate.BaseFee().value + fee.maxPriorityFee))
      else outcome == Unavailable(InvalidTransaction)
  {
    hide ResolveIntent, IsForChain, Intent.IsStructurallyValid;
  }

  /** The estimate may be of another chain, or there is no chain to be of. */
  predicate IsForeign(estimate: Estimate, network: Network) {
    network.chainId <= 0 || (estimate.endpointChainId.Some? && estimate.endpointChainId.value != network.chainId)
  }

  /** What is asked for does not fit into 256 bits, or has a cap below its priority fee. */
  predicate MakesNoSense(intent: Intent) {
    || (intent.LegacyFee? && intent.gasPrice.Some? && intent.gasPrice.value > MAX_UINT256)
    || (intent.DynamicFee? && intent.maxPriorityFee.Some? && intent.maxPriorityFee.value > MAX_UINT256)
    || (intent.DynamicFee? && intent.maxFee.Some? && intent.maxFee.value > MAX_UINT256)
    || (&& intent.DynamicFee? && intent.maxPriorityFee.Some? && intent.maxFee.Some?
        && intent.maxFee.value < intent.maxPriorityFee.value)
  }

  /** Nothing is resolved for an intent that makes no sense, from a foreign estimate, or where the base fee is missing.
      */
  lemma {:induction false} RefusalsAreDecided(transaction: Transaction, network: Network, estimate: Estimate)
    ensures var outcome := Resolve(transaction, network, estimate);
      && (MakesNoSense(transaction.intent) ==> outcome == Unavailable(InvalidTransaction))
      && (!MakesNoSense(transaction.intent) && IsForeign(estimate, network) ==>
            outcome == Unavailable(GasPriceUnavailable))
      && (!MakesNoSense(transaction.intent) && !IsForeign(estimate, network) && !IsSliders(transaction) ==>
            estimate.support == Eip1559Market && estimate.BaseFee().None? ==>
              outcome == Unavailable(GasPriceUnavailable))
  {
    hide ResolveSlider, ResolveDynamic, IsValidGasPrice;
  }

  // ----- the preflight

  /** A component without a recorded source counts as the fee's own. */
  function HeldSource(recorded: Option<Source>, transaction: Transaction): Source {
    Known(recorded, transaction.FeeSource())
  }

  /** The preflight gets to check the fee: it is valid, and affordable with a gas limit that is not zero. */
  predicate IsPayable(transaction: Transaction, fee: Fee) {
    && transaction.GasLimit().Some? && transaction.GasLimit().value != 0
    && fee.IsStructurallyValid() && fee.MaximumNetworkFee(transaction.GasLimit().value).Some?
  }

  /** A dynamic fee that no longer covers the base fee, checked against a market with one. */
  predicate IsOutdated(transaction: Transaction, network: Network, estimate: Estimate) {
    && IsForChain(estimate, network) && estimate.support == Eip1559Market
    && estimate.BaseFee().Some? && IsUInt256(estimate.BaseFee().value)
    && transaction.preparedFee.Some? && IsPayable(transaction, transaction.preparedFee.value)
    && transaction.preparedFee.value.Cap() < estimate.BaseFee().value
  }

  /** The update of a fee whose cap is the wallet's own. */
  lemma {:induction false} WalletsUpdateIsDecided(candidate: Transaction, existingPriority: nat, existingCap: nat,
                                                  estimate: Estimate, baseFee: nat)
    requires IsUInt256(baseFee) && !HeldSource(candidate.provenance.maxFee, candidate).IsUserControlled()
    ensures var update := UpdateDynamic(candidate, existingPriority, existingCap, estimate, baseFee);
      var prioritySource := HeldSource(candidate.provenance.maxPriorityFee, candidate);
      var capSource := HeldSource(candidate.provenance.maxFee, candidate);
      var priority := if IsChosen(prioritySource) then Some(existingPriority) else RecommendedPriority(estimate);
      if priority.None? then update == NoUpdate(FeesUnavailable(candidate, estimate))
      else if HasCap(baseFee, priority.value) then
        update == Updated(Some(Eip1559(priority.value, 2 * baseFee + priority.value)),
                          Provenance(None, Some(prioritySource), Some(capSource)))
      else update == NoUpdate(UnsafeOr(prioritySource.IsUserControlled(), candidate, estimate))
  {
  }

  /** The update of a legacy fee that is not the user's. */
  lemma {:induction false} WalletsPriceUpdateIsDecided(candidate: Transaction, existing: nat, basis: Option<nat>,
                                                       estimate: Estimate, baseFee: nat)
    requires HeldSource(candidate.provenance.gasPrice, candidate).IsWalletManaged()
    ensures var source := HeldSource(candidate.provenance.gasPrice, candidate);
      var update := UpdateLegacy(candidate, existing, basis, estimate, baseFee);
      var left := if source == Slider && basis.Some? && existing > basis.value then Some(existing - basis.value)
                  else RecommendedPriority(estimate);
      if left.None? then update == NoUpdate(FeesUnavailable(candidate, estimate))
      else
        var price := baseFee + (if source == Slider then 0 else baseFee / 8) + left.value;
        update == Updated(if IsUInt256(price) then Some(Legacy(price)) else None, Provenance(Some(source), None, None))
  {
  }

  /** The user is told if the cap is the user's; otherwise the fee is updated to the priority that was chosen or is
      recommended and a cap that lasts while the base fee doubles, if there is such a fee and it is affordable. */
  lemma {:induction false} OutdatedDynamicFeeIsDecided(transaction: Transaction, network: Network, estimate: Estimate)
    requires IsOutdated(transaction, network, estimate) && transaction.preparedFee.value.Eip1559?
    ensures var result, fee := Preflight(transaction, network, estimate), transaction.preparedFee.value;
      var held, baseFee := estimate.ApplyBaseFeeContext(transaction), estimate.BaseFee().value;
      var prioritySource := HeldSource(transaction.provenance.maxPriorityFee, transaction);
      var capSource := HeldSource(transaction.provenance.maxFee, transaction);
      var priority :=
        if IsChosen(prioritySource) then Some(fee.maxPriorityFee) else RecommendedPriority(estimate);
      if capSource.IsUserControlled() then result == UserControlledUnsafe(held, estimate)
      else if priority.None? then result == FeesUnavailable(held, estimate)
      else if !HasCap(baseFee, priority.value) then
        result == if prioritySource.IsUserControlled() then UserControlledUnsafe(held, estimate)
                  else FeesUnavailable(held, estimate)
      else
        var updated := Eip1559(priority.value, 2 * baseFee + priority.value);
        result == if !IsPayable(transaction, updated) then FeesUnavailable(held, estimate)
                  else WalletManagedUpdated(
                         held.(preparedFee := Some(updated),
                               provenance := Provenance(None, Some(prioritySource), Some(capSource))), estimate)
  {
    hide IsForChain, UpdateLegacy;
  }

  /** The same for a legacy fee: the wallet's own becomes the one it suggests, the slider's keeps what it left over the
      base fee it was set against. */
  lemma {:induction false} OutdatedLegacyFeeIsDecided(transaction: Transaction, network: Network, estimate: Estimate)
    requires IsOutdated(transaction, network, estimate) && transaction.preparedFee.value.Legacy?
    ensures var result, fee := Preflight(transaction, network, estimate), transaction.preparedFee.value;
      var held, baseFee := estimate.ApplyBaseFeeContext(transaction), estimate.BaseFee().value;
      var source, basis := HeldSource(transaction.provenance.gasPrice, transaction), transaction.BasisBaseFee();
      var left := if source == Slider && basis.Some? && fee.gasPrice > basis.value then Some(fee.gasPrice - basis.value)
                  else RecommendedPriority(estimate);
      var suggested := estimate.SuggestedFee(LegacyFee(None));
      var price := if source == Slider then (if left.Some? && IsUInt256(baseFee + left.value)
                                             then Some(baseFee + left.value) else None)
                   else if suggested.Some? then Some(suggested.value.Cap()) else None;
      if source.IsUserControlled() then result == UserControlledUnsafe(held, estimate)
      else if price.None? then
        result == if left.Some? && transaction.provenance.ContainsUserControlledValue()
                  then UserControlledUnsafe(held, estimate) else FeesUnavailable(held, estimate)
      else
        result == if !IsPayable(transaction, Legacy(price.value)) then FeesUnavailable(held, estimate)
                  else WalletManagedUpdated(
                         held.(preparedFee := Some(Legacy(price.value)),
                               provenance := Provenance(Some(source), None, None)), estimate)
  {
    hide IsForChain, UpdateDynamic;
  }

  /** A wallet's cap pays the full priority fee exactly while the base fee has not more than doubled. */
  lemma {:induction false} WalletsCapLasts(baseFee: nat, priority: nat, later: nat)
    requires HasCap(baseFee, priority) && IsUInt256(later)
    ensures Eip1559(priority, 2 * baseFee + priority).EffectivePriorityFee(later) == Some(priority)
       <==> later <= 2 * baseFee
  {
  }

  /** All other verdicts. */
  lemma {:induction false} OtherVerdicts(transaction: Transaction, network: Network, estimate: Estimate)
    requires !IsOutdated(transaction, network, estimate) && estimate.IsWellFormed()
    ensures var result, held := Preflight(transaction, network, estimate), estimate.ApplyBaseFeeContext(transaction);
      var isUsers := transaction.preparedFee.Some?
        && transaction.provenance.ContainsUserControlledValueFor(transaction.preparedFee.value);
      var isComplete := IsForChain(estimate, network) && transaction.preparedFee.Some?
        && transaction.preparedFee.value.IsStructurallyValid()
        && transaction.GasLimit().Some? && transaction.GasLimit().value != 0;
      if !isComplete then result == FeesUnavailable(held, estimate)
      else if !IsPayable(transaction, transaction.preparedFee.value) then
        result == if isUsers then UserControlledUnsafe(held, estimate) else FeesUnavailable(held, estimate)
      else
        match estimate.support
        case Eip1559Market =>
          result == if estimate.BaseFee().Some? then Safe(held, estimate) else FeesUnavailable(held, estimate)
        case LegacyMarket =>
          result == if transaction.preparedFee.value.Legacy? then Safe(held, estimate)
                    else FeesUnavailable(held, estimate)
        case UnknownMarket =>
          result == if !isUsers then FeesUnavailable(held, estimate)
                    else if CoversBasis(held, transaction.preparedFee.value) then Safe(held, estimate)
                    else UserControlledUnsafe(held, estimate)
  {
    hide UpdateLegacy, UpdateDynamic, Provenance.ContainsUserControlledValueFor;
  }
}
