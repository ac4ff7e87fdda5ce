/** Fees, the record of who chose each of their components, and the transaction that carries them. */
module Fees {
  import opened Wrappers
  import opened Quantities
  import opened Positional

  const MINIMUM_PRIORITY_FEE: nat := 1

  datatype Fee = Legacy(gasPrice: nat) | Eip1559(maxPriorityFee: nat, maxFee: nat) {

    function Cap(): nat {
      if Legacy? then gasPrice else maxFee
    }

    predicate IsStructurallyValid() {
      match this
      case Legacy(gasPrice) => IsUInt256(gasPrice)
      case Eip1559(maxPriorityFee, maxFee) =>
        IsUInt256(maxPriorityFee) && IsUInt256(maxFee) && maxFee >= maxPriorityFee
    }

    function EffectivePriorityFee(baseFee: nat): Option<nat> {
      if !IsStructurallyValid() || !IsUInt256(baseFee) then None
      else if Cap() < baseFee then None
      else if Legacy? then Some(gasPrice - baseFee)
      else Some(if maxPriorityFee <= maxFee - baseFee then maxPriorityFee else maxFee - baseFee)
    }

    predicate HasSufficientEffectivePriorityFee(baseFee: nat) {
      EffectivePriorityFee(baseFee).Some?
    }

    function MaximumNetworkFee(gasLimit: nat): Option<nat> {
      if !IsUInt256(gasLimit) || !IsStructurallyValid() || !IsUInt256(gasLimit * Cap()) then None
      else Some(gasLimit * Cap())
    }
  }

  function RecommendedEip1559(baseFee: nat, maxPriorityFee: nat): Option<Fee> {
    var maxFee := baseFee * 2 + maxPriorityFee;
    if !IsUInt256(baseFee) || !IsUInt256(maxPriorityFee) || maxPriorityFee < MINIMUM_PRIORITY_FEE then None
    else if !IsUInt256(maxFee) then None
    else Some(Eip1559(maxPriorityFee, maxFee))
  }

  function SuggestedLegacyGasPrice(baseFee: nat, priorityFee: nat): Option<nat> {
    var gasPrice := baseFee + baseFee / 8 + priorityFee;
    if IsUInt256(gasPrice) then Some(gasPrice) else None
  }

  datatype Intent =
    | AnyFee
    | LegacyFee(gasPrice: Option<nat>)
    | DynamicFee(maxPriorityFee: Option<nat>, maxFee: Option<nat>)
  {
    predicate IsStructurallyValid() {
      match this
      case AnyFee => true
      case LegacyFee(gasPrice) => gasPrice.Some? ==> IsUInt256(gasPrice.value)
      case DynamicFee(priority, cap) =>
        && (priority.Some? ==> IsUInt256(priority.value))
        && (cap.Some? ==> IsUInt256(cap.value))
        && (priority.Some? && cap.Some? ==> cap.value >= priority.value)
    }
  }

  datatype Source = Automatic | Dapp | Slider | Manual {
    predicate IsWalletManaged() {
      this == Automatic || this == Slider
    }

    predicate IsUserControlled() {
      !IsWalletManaged()
    }
  }

  predicate IsUser(source: Option<Source>) {
    source.Some? && source.value.IsUserControlled()
  }

  datatype Provenance = Provenance(
    gasPrice: Option<Source>, maxPriorityFee: Option<Source>, maxFee: Option<Source>)
  {
    function DominantSource(fee: Option<Fee>): Source {
      var considered :=
        if fee.None? then {gasPrice, maxPriorityFee, maxFee}
        else if fee.value.Legacy? then {gasPrice}
        else {maxPriorityFee, maxFee};
      if Some(Manual) in considered then Manual
      else if Some(Dapp) in considered then Dapp
      else if Some(Slider) in considered then Slider
      else Automatic
    }

    predicate ContainsUserControlledValueFor(fee: Fee) {
      var fallback := DominantSource(Some(fee));
      if fee.Legacy? then Known(gasPrice, fallback).IsUserControlled()
      else Known(maxPriorityFee, fallback).IsUserControlled() || Known(maxFee, fallback).IsUserControlled()
    }

    predicate ContainsUserControlledValue() {
      IsUser(gasPrice) || IsUser(maxPriorityFee) || IsUser(maxFee)
    }

    function FillMissing(fee: Fee, source: Source): Provenance {
      if fee.Legacy? then Provenance(gasPrice.Or(Some(source)), None, None)
      else Provenance(None, maxPriorityFee.Or(Some(source)), maxFee.Or(Some(source)))
    }

    static function From(source: Source, fee: Fee): Provenance {
      if fee.Legacy? then Provenance(Some(source), None, None)
      else Provenance(None, Some(source), Some(source))
    }

    static function Empty(): Provenance {
      Provenance(None, None, None)
    }
  }

  function Known(source: Option<Source>, fallback: Source): Source {
    if source.Some? then source.value else fallback
  }

  /** What no step of the approval changes: sender, destination, value, data and access list. */
  datatype Request = Request(from: string, to: string, value: Option<string>, data: string, accessList: seq<string>)

  datatype Transaction = Transaction(
    id: nat, request: Request, intent: Intent,
    nonce: Option<string>, gas: Option<string>, interpretation: Option<string>,
    preparedFee: Option<Fee>, provenance: Provenance,
    currentBaseFee: Option<nat>, nextBaseFee: Option<nat>)
  {
    function BasisBaseFee(): Option<nat> {
      nextBaseFee.Or(currentBaseFee)
    }

    function FeeSource(): Source {
      provenance.DominantSource(preparedFee)
    }

    function MaxPriorityFeeValue(): Option<nat> {
      if preparedFee.Some? && preparedFee.value.Eip1559? then Some(preparedFee.value.maxPriorityFee)
      else if intent.DynamicFee? then intent.maxPriorityFee else None
    }

    function MaxFeeValue(): Option<nat> {
      if preparedFee.Some? && preparedFee.value.Eip1559? then Some(preparedFee.value.maxFee)
      else if intent.DynamicFee? then intent.maxFee else None
    }

    function GasPriceValue(): Option<nat> {
      if preparedFee.Some? && preparedFee.value.Legacy? then Some(preparedFee.value.gasPrice) else None
    }

    function Quantity(text: Option<string>): Option<nat> {
      if text.Some? then ParseUInt256(text.value, true) else None
    }

    function GasLimit(): Option<nat> {
      Quantity(gas)
    }

    function NonceWord(): Option<nat> {
      if nonce.Some? then ParseWord(nonce.value) else None
    }

    /** The nonce as it is shown: both parsers have to accept it. */
    function DecimalNonce(): Option<nat> {
      if Quantity(nonce).Some? then NonceWord() else None
    }

    predicate IsReadyForApproval(network: Network) {
      && Quantity(nonce).Some?
      && GasLimit().Some? && GasLimit().value != 0
      && preparedFee.Some? && preparedFee.value.IsStructurallyValid()
      && preparedFee.value.MaximumNetworkFee(GasLimit().value).Some?
      && (network.catalogEip1559 ==> BasisBaseFee().Some?)
      && (preparedFee.value.Legacy? ==>
            request.accessList == [] && IsValidGasPrice(preparedFee.value.gasPrice, network))
      && (BasisBaseFee().Some? ==> preparedFee.value.HasSufficientEffectivePriorityFee(BasisBaseFee().value))
    }

    function SetPreparedFee(fee: Fee, source: Source, preserving: bool): Transaction {
      var recorded := if preserving then provenance.FillMissing(fee, source) else Provenance.From(source, fee);
      this.(preparedFee := Some(fee), provenance := recorded)
    }

    /** The same transaction up to its base-fee context. */
    predicate SameButBaseFees(other: Transaction) {
      this == other.(currentBaseFee := currentBaseFee, nextBaseFee := nextBaseFee)
    }

    /** The same transaction up to its fee and base-fee context. */
    predicate SameButFee(other: Transaction) {
      this == other.(preparedFee := preparedFee, provenance := provenance,
                     currentBaseFee := currentBaseFee, nextBaseFee := nextBaseFee)
    }
  }

  datatype Network = Network(chainId: int, isEthMainnet: bool, catalogEip1559: bool)

  predicate IsValidGasPrice(gasPrice: nat, network: Network) {
    IsUInt256(gasPrice) && (network.isEthMainnet ==> gasPrice != 0)
  }

  // ----- estimates

  datatype Support = Eip1559Market | LegacyMarket | UnknownMarket

  datatype Info = Info(recommendedPriorityFee: nat, highPriorityFee: nat)

  datatype Estimate = Estimate(
    info: Option<Info>, nextBaseFee: Option<nat>, currentBaseFee: Option<nat>,
    support: Support, gasPrice: Option<nat>, endpointChainId: Option<nat>)
  {
    function BaseFee(): Option<nat> {
      nextBaseFee.Or(currentBaseFee)
    }

    /** The fee the wallet would suggest for an intent. */
    function SuggestedFee(intent: Intent): Option<Fee> {
      if support == UnknownMarket || (support == LegacyMarket && intent.DynamicFee?) then None
      else if support == LegacyMarket then
        if gasPrice.Some? && IsUInt256(gasPrice.value) then Some(Legacy(gasPrice.value)) else None
      else if BaseFee().None? || info.None? then None
      else if intent.LegacyFee? then
        var suggested := SuggestedLegacyGasPrice(BaseFee().value, info.value.recommendedPriorityFee);
        if suggested.Some? then Some(Legacy(suggested.value)) else None
      else RecommendedEip1559(BaseFee().value, info.value.recommendedPriorityFee)
    }

    function ApplyBaseFeeContext(transaction: Transaction): Transaction {
      match support
      case Eip1559Market =>
        transaction.(currentBaseFee := currentBaseFee.Or(nextBaseFee), nextBaseFee := nextBaseFee)
      case LegacyMarket =>
        transaction.(currentBaseFee := None, nextBaseFee := None)
      case UnknownMarket =>
        if currentBaseFee.Some? || nextBaseFee.Some? then
          transaction.(currentBaseFee := currentBaseFee.Or(nextBaseFee), nextBaseFee := nextBaseFee)
        else transaction
    }

    /** What every estimate the service completes with satisfies: quantities of at most 256 bits, and no base fee
        where the market is known to have none. */
    predicate IsWellFormed() {
      && (nextBaseFee.Some? ==> IsUInt256(nextBaseFee.value))
      && (currentBaseFee.Some? ==> IsUInt256(currentBaseFee.value))
      && (gasPrice.Some? ==> IsUInt256(gasPrice.value))
      && (support == LegacyMarket ==> nextBaseFee.None? && currentBaseFee.None?)
    }
  }

  /** The estimate is for the network's own chain. */
  predicate IsForChain(estimate: Estimate, network: Network) {
    network.chainId > 0 && (estimate.endpointChainId.Some? ==> estimate.endpointChainId.value == network.chainId)
  }
}
