/** How a transaction comes to be and how the user changes it: creation, the fee editor and the speed slider. */
module Edits {
  import opened Wrappers
  import opened Quantities
  import opened Positional
  import opened Fees
  import opened Slider
  import opened FeeResolution

  // ----- creation

  function IntentOf(fee: Fee): Intent {
    if fee.Legacy? then LegacyFee(Some(fee.gasPrice)) else DynamicFee(Some(fee.maxPriorityFee), Some(fee.maxFee))
  }

  /** The fee an intent settles completely. */
  function SettledFee(intent: Intent): Option<Fee> {
    match intent
    case AnyFee => None
    case LegacyFee(gasPrice) => if gasPrice.Some? then Some(Legacy(gasPrice.value)) else None
    case DynamicFee(priority, maxFee) =>
      if priority.Some? && maxFee.Some? then Some(Eip1559(priority.value, maxFee.value)) else None
  }

  function RequestedSources(intent: Intent, source: Source): Provenance {
    match intent
    case AnyFee => Provenance.Empty()
    case LegacyFee(gasPrice) => Provenance(if gasPrice.Some? then Some(source) else None, None, None)
    case DynamicFee(priority, maxFee) =>
      Provenance(None, if priority.Some? then Some(source) else None, if maxFee.Some? then Some(source) else None)
  }

  function Create(
      id: nat, request: Request, gas: Option<string>, gasPrice: Option<string>, feeIntent: Option<Intent>,
      preparedFee: Option<Fee>, feeSource: Option<Source>): Transaction
  {
    var parsed := if gasPrice.Some? then ParseUInt256(gasPrice.value, true) else None;
    var fee := preparedFee.Or(if parsed.Some? then Some(Legacy(parsed.value)) else None);
    var intent :=
      if feeIntent.Some? then feeIntent.value
      else if preparedFee.Some? then IntentOf(preparedFee.value)
      else if gasPrice.Some? then LegacyFee(parsed)
      else AnyFee;
    var source := Known(feeSource, if gasPrice.None? then Automatic else Dapp);
    var requested := RequestedSources(intent, source);
    var recorded :=
      if fee.Some? then requested.FillMissing(fee.value, if intent.AnyFee? then source else Automatic)
      else requested;
    Transaction(id, request, intent, None, gas, None, fee, recorded, None, None)
  }

  // ----- the fee editor

  datatype Edit = Edit(
    preparedFee: Option<Fee>, feeSource: Option<Source>, replacement: Option<Provenance>, nonce: Option<nat>)

  function EditedSource(same: bool, recorded: Option<Source>, source: Source): Option<Source> {
    if same then recorded.Or(Some(source)) else Some(source)
  }

  function EditedProvenance(transaction: Transaction, fee: Fee, source: Source): Provenance {
    var recorded := transaction.provenance;
    if transaction.preparedFee.None? then Provenance.From(source, fee)
    else
      match (transaction.preparedFee.value, fee)
      case (Legacy(previous), Legacy(gasPrice)) =>
        Provenance(EditedSource(gasPrice == previous, recorded.gasPrice, source), None, None)
      case (Eip1559(previousPriority, previousCap), Eip1559(priority, cap)) =>
        Provenance(None, EditedSource(priority == previousPriority, recorded.maxPriorityFee, source),
                   EditedSource(cap == previousCap, recorded.maxFee, source))
      case _ => Provenance.From(source, fee)
  }

  function HexSymbol(digit: nat): char
    requires digit < 16
  {
    if digit < 10 then '0' + digit as char else 'a' + (digit - 10) as char
  }

  function HexText(value: nat): string {
    var digits := Numeral(16, value);
    if value == 0 then "0" else seq(|digits|, i requires 0 <= i < |digits| => HexSymbol(digits[i]))
  }

  /** Applies an edit under a fresh identifier; None when it changes nothing or proposes an invalid fee. */
  function ApplyEdit(transaction: Transaction, edit: Edit, freshId: nat): Option<Transaction> {
    var fee := edit.preparedFee;
    var feeChanged := fee.Some? && fee != transaction.preparedFee;
    var provenanceChanged := edit.replacement.Some? && edit.replacement.value != transaction.provenance;
    var nonceChanged := edit.nonce.Some? && edit.nonce != transaction.NonceWord();
    if fee.Some? && !fee.value.IsStructurallyValid() then None
    else if !feeChanged && !provenanceChanged && !nonceChanged then None
    else
      var recorded :=
        if fee.None? || !(feeChanged || provenanceChanged) then transaction.provenance
        else if edit.replacement.Some? then edit.replacement.value
        else if feeChanged then EditedProvenance(transaction, fee.value, Known(edit.feeSource, Manual))
        else transaction.provenance;
      var replaced := fee.Some? && ((feeChanged || provenanceChanged) && (edit.replacement.Some? || feeChanged));
      Some(transaction.(
        id := freshId,
        preparedFee := if replaced then fee else transaction.preparedFee,
        provenance := recorded,
        nonce := if nonceChanged then Some(HexText(edit.nonce.value)) else transaction.nonce))
  }

  // ----- the slider

  function SliderFee(transaction: Transaction, priorityFee: nat): Option<Fee> {
    var basis := transaction.BasisBaseFee();
    var legacy :=
      if transaction.preparedFee.Some? then transaction.preparedFee.value.Legacy? else transaction.intent.LegacyFee?;
    if legacy then
      var gasPrice := (if basis.Some? then basis.value else 0) + priorityFee;
      if IsUInt256(gasPrice) then Some(Legacy(gasPrice)) else None
    else if basis.None? then None
    else RecommendedEip1559(basis.value, priorityFee)
  }

  function SetFeeForSpeed(transaction: Transaction, units: nat, info: Info): Transaction {
    var priorityFee := InterpolatedFee(units, info);
    if priorityFee.None? then transaction
    else
      var fee := SliderFee(transaction, priorityFee.value);
      if fee.None? then transaction else transaction.SetPreparedFee(fee.value, Slider, false)
  }

  // ----- what every one of these keeps

  /** The prepared fee is of the kind asked for, its components have a recorded source each, and so has every
      component that the intent asks for. */
  predicate IsOrderly(transaction: Transaction) {
    KindMatches(transaction) && IsRecorded(transaction) && SourcesRecorded(transaction)
  }

  /** What the provider request parser creates: the intent's own fee, if it settles one. */
  lemma ParsedTransactionIsOrderly(
      id: nat, request: Request, gas: Option<string>, gasPrice: Option<string>, intent: Intent)
    requires intent.DynamicFee? ==> gasPrice.None?
    requires intent.AnyFee? ==> gasPrice.None?
    ensures IsOrderly(Create(id, request, gas, gasPrice, Some(intent), SettledFee(intent), Some(Dapp)))
  {
  }

  /** The edit brings a fee or a record of sources that the transaction does not have. */
  predicate ReplacesFee(transaction: Transaction, edit: Edit) {
    && edit.preparedFee.Some?
    && (edit.preparedFee != transaction.preparedFee
        || (edit.replacement.Some? && edit.replacement.value != transaction.provenance))
  }

  /** An edit keeps order exactly when a fee it brings is of the kind asked for, and a record of sources it brings
      leaves out no component of that fee. */
  lemma EditKeepsOrder(transaction: Transaction, edit: Edit, freshId: nat)
    requires IsOrderly(transaction) && ApplyEdit(transaction, edit, freshId).Some?
    ensures IsOrderly(ApplyEdit(transaction, edit, freshId).value)
       <==> (ReplacesFee(transaction, edit) ==>
               && KindMatches(transaction.(preparedFee := edit.preparedFee))
               && (edit.replacement.Some? ==>
                     IsRecorded(transaction.(preparedFee := edit.preparedFee, provenance := edit.replacement.value))))
  {
    hide HexText, Fee.IsStructurallyValid, ParseWord;
  }

  lemma SliderKeepsOrder(transaction: Transaction, units: nat, info: Info)
    requires IsOrderly(transaction)
    ensures IsOrderly(SetFeeForSpeed(transaction, units, info))
  {
  }

  lemma ResolutionKeepsOrder(transaction: Transaction, network: Network, estimate: Estimate)
    requires IsOrderly(transaction)
    requires Resolve(transaction, network, estimate).Prepared?
    ensures IsOrderly(Resolve(transaction, network, estimate).transaction)
  {
    ResolutionResolves(transaction, network, estimate);
  }

  lemma PreflightKeepsOrder(transaction: Transaction, network: Network, estimate: Estimate)
    requires IsOrderly(transaction)
    ensures IsOrderly(Preflight(transaction, network, estimate).transaction)
  {
  }

  /** The user is only ever told about an unsafe fee that has a component of the user's own. */
  lemma UnsafeMeansUserControlled(transaction: Transaction, network: Network, estimate: Estimate)
    requires IsOrderly(transaction)
    requires Preflight(transaction, network, estimate).UserControlledUnsafe?
    ensures transaction.preparedFee.Some?
    ensures transaction.provenance.ContainsUserControlledValueFor(transaction.preparedFee.value)
  {
  }

  /** Without a recorded source a requested component is taken for the wallet's own on the second resolution: the
      requested priority fee of 2 and cap of 9 give way to the recommendation. */
  lemma UnrecordedSourcesAreNotKept()
    ensures exists transaction: Transaction, network: Network, estimate: Estimate ::
      && estimate.support == Eip1559Market && estimate.IsWellFormed() && KindMatches(transaction)
      && !SourcesRecorded(transaction)
      && Resolve(transaction, network, estimate).Prepared?
      && Resolve(Resolve(transaction, network, estimate).transaction, network, estimate)
         != Resolve(transaction, network, estimate)
  {
    var request := Request("", "", None, "", []);
    var transaction := Transaction(
      0, request, DynamicFee(Some(2), Some(9)), None, None, None, None, Provenance.Empty(), None, None);
    var network := Network(1, true, true);
    var estimate := Estimate(Some(Info(1, 1)), Some(1), Some(1), Eip1559Market, None, None);
    var once := Resolve(transaction, network, estimate);
    assert once.Prepared? && once.transaction.preparedFee == Some(Eip1559(2, 9));
    var twice := Resolve(once.transaction, network, estimate);
    assert twice.transaction.preparedFee == Some(Eip1559(1, 3));
  }

  /** Whatever kind of fee the slider sets, it pays exactly the priority fee of the slider's position on top of the base
      fee it was set for, and is recorded as the slider's. */
  lemma {:induction false} SliderPaysItsPriority(transaction: Transaction, units: nat, info: Info)
    requires InterpolatedFee(units, info).Some? && SliderFee(transaction, InterpolatedFee(units, info).value).Some?
    ensures var after := SetFeeForSpeed(transaction, units, info);
      var basis := transaction.BasisBaseFee(); var priorityFee := InterpolatedFee(units, info).value;
      && after.preparedFee.Some? && after.FeeSource() == Slider
      && after.SameButFee(transaction) && after.BasisBaseFee() == basis
      && after.preparedFee.value.EffectivePriorityFee(if basis.Some? then basis.value else 0) == Some(priorityFee)
  {
    hide InterpolatedFee;
    SliderPriorityIsBounded(units, info);
  }

  lemma {:induction false} SliderPriorityIsBounded(units: nat, info: Info)
    requires InterpolatedFee(units, info).Some?
    ensures IsUInt256(InterpolatedFee(units, info).value)
  {
  }

  // ----- what an edit does

  lemma {:induction false} SymbolIsItsDigit(digit: nat)
    requires digit < 16
    ensures HexDigit(HexSymbol(digit)) == Some(digit)
    ensures HexSymbol(digit) != 'x' && HexSymbol(digit) != 'X' && HexSymbol(digit) != '+' && HexSymbol(digit) != '-'
  {
  }

  /** A quantity written in hexadecimal is read back, with or without a prefix being asked for. */
  lemma {:induction false} HexTextIsRead(value: nat)
    requires IsUInt256(value)
    ensures ParseUInt256(HexText(value), true) == Some(value)
    ensures value < 0x1_0000_0000_0000_0000 ==> ParseWord(HexText(value)) == Some(value)
  {
    hide Value, Numeral, Pow, HexSymbol, LeadingZeros;
    var digits := if value == 0 then [0] else Numeral(16, value);
    var text := HexText(value);
    forall i | 0 <= i < |text|
      ensures HexDigit(text[i]) == Some(digits[i])
      ensures text[i] != 'x' && text[i] != 'X' && text[i] != '+' && text[i] != '-'
    {
      if value > 0 {
        SymbolIsItsDigit(digits[i]);
      }
    }
    SixteenToThe64();
    NumeralLength(16, value, 64);
    assert HexDigits(text) == digits;
    ValueOfHexText(value, digits);
  }

  lemma {:induction false} ValueOfHexText(value: nat, digits: seq<nat>)
    requires digits == if value == 0 then [0] else Numeral(16, value)
    ensures Value(16, digits) == value && digits != []
  {
    if value == 0 {
      assert digits[..0] == [];
    } else {
      ValueOfNumeral(16, value);
    }
  }

  predicate IsEdited(same: bool, before: Option<Source>, after: Option<Source>, source: Source) {
    if same then after == before.Or(Some(source)) else after == Some(source)
  }

  /** An edit is refused exactly when it proposes an invalid fee or changes nothing. It installs the proposed fee and
      nonce, and touches nothing else but the identifier. */
  lemma {:induction false} EditIsApplied(transaction: Transaction, edit: Edit, freshId: nat)
    requires edit.nonce.Some? ==> edit.nonce.value < 0x1_0000_0000_0000_0000
    ensures ApplyEdit(transaction, edit, freshId).None? <==>
      || (edit.preparedFee.Some? && !edit.preparedFee.value.IsStructurallyValid())
      || (&& edit.preparedFee.Or(transaction.preparedFee) == transaction.preparedFee
          && edit.replacement.Or(Some(transaction.provenance)) == Some(transaction.provenance)
          && edit.nonce.Or(transaction.NonceWord()) == transaction.NonceWord())
    ensures ApplyEdit(transaction, edit, freshId).Some? ==>
      var after := ApplyEdit(transaction, edit, freshId).value;
      && after.id == freshId
      && after.SameButFee(transaction.(id := freshId, nonce := after.nonce))
      && after.currentBaseFee == transaction.currentBaseFee && after.nextBaseFee == transaction.nextBaseFee
      && after.preparedFee == edit.preparedFee.Or(transaction.preparedFee)
      && after.NonceWord() == edit.nonce.Or(transaction.NonceWord())
      && (after.nonce != transaction.nonce ==> edit.nonce.Some? && after.DecimalNonce() == edit.nonce)
      && (edit.preparedFee.None? ==> after.provenance == transaction.provenance)
  {
    hide ParseUInt256, ParseWord, HexText;
    if edit.nonce.Some? {
      HexTextIsRead(edit.nonce.value);
    }
  }

  /** A component the user changes is recorded as the user's; one that keeps its value keeps its recorded source. */
  lemma {:induction false} EditRecordsSources(transaction: Transaction, edit: Edit, freshId: nat)
    requires ApplyEdit(transaction, edit, freshId).Some?
    requires edit.preparedFee.Some? && edit.replacement.None? && edit.preparedFee != transaction.preparedFee
    ensures var after, source := ApplyEdit(transaction, edit, freshId).value, Known(edit.feeSource, Manual);
      var before := transaction.provenance;
      match edit.preparedFee.value
      case Legacy(gasPrice) =>
        IsEdited(transaction.GasPriceValue() == Some(gasPrice), before.gasPrice, after.provenance.gasPrice, source)
      case Eip1559(priority, maxFee) =>
        var previous := transaction.(intent := AnyFee);
        && IsEdited(previous.MaxPriorityFeeValue() == Some(priority), before.maxPriorityFee,
                    after.provenance.maxPriorityFee, source)
        && IsEdited(previous.MaxFeeValue() == Some(maxFee), before.maxFee, after.provenance.maxFee, source)
  {
    hide ParseUInt256, ParseWord, HexText;
  }

  // ----- from the request to the fee

  /** The requested component, and who has asked for it. */
  predicate IsRequested(requested: Option<nat>, recorded: Option<Source>, source: Source) {
    recorded == if requested.Some? then Some(source) else None
  }

  /** A transaction as parsed: the request and its intent as they are, every component that is asked for recorded as the
      dapp's, and the fee set if the intent settles it. */
  lemma {:induction false} ParsedAsRequested(
      id: nat, request: Request, gas: Option<string>, gasPrice: Option<string>, intent: Intent)
    ensures var parsed := Create(id, request, gas, gasPrice, Some(intent), SettledFee(intent), Some(Dapp));
      var recorded := parsed.provenance;
      && parsed.id == id && parsed.request == request && parsed.gas == gas && parsed.intent == intent
      && parsed.nonce.None? && parsed.interpretation.None? && parsed.BasisBaseFee().None?
      && (intent.LegacyFee? && gasPrice.None? ==> IsRequested(intent.gasPrice, recorded.gasPrice, Dapp))
      && (intent.DynamicFee? && gasPrice.None? ==>
            && IsRequested(intent.maxPriorityFee, recorded.maxPriorityFee, Dapp)
            && IsRequested(intent.maxFee, recorded.maxFee, Dapp)
            && (intent.maxPriorityFee.Some? && intent.maxFee.Some? ==>
                  parsed.preparedFee == Some(Eip1559(intent.maxPriorityFee.value, intent.maxFee.value))))
      && (intent.LegacyFee? && intent.gasPrice.Some? ==> parsed.preparedFee == Some(Legacy(intent.gasPrice.value)))
  {
    hide ParseUInt256;
  }

  /** And whatever the estimate: what a dapp has asked for is what is prepared, component by component. */
  lemma {:induction false} RequestsAreMet(
      id: nat, request: Request, gas: Option<string>, intent: Intent, network: Network, estimate: Estimate)
    ensures var outcome := Resolve(Create(id, request, gas, None, Some(intent), SettledFee(intent), Some(Dapp)),
                                   network, estimate);
      outcome.Prepared? ==>
        var fee := outcome.transaction.preparedFee;
        && fee.Some?
        && (intent.LegacyFee? ==>
              fee.value.Legacy? && (intent.gasPrice.Some? ==> fee.value.gasPrice == intent.gasPrice.value))
        && (intent.DynamicFee? ==>
              && fee.value.Eip1559?
              && (intent.maxPriorityFee.Some? ==> fee.value.maxPriorityFee == intent.maxPriorityFee.value)
              && (intent.maxFee.Some? ==> fee.value.maxFee == intent.maxFee.value))
  {
    hide Resolve;
    var parsed := Create(id, request, gas, None, Some(intent), SettledFee(intent), Some(Dapp));
    if Resolve(parsed, network, estimate).Prepared? {
      if intent.DynamicFee? {
        DynamicRequestIsMet(parsed, network, estimate);
      } else {
        LegacyRequestIsMet(parsed, network, estimate);
      }
    }
  }

  lemma {:induction false} DynamicRequestIsMet(parsed: Transaction, network: Network, estimate: Estimate)
    requires parsed.intent.DynamicFee? && parsed.preparedFee == SettledFee(parsed.intent)
    requires IsRequested(parsed.intent.maxPriorityFee, parsed.provenance.maxPriorityFee, Dapp)
    requires IsRequested(parsed.intent.maxFee, parsed.provenance.maxFee, Dapp)
    requires Resolve(parsed, network, estimate).Prepared?
    ensures var fee := Resolve(parsed, network, estimate).transaction.preparedFee;
      && fee.Some? && fee.value.Eip1559?
      && (parsed.intent.maxPriorityFee.Some? ==> fee.value.maxPriorityFee == parsed.intent.maxPriorityFee.value)
      && (parsed.intent.maxFee.Some? ==> fee.value.maxFee == parsed.intent.maxFee.value)
  {
    hide IsForChain, IsValidGasPrice, SuggestedLegacyGasPrice, Fee.EffectivePriorityFee;
  }

  lemma {:induction false} LegacyRequestIsMet(parsed: Transaction, network: Network, estimate: Estimate)
    requires !parsed.intent.DynamicFee? && parsed.preparedFee == SettledFee(parsed.intent)
    requires parsed.intent.LegacyFee? ==> IsRequested(parsed.intent.gasPrice, parsed.provenance.gasPrice, Dapp)
    requires Resolve(parsed, network, estimate).Prepared?
    ensures var fee := Resolve(parsed, network, estimate).transaction.preparedFee;
      && fee.Some?
      && (parsed.intent.LegacyFee? ==>
            && fee.value.Legacy?
            && (parsed.intent.gasPrice.Some? ==> fee.value.gasPrice == parsed.intent.gasPrice.value))
  {
    hide IsForChain, IsValidGasPrice, SuggestedLegacyGasPrice, Fee.EffectivePriorityFee;
  }

  /** A gas price alone is a legacy fee the dapp asks for, with the price it denotes. */
  lemma {:induction false} GasPriceIsARequest(id: nat, request: Request, gas: Option<string>, gasPrice: string)
    ensures var parsed := ParseUInt256(gasPrice, true);
      var transaction := Create(id, request, gas, Some(gasPrice), None, None, None);
      && transaction.intent == LegacyFee(parsed)
      && transaction.preparedFee == (if parsed.Some? then Some(Legacy(parsed.value)) else None)
      && IsRequested(parsed, transaction.provenance.gasPrice, Dapp)
  {
    hide ParseUInt256;
  }

  /** A position of the slider sets its priority fee: on top of the base fee for a legacy transaction, with a cap that
      lasts while the base fee doubles for any other. It has no effect exactly where there is no such fee. */
  lemma {:induction false} SliderSetsItsFee(transaction: Transaction, units: nat, info: Info)
    ensures var after, priority := SetFeeForSpeed(transaction, units, info), InterpolatedFee(units, info);
      var basis := transaction.BasisBaseFee();
      var isLegacy := if transaction.preparedFee.Some? then transaction.preparedFee.value.Legacy?
                      else transaction.intent.LegacyFee?;
      if priority.None? then after == transaction
      else if isLegacy then
        var price := (if basis.Some? then basis.value else 0) + priority.value;
        if IsUInt256(price)
        then after == transaction.(
               preparedFee := Some(Legacy(price)), provenance := Provenance(Some(Slider), None, None))
        else after == transaction
      else if basis.Some? && IsUInt256(2 * basis.value + priority.value) then
        after == transaction.(
          preparedFee := Some(Eip1559(priority.value, 2 * basis.value + priority.value)),
          provenance := Provenance(None, Some(Slider), Some(Slider)))
      else after == transaction
  {
    hide Slider.Interpolate, Slider.IsUsable, Slider.Maximum;
    MinimumIsPositive(info);
  }

  lemma {:induction false} MinimumIsPositive(info: Info)
    ensures Slider.Minimum(info) >= 1
  {
  }

  /** A fee that comes without an intent is taken for the intent, all of it recorded with the source it comes with; if
      the kind is left open, it is recorded in the same way, and otherwise what was not asked for is the wallet's. */
  lemma {:induction false} FeeIsAnIntent(id: nat, request: Request, gas: Option<string>, fee: Fee, source: Source,
                                         intent: Intent)
    ensures var alone := Create(id, request, gas, None, None, Some(fee), Some(source));
      && alone.preparedFee == Some(fee) && SettledFee(alone.intent) == Some(fee)
      && alone.provenance == Provenance.From(source, fee)
    ensures var open := Create(id, request, gas, None, Some(AnyFee), Some(fee), Some(source));
      open.intent == AnyFee && open.preparedFee == Some(fee) && open.provenance == Provenance.From(source, fee)
    ensures var asked := Create(id, request, gas, None, Some(intent), Some(fee), Some(source));
      intent.DynamicFee? && fee.Eip1559? ==>
        && asked.provenance.maxPriorityFee == Some(if intent.maxPriorityFee.Some? then source else Automatic)
        && asked.provenance.maxFee == Some(if intent.maxFee.Some? then source else Automatic)
  {
  }

  /** A nonce is written in small letters without leading zeros. */
  lemma {:induction false} HexTextIsCanonical(value: nat)
    ensures var text := HexText(value);
      && text != "" && (text[0] == '0' ==> text == "0")
      && forall i :: 0 <= i < |text| ==> '0' <= text[i] <= '9' || 'a' <= text[i] <= 'f'
  {
  }
}
