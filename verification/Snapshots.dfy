/** The snapshots that listeners are handed: when they are of the current state, and when they come late. */
module Snapshots {
  import opened Wrappers
  import opened Fees
  import opened FeeResolution
  import opened ApprovalState
  import opened Edits
  import opened ApprovalRuns
  import opened Coordinator

  // ----- without callbacks

  predicate AreCurrent(result: Reduction) {
    forall i :: 0 <= i < |result.effects| && result.effects[i].SendSnapshot? ==>
      result.effects[i].snapshot == result.state.ToSnapshot()
  }

  /** Without callbacks every snapshot that is sent is of the state it is sent in. */
  lemma {:induction false} SnapshotsAreCurrent(s: State, event: Event)
    ensures AreCurrent(Step(s, event))
  {
    hide ApplyEdit, Estimate.ApplyBaseFeeContext, Transaction.IsReadyForApproval, SetFeeForSpeed, State.ToSnapshot;
    hide Transaction.DecimalNonce, Estimate.SuggestedFee, State.IsCurrentAlert, State.IsCurrent, State.CanEdit;
    hide Acted, SpeedChosen, Preflighted;
    match event {
      case PreflightFinished(token, result) => PreflightIsCurrent(s, token, result);
      case SpeedSet(units, info) => SpeedIsCurrent(s, units, info);
      case AlertActed(token, action) => ActionIsCurrent(s, token, action);
      case _ =>
    }
  }

  lemma {:induction false} PreflightIsCurrent(s: State, token: Token, result: PreflightResult)
    ensures AreCurrent(Preflighted(s, token, result))
  {
    hide Estimate.ApplyBaseFeeContext, State.ToSnapshot, Transaction.DecimalNonce, State.IsCurrent;
  }

  lemma {:induction false} SpeedIsCurrent(s: State, units: nat, info: Info)
    ensures AreCurrent(SpeedChosen(s, units, info))
  {
    hide SetFeeForSpeed, State.ToSnapshot;
  }

  lemma {:induction false} ActionIsCurrent(s: State, token: AlertToken, action: AlertAction)
    ensures AreCurrent(Acted(s, token, action))
  {
    hide State.ToSnapshot, State.IsCurrentAlert;
  }

  predicate SendsSnapshot(effects: seq<Effect>) {
    exists i :: 0 <= i < |effects| && effects[i].SendSnapshot?
  }

  /** A snapshot is sent, or nothing has changed but whether the slider is held and a restart pending. */
  predicate IsSentOrUnchanged(s: State, result: Reduction) {
    || SendsSnapshot(result.effects)
    || result.state == s.(gatePending := result.state.gatePending, sliderActive := result.state.sliderActive)
  }

  lemma {:induction false} SentOrUnchanged(s: State, event: Event)
    ensures IsSentOrUnchanged(s, Step(s, event))
  {
    hide ApplyEdit, Estimate.ApplyBaseFeeContext, Transaction.IsReadyForApproval, SetFeeForSpeed, State.ToSnapshot;
    hide Transaction.DecimalNonce, State.IsCurrentAlert, State.IsCurrent, State.CanEdit, State.CanApprove;
    hide SendsSnapshot, State.AcceptsUpdate, State.Begin, State.End, State.Install, State.InstallEstimate;
    hide Acted, SpeedChosen, Preflighted;
    SecondOrThird(Step(s, event).effects);
    match event {
      case PreflightFinished(token, result) => PreflightIsSent(s, token, result);
      case SpeedSet(units, info) => SpeedIsSent(s, units, info);
      case AlertActed(token, action) => ActionIsSent(s, token, action);
      case _ =>
    }
  }

  lemma {:induction false} PreflightIsSent(s: State, token: Token, result: PreflightResult)
    ensures IsSentOrUnchanged(s, Preflighted(s, token, result))
  {
    hide SendsSnapshot, State.IsCurrent, State.End, State.Install, State.InstallEstimate, State.ToSnapshot;
    SecondOrThird(Preflighted(s, token, result).effects);
  }

  lemma {:induction false} SpeedIsSent(s: State, units: nat, info: Info)
    ensures IsSentOrUnchanged(s, SpeedChosen(s, units, info))
  {
    hide SetFeeForSpeed, SendsSnapshot, State.Begin, State.ToSnapshot;
    SliderKeepsIdentity(s.transaction, units, info);
    SecondOrThird(SpeedChosen(s, units, info).effects);
  }

  lemma {:induction false} ActionIsSent(s: State, token: AlertToken, action: AlertAction)
    ensures IsSentOrUnchanged(s, Acted(s, token, action))
  {
    hide SendsSnapshot, State.IsCurrentAlert, State.Begin, State.ToSnapshot;
    SecondOrThird(Acted(s, token, action).effects);
  }

  lemma {:induction false} SecondOrThird(effects: seq<Effect>)
    ensures !SendsSnapshot(effects) ==>
      && (|effects| > 0 ==> !effects[0].SendSnapshot?)
      && (|effects| > 1 ==> !effects[1].SendSnapshot?)
      && (|effects| > 2 ==> !effects[2].SendSnapshot?)
  {
  }

  /** So a state whose snapshot has changed is always sent. */
  lemma {:induction false} ChangesAreSent(s: State, event: Event)
    ensures Step(s, event).state.ToSnapshot() == s.ToSnapshot() || SendsSnapshot(Step(s, event).effects)
  {
    hide Step, SendsSnapshot, Transaction.IsReadyForApproval, Estimate.SuggestedFee;
    SentOrUnchanged(s, event);
  }

  // ----- what an event hands out

  /** The effects after the cancellation or clearing that an event may begin with. */
  function OutputsOf(effects: seq<Effect>): seq<Effect> {
    if effects != [] && IsImmediate(effects[0]) then effects[1..] else effects
  }

  /** There is at most one snapshot, and at most an estimate comes before it. */
  predicate HasShape(outputs: seq<Effect>, snapshot: Snapshot) {
    forall i :: 0 <= i < |outputs| && outputs[i].SendSnapshot? ==>
      && outputs[i].snapshot == snapshot
      && (i == 0 || (i == 1 && outputs[0].SendEstimate?))
  }

  lemma {:induction false} OutputsHaveShape(s: State, event: Event)
    ensures HasShape(OutputsOf(Step(s, event).effects), Step(s, event).state.ToSnapshot())
  {
    hide Step, State.ToSnapshot;
    SnapshotsAreCurrent(s, event);
    SnapshotsComeEarly(s, event);
    var effects := Step(s, event).effects;
    forall i | 0 <= i < |OutputsOf(effects)|
      ensures OutputsOf(effects)[i] == effects[i + (|effects| - |OutputsOf(effects)|)]
    {
    }
  }

  predicate ComesEarly(effects: seq<Effect>, i: nat)
    requires i < |effects|
  {
    || i == 0
    || (i == 1 && (IsImmediate(effects[0]) || effects[0].SendEstimate?))
    || (i == 2 && IsImmediate(effects[0]) && effects[1].SendEstimate?)
  }

  lemma {:induction false} SnapshotsComeEarly(s: State, event: Event)
    ensures var effects := Step(s, event).effects;
      forall i :: 0 <= i < |effects| && effects[i].SendSnapshot? ==> ComesEarly(effects, i)
  {
    hide ApplyEdit, Estimate.ApplyBaseFeeContext, Transaction.IsReadyForApproval, SetFeeForSpeed, State.ToSnapshot;
    hide Transaction.DecimalNonce, Estimate.SuggestedFee, State.IsCurrentAlert, State.IsCurrent, State.CanEdit;
  }

  /** Only a preparation's estimate and the result of a preflight hand out an estimate. */
  lemma {:induction false} EstimatesComeFrom(s: State, event: Event)
    ensures var outputs := OutputsOf(Step(s, event).effects);
      outputs != [] && outputs[0].SendEstimate? ==> event.PreparationEstimate? || event.PreflightFinished?
  {
    hide ApplyEdit, Estimate.ApplyBaseFeeContext, Transaction.IsReadyForApproval, SetFeeForSpeed, State.ToSnapshot;
    hide Transaction.DecimalNonce, Estimate.SuggestedFee, State.IsCurrentAlert, State.IsCurrent, State.CanEdit;
  }

  // ----- the frames of a run

  function At(start: State, moves: seq<Move>, k: nat): World
    requires k <= |moves|
  {
    Runs(Begin(start), moves[..k])
  }

  /** The last move has sent an event, and none of its effects has run yet. */
  predicate HasJustSent(start: State, moves: seq<Move>) {
    moves != [] && moves[|moves| - 1].Sends? && At(start, moves, |moves|).stack != At(start, moves, |moves| - 1).stack
  }

  /** The effects of an event begin to run as soon as it has been reduced: no other event is sent in between. */
  predicate RunAtOnce(start: State, moves: seq<Move>)
    decreases |moves|
  {
    moves == [] ||
      (RunAtOnce(start, moves[..|moves| - 1])
       && (moves[|moves| - 1].Sends? ==> !HasJustSent(start, moves[..|moves| - 1])))
  }

  predicate Stays(w: World, i: nat, frame: Frame) {
    i < |w.stack| && w.stack[i] == frame
  }

  /** Move `m` sent an event that announced an estimate, and ever since the announcement the frame of that event has
      been waiting with its snapshot. */
  predicate IsInterrupted(start: State, moves: seq<Move>, m: nat, i: nat) {
    && m + 2 <= |moves| && moves[m].Sends? && moves[m + 1].Continues?
    && (moves[m].event.PreparationEstimate? || moves[m].event.PreflightFinished?)
    && |At(start, moves, m).stack| == i
    && var outputs := OutputsOf(Step(At(start, moves, m).reducer, moves[m].event).effects);
    && |outputs| > 1 && outputs[0].SendEstimate? && outputs[1].SendSnapshot?
    && forall j :: m + 2 <= j <= |moves| ==> Stays(At(start, moves, j), i, Effects(outputs[1..]))
  }

  predicate IsQuiet(effects: seq<Effect>) {
    forall i :: 0 <= i < |effects| ==> !effects[i].SendSnapshot?
  }

  /** A frame with a snapshot to hand out has either just begun or been interrupted after announcing an estimate. */
  ghost predicate IsTraced(start: State, moves: seq<Move>, i: nat) {
    var w := At(start, moves, |moves|);
    i < |w.stack| && w.stack[i].Effects? && !IsQuiet(w.stack[i].rest) ==>
      || (HasJustSent(start, moves) && i == |w.stack| - 1)
      || exists m :: IsInterrupted(start, moves, m, i)
  }

  lemma {:induction false} OneMoreMove(start: State, moves: seq<Move>)
    requires moves != []
    ensures At(start, moves, |moves|) == Next(At(start, moves, |moves| - 1), moves[|moves| - 1])
    ensures forall j :: 0 <= j < |moves| ==> At(start, moves[..|moves| - 1], j) == At(start, moves, j)
  {
    hide Next;
    assert moves[..|moves|] == moves;
    forall j | 0 <= j < |moves|
      ensures At(start, moves[..|moves| - 1], j) == At(start, moves, j)
    {
      assert moves[..|moves| - 1][..j] == moves[..j];
    }
  }

  lemma {:induction false} StaysInterrupted(start: State, moves: seq<Move>, m: nat, i: nat)
    requires moves != [] && IsInterrupted(start, moves[..|moves| - 1], m, i)
    requires i < |At(start, moves, |moves| - 1).stack|
    requires Stays(At(start, moves, |moves|), i, At(start, moves, |moves| - 1).stack[i])
    ensures IsInterrupted(start, moves, m, i)
  {
    hide Step, Runs, OutputsOf;
    var earlier := moves[..|moves| - 1];
    OneMoreMove(start, moves);
    var outputs := OutputsOf(Step(At(start, moves, m).reducer, moves[m].event).effects);
    forall j | m + 2 <= j <= |moves|
      ensures Stays(At(start, moves, j), i, Effects(outputs[1..]))
    {
      if j < |moves| {
        assert Stays(At(start, earlier, j), i, Effects(outputs[1..]));
      } else {
        assert Stays(At(start, earlier, |earlier|), i, Effects(outputs[1..]));
      }
    }
  }

  lemma {:induction false} SendingPushesOutputs(w: World, event: Event)
    ensures var outputs := OutputsOf(Step(w.reducer, event).effects);
      && Send(w, event).stack == w.stack + (if outputs == [] then [] else [Effects(outputs)])
      && Send(w, event).reducer == Step(w.reducer, event).state
  {
    hide Step;
  }

  /** Continuing leaves the frames below alone, and of the top one keeps what is still to run. */
  lemma {:induction false} ContinuingWorksOnTop(w: World, i: nat)
    requires i < |Next(w, Continues).stack|
    ensures var after := Next(w, Continues);
      || (i < |w.stack| && after.stack[i] == w.stack[i] && (w.stack != [] ==> i < |w.stack| - 1))
      || after.stack[i].Operation?
      || (i == |w.stack| - 1 && Top(w).Effects? && |Top(w).rest| > 1 && after.stack[i] == Effects(Top(w).rest[1..]))
  {
  }

  lemma {:induction false} ContinuingKeepsReducer(w: World)
    ensures Next(w, Continues).reducer == w.reducer
  {
  }

  /** What was just sent is on top, with all its outputs. */
  lemma {:induction false} JustSentIsOnTop(start: State, moves: seq<Move>)
    requires HasJustSent(start, moves)
    ensures var before, after := At(start, moves, |moves| - 1), At(start, moves, |moves|);
      var result := Step(before.reducer, moves[|moves| - 1].event);
      && OutputsOf(result.effects) != [] && after.stack == before.stack + [Effects(OutputsOf(result.effects))]
      && after.reducer == result.state
  {
    hide Step, Send, Runs, OutputsOf;
    OneMoreMove(start, moves);
    SendingPushesOutputs(At(start, moves, |moves| - 1), moves[|moves| - 1].event);
  }

  lemma {:induction false} SendingKeepsTraced(start: State, moves: seq<Move>, i: nat)
    requires moves != [] && moves[|moves| - 1].Sends?
    requires !HasJustSent(start, moves[..|moves| - 1])
    requires IsTraced(start, moves[..|moves| - 1], i)
    ensures IsTraced(start, moves, i)
  {
    hide Step, Send, Runs, OutputsOf, IsInterrupted, IsQuiet;
    var earlier := moves[..|moves| - 1];
    var before, after := At(start, moves, |moves| - 1), At(start, moves, |moves|);
    OneMoreMove(start, moves);
    assert At(start, earlier, |earlier|) == before;
    SendingPushesOutputs(before, moves[|moves| - 1].event);
    if i < |before.stack| && after.stack[i].Effects? && !IsQuiet(after.stack[i].rest) {
      var m: nat :| IsInterrupted(start, earlier, m, i);
      StaysInterrupted(start, moves, m, i);
    }
  }

  lemma {:induction false} ContinuingKeepsTraced(start: State, moves: seq<Move>, i: nat)
    requires moves != [] && moves[|moves| - 1].Continues?
    requires IsTraced(start, moves[..|moves| - 1], i)
    ensures IsTraced(start, moves, i)
  {
    hide Step, Next, Runs, OutputsOf, IsInterrupted, IsQuiet;
    var earlier := moves[..|moves| - 1];
    var before, after := At(start, moves, |moves| - 1), At(start, moves, |moves|);
    OneMoreMove(start, moves);
    assert At(start, earlier, |earlier|) == before;
    if i < |after.stack| && after.stack[i].Effects? && !IsQuiet(after.stack[i].rest) {
      ContinuingWorksOnTop(before, i);
      if after.stack[i] == before.stack[i] && i < |before.stack| - 1 {
        var m: nat :| IsInterrupted(start, earlier, m, i);
        StaysInterrupted(start, moves, m, i);
      } else {
        TopGoesOn(start, moves, i);
      }
    }
  }

  lemma {:induction false} TopGoesOn(start: State, moves: seq<Move>, i: nat)
    requires moves != [] && moves[|moves| - 1].Continues?
    requires IsTraced(start, moves[..|moves| - 1], i)
    requires var before, after := At(start, moves, |moves| - 1), At(start, moves, |moves|);
      && 0 < |before.stack| <= |after.stack| && i == |before.stack| - 1
      && Top(before).Effects? && |Top(before).rest| > 1
      && after.stack[i] == Effects(Top(before).rest[1..]) && !IsQuiet(after.stack[i].rest)
    ensures exists m :: IsInterrupted(start, moves, m, i)
  {
    hide Step, Next, Runs, OutputsOf, State.ToSnapshot;
    var earlier := moves[..|moves| - 1];
    var before, after := At(start, moves, |moves| - 1), At(start, moves, |moves|);
    OneMoreMove(start, moves);
    assert At(start, earlier, |earlier|) == before;
    var rest := Top(before).rest;
    var k :| 0 <= k < |rest[1..]| && rest[1..][k].SendSnapshot?;
    assert rest[k + 1].SendSnapshot?;
    assert !IsQuiet(rest);
    if HasJustSent(start, earlier) {
      JustSentIsOnTop(start, earlier);
      var m := |earlier| - 1;
      assert earlier[m] == moves[m] && At(start, earlier, m) == At(start, moves, m);
      OutputsHaveShape(At(start, moves, m).reducer, moves[m].event);
      EstimatesComeFrom(At(start, moves, m).reducer, moves[m].event);
      assert IsInterrupted(start, moves, m, i);
    } else {
      var m: nat :| IsInterrupted(start, earlier, m, i);
      OneSnapshotIsLeft(start, earlier, m, i);
      assert false;
    }
  }

  lemma {:induction false} OneSnapshotIsLeft(start: State, moves: seq<Move>, m: nat, i: nat)
    requires IsInterrupted(start, moves, m, i)
    ensures var w := At(start, moves, |moves|);
      i < |w.stack| && w.stack[i].Effects? && w.stack[i].rest != [] && IsQuiet(w.stack[i].rest[1..])
  {
    hide Step, Runs, OutputsOf, State.ToSnapshot;
    var outputs := OutputsOf(Step(At(start, moves, m).reducer, moves[m].event).effects);
    assert Stays(At(start, moves, |moves|), i, Effects(outputs[1..]));
    OutputsHaveShape(At(start, moves, m).reducer, moves[m].event);
    assert outputs[1..][1..] == outputs[2..];
  }

  lemma {:induction false} EveryFrameIsTraced(start: State, moves: seq<Move>, i: nat)
    requires RunAtOnce(start, moves)
    ensures IsTraced(start, moves, i)
    decreases |moves|
  {
    hide Next, IsTraced, HasJustSent;
    if moves == [] {
      NothingToTrace(start, i);
    } else {
      EveryFrameIsTraced(start, moves[..|moves| - 1], i);
      if moves[|moves| - 1].Sends? {
        SendingKeepsTraced(start, moves, i);
      } else {
        ContinuingKeepsTraced(start, moves, i);
      }
    }
  }

  lemma {:induction false} NothingToTrace(start: State, i: nat)
    ensures IsTraced(start, [], i)
  {
  }

  // ----- exactly when a snapshot is late

  /** The output that continuing hands out. */
  function NextOutput(w: World): Option<Effect> {
    if w.stack == [] || Top(w).Operation? || Top(w).rest == [] || IsRun(Top(w).rest[0]) || IsImmediate(Top(w).rest[0])
    then None else Some(Top(w).rest[0])
  }

  /** The reducer's snapshot is not the one it had when the event of move `m` had been reduced. */
  predicate HasChangedSince(start: State, moves: seq<Move>, m: nat)
    requires m < |moves|
  {
    At(start, moves, m + 1).reducer.ToSnapshot() != At(start, moves, |moves|).reducer.ToSnapshot()
  }

  predicate IsLateSince(start: State, moves: seq<Move>, m: nat) {
    && m < |moves| && HasChangedSince(start, moves, m)
    && At(start, moves, |moves|).stack != []
    && IsInterrupted(start, moves, m, |At(start, moves, |moves|).stack| - 1)
  }

  /** In every run, a snapshot that is handed out is of the current state, except exactly when the same frame has
      announced an estimate before it and the state's snapshot has changed since that announcement. */
  lemma {:induction false} SnapshotsAreLateExactly(start: State, moves: seq<Move>)
    requires RunAtOnce(start, moves)
    ensures var w := Runs(Begin(start), moves); var output := NextOutput(w);
      output.Some? && output.value.SendSnapshot? ==>
        (output.value.snapshot != w.reducer.ToSnapshot() <==> exists m :: IsLateSince(start, moves, m))
  {
    hide Step, Runs, OutputsOf, State.ToSnapshot, RunAtOnce;
    var w := Runs(Begin(start), moves);
    var output := NextOutput(w);
    assert moves[..|moves|] == moves;
    if output.Some? && output.value.SendSnapshot? {
      var i := |w.stack| - 1;
      EveryFrameIsTraced(start, moves, i);
      if HasJustSent(start, moves) {
        JustSentIsOnTop(start, moves);
        OutputsHaveShape(At(start, moves, |moves| - 1).reducer, moves[|moves| - 1].event);
      } else {
        var m: nat :| IsInterrupted(start, moves, m, i);
        SnapshotIsOfTheAnnouncement(start, moves, m);
        assert output.value.snapshot != w.reducer.ToSnapshot() ==> IsLateSince(start, moves, m);
      }
      forall m | IsLateSince(start, moves, m)
        ensures output.value.snapshot != w.reducer.ToSnapshot()
      {
        SnapshotIsOfTheAnnouncement(start, moves, m);
      }
    }
  }

  lemma {:induction false} SnapshotIsOfTheAnnouncement(start: State, moves: seq<Move>, m: nat)
    requires var w := At(start, moves, |moves|); w.stack != [] && IsInterrupted(start, moves, m, |w.stack| - 1)
    ensures var w := At(start, moves, |moves|);
      && Top(w).Effects? && Top(w).rest != [] && Top(w).rest[0].SendSnapshot?
      && Top(w).rest[0].snapshot == At(start, moves, m + 1).reducer.ToSnapshot()
  {
    hide Step, Runs, OutputsOf, Send, State.ToSnapshot;
    var w := At(start, moves, |moves|);
    var before, event := At(start, moves, m), moves[m].event;
    assert Stays(w, |w.stack| - 1, Top(w));
    OutputsHaveShape(before.reducer, event);
    var outputs := OutputsOf(Step(before.reducer, event).effects);
    assert Stays(At(start, moves, |moves|), |w.stack| - 1, Effects(outputs[1..]));
    var until := moves[..m + 1];
    assert until[..m] == moves[..m] && until[..m + 1] == moves[..m + 1];
    OneMoreMove(start, until);
    SendingPushesOutputs(before, event);
  }

  predicate ChangesSnapshot(start: State, moves: seq<Move>, j: nat)
    requires j < |moves|
  {
    && moves[j].Sends?
    && var s := At(start, moves, j).reducer;
       Step(s, moves[j].event).state.ToSnapshot() != s.ToSnapshot()
  }

  /** And what has changed it is an event sent after the announcement. */
  lemma {:induction false} LateMeansChangedDuring(start: State, moves: seq<Move>, m: nat)
    requires m + 1 < |moves| && moves[m + 1].Continues? && HasChangedSince(start, moves, m)
    ensures exists j :: m + 1 < j < |moves| && ChangesSnapshot(start, moves, j)
    decreases |moves|
  {
    hide Step, Runs, State.ToSnapshot;
    var last := |moves| - 1;
    var before := At(start, moves, last);
    OneMoreMove(start, moves);
    if moves[last].Continues? {
      ContinuingKeepsReducer(before);
    } else {
      SendingPushesOutputs(before, moves[last].event);
    }
    if !ChangesSnapshot(start, moves, last) {
      assert HasChangedSince(start, moves[..last], m);
      LateMeansChangedDuring(start, moves[..last], m);
      var j :| m + 1 < j < last && ChangesSnapshot(start, moves[..last], j);
      assert At(start, moves[..last], j) == At(start, moves, j);
      assert ChangesSnapshot(start, moves, j);
    }
  }

  // ----- a snapshot that does come late

  /** With callbacks a snapshot may come late: a listener that cancels when it is handed the estimate learns of the
      completion first, and then gets the snapshot of the preparation it has cancelled. */
  lemma {:induction false} SnapshotsMayComeLate(w: World, token: Token, estimate: Estimate)
    requires token.kind == ForPreparation && w.reducer.IsCurrent(token)
    ensures var announced := Next(Next(w, Sends(PreparationEstimate(token, estimate))), Continues);
      var cancelled := Next(announced, Sends(Finish(None)));
      var completed := Next(Next(cancelled, Continues), Continues);
      && Top(cancelled) == Effects([SendSnapshot(cancelled.reducer.ToSnapshot()), Complete(None)])
      && completed.reducer.phase == Finished
      && completed.stack != [] && Top(completed).Effects? && |Top(completed).rest| == 1
      && Top(completed).rest[0].SendSnapshot? && Top(completed).rest[0].snapshot.phase == Preparing
  {
    hide Next, State.ToSnapshot, Step;
    var announced := Next(Next(w, Sends(PreparationEstimate(token, estimate))), Continues);
    var cancelled := Next(announced, Sends(Finish(None)));
    EstimateAnnounced(w, token, estimate);
    CancelledMidway(announced);
    OutputSent(cancelled, SendSnapshot(cancelled.reducer.ToSnapshot()), [Complete(None)]);
    OutputSent(Next(cancelled, Continues), Complete(None), []);
    SnapshotHasPhase(announced.reducer);
  }

  lemma {:induction false} SnapshotHasPhase(s: State)
    ensures s.ToSnapshot().phase == s.phase
  {
  }

  lemma {:induction false} OutputSent(w: World, effect: Effect, rest: seq<Effect>)
    requires w.stack != [] && Top(w) == Effects([effect] + rest) && !IsRun(effect) && !IsImmediate(effect)
    ensures Next(w, Continues).reducer == w.reducer
    ensures Next(w, Continues).stack
         == w.stack[..|w.stack| - 1] + (if rest == [] then [] else [Effects(rest)])
  {
    assert ([effect] + rest)[1..] == rest;
  }

  lemma {:induction false} EstimateAnnounced(w: World, token: Token, estimate: Estimate)
    requires token.kind == ForPreparation && w.reducer.IsCurrent(token)
    ensures var announced := Next(Next(w, Sends(PreparationEstimate(token, estimate))), Continues);
      && announced.reducer.phase == Preparing
      && announced.stack == w.stack + [Effects([SendSnapshot(announced.reducer.ToSnapshot())])]
  {
    hide Estimate.ApplyBaseFeeContext, State.ToSnapshot;
    var sent := Next(w, Sends(PreparationEstimate(token, estimate)));
    var snapshot := SendSnapshot(sent.reducer.ToSnapshot());
    assert [SendEstimate(estimate)] + [snapshot] == [SendEstimate(estimate), snapshot];
    OutputSent(sent, SendEstimate(estimate), [snapshot]);
    assert sent.stack[..|sent.stack| - 1] == w.stack;
  }

  lemma {:induction false} CancelledMidway(w: World)
    requires w.reducer.phase != Finished
    ensures var cancelled := Next(w, Sends(Finish(None)));
      && cancelled.reducer.phase == Finished
      && cancelled.stack
         == w.stack + [Effects([SendSnapshot(cancelled.reducer.ToSnapshot())] + [Complete(None)])]
  {
    hide State.ToSnapshot;
    var effects := Step(w.reducer, Finish(None)).effects;
    assert effects[1..] == [effects[1]] + [effects[2]];
  }
}
