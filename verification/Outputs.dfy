/** What listeners are handed: every output of every event, once, however outputs and operations call back. */
module Outputs {
  import opened Wrappers
  import opened Fees
  import opened FeeResolution
  import opened ApprovalState
  import opened Edits
  import opened ApprovalRuns
  import opened Coordinator
  import opened Snapshots

  /** How often `output` is among some effects. */
  function CountIn(effects: seq<Effect>, output: Effect): nat {
    if effects == [] then 0 else (if effects[0] == output then 1 else 0) + CountIn(effects[1..], output)
  }

  /** How often the frames have still to hand it out. */
  function Waiting(stack: seq<Frame>, output: Effect): nat {
    if stack == [] then 0
    else Waiting(stack[..|stack| - 1], output) + CountInFrame(stack[|stack| - 1], output)
  }

  function CountInFrame(frame: Frame, output: Effect): nat {
    if frame.Effects? then CountIn(frame.rest, output) else 0
  }

  /** How often it is an effect of the events that were sent. */
  function Due(start: State, moves: seq<Move>, output: Effect): nat
    decreases |moves|
  {
    if moves == [] then 0
    else
      var earlier, move := moves[..|moves| - 1], moves[|moves| - 1];
      Due(start, earlier, output)
      + if move.Sends? then CountIn(Step(Runs(Begin(start), earlier).reducer, move.event).effects, output) else 0
  }

  /** How often it has been handed out. */
  function HandedOut(start: State, moves: seq<Move>, output: Effect): nat
    decreases |moves|
  {
    if moves == [] then 0
    else
      var earlier, move := moves[..|moves| - 1], moves[|moves| - 1];
      HandedOut(start, earlier, output)
      + if move.Continues? && NextOutput(Runs(Begin(start), earlier)) == Some(output) then 1 else 0
  }

  lemma {:induction false} WaitingOnTop(stack: seq<Frame>, frame: Frame, output: Effect)
    ensures Waiting(stack + [frame], output) == Waiting(stack, output) + CountInFrame(frame, output)
  {
    assert (stack + [frame])[..|stack|] == stack;
  }

  lemma {:induction false} WaitingBelow(stack: seq<Frame>, output: Effect)
    ensures stack == [] ==> Waiting(stack, output) == 0
    ensures stack != [] ==>
      Waiting(stack, output) == Waiting(stack[..|stack| - 1], output) + CountInFrame(stack[|stack| - 1], output)
  {
  }

  lemma {:induction false} CountFirst(effects: seq<Effect>, output: Effect)
    ensures effects == [] ==> CountIn(effects, output) == 0
    ensures effects != [] ==>
      CountIn(effects, output) == CountIn(effects[1..], output) + if effects[0] == output then 1 else 0
  {
  }

  predicate IsOutput(effect: Effect) {
    !IsRun(effect) && !IsImmediate(effect)
  }

  lemma {:induction false} SendingAddsItsOutputs(w: World, event: Event, output: Effect)
    requires IsOutput(output)
    ensures Waiting(Send(w, event).stack, output)
         == Waiting(w.stack, output) + CountIn(Step(w.reducer, event).effects, output)
  {
    hide Step, Send, Waiting, CountIn;
    var effects := Step(w.reducer, event).effects;
    SendingPushesOutputs(w, event);
    CountFirst(effects, output);
    CountFirst(OutputsOf(effects), output);
    WaitingOnTop(w.stack, Effects(OutputsOf(effects)), output);
    assert w.stack + [] == w.stack;
  }

  /** Continuing takes the first effect of the top frame, and may put an operation on top. */
  lemma {:induction false} ContinuingTakesTheFirst(w: World)
    requires w.stack != [] && Top(w).Effects? && Top(w).rest != []
    ensures var below, rest := w.stack[..|w.stack| - 1], Top(w).rest[1..];
      var left := below + (if rest == [] then [] else [Effects(rest)]);
      var after := Next(w, Continues).stack;
      after == left || after == left + [Operation(|w.requests|)]
  {
  }

  lemma {:induction false} ContinuingOtherwise(w: World)
    requires w.stack == [] || Top(w).Operation? || Top(w).rest == []
    ensures Next(w, Continues).stack == (if w.stack == [] then [] else w.stack[..|w.stack| - 1])
  {
  }

  lemma {:induction false} ContinuingHandsOut(w: World, output: Effect)
    requires IsOutput(output)
    ensures Waiting(w.stack, output)
         == Waiting(Next(w, Continues).stack, output) + if NextOutput(w) == Some(output) then 1 else 0
  {
    hide Next, CountIn, Waiting, IsRun, IsImmediate;
    WaitingBelow(w.stack, output);
    if w.stack == [] || Top(w).Operation? || Top(w).rest == [] {
      ContinuingOtherwise(w);
      CountFirst([], output);
    } else {
      var below, rest := w.stack[..|w.stack| - 1], Top(w).rest;
      ContinuingTakesTheFirst(w);
      CountFirst(rest, output);
      CountFirst(rest[1..], output);
      WaitingOnTop(below, Effects(rest[1..]), output);
      var left := below + (if rest[1..] == [] then [] else [Effects(rest[1..])]);
      WaitingOnTop(left, Operation(|w.requests|), output);
      assert rest[1..] == [] ==> left == below;
    }
  }

  /** Nothing is lost and nothing said twice: at any time, every output has been handed out, or has still to be, as
      often as the events sent so far have it among their effects; once all has returned, it has been handed out as
      often. */
  lemma {:induction false} EverythingIsHandedOut(start: State, moves: seq<Move>, output: Effect)
    requires IsOutput(output)
    ensures HandedOut(start, moves, output) + Waiting(Runs(Begin(start), moves).stack, output)
         == Due(start, moves, output)
    ensures Runs(Begin(start), moves).stack == [] ==> HandedOut(start, moves, output) == Due(start, moves, output)
    decreases |moves|
  {
    hide Step, Next, CountIn, Send, NextOutput, Waiting, IsOutput;
    WaitingBelow(Runs(Begin(start), moves).stack, output);
    if moves != [] {
      var earlier, move := moves[..|moves| - 1], moves[|moves| - 1];
      var w := Runs(Begin(start), earlier);
      EverythingIsHandedOut(start, earlier, output);
      if move.Sends? {
        SendingAddsItsOutputs(w, move.event, output);
        NextSends(w, move);
      } else {
        ContinuingHandsOut(w, output);
      }
    }
  }
}
