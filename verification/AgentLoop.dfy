/** Control skeleton of the agent tool loop: iteration bound, one-shot pressure step, cycle break. */
module AgentLoop {
  import opened Cycles
  import opened Wrappers

  datatype Config = Config(
    maxIterations: int, maxIsGlobal: bool, hardMaxCalls: int, heartbeat: bool,
    softMaxCalls: int, softPromptTokens: int, targetSeconds: int,
    pruningEnabled: bool, detectionEnabled: bool)

  /** What the outside world does in one iteration. `calls` empty means a final answer. */
  datatype Turn = Turn(
    cancelRequested: bool, elapsedSeconds: int, budgetBlocked: bool, cancelledDuringCall: bool, callFails: bool,
    promptTokens: int, calls: seq<Signature>, dispatchCancelledAfter: Option<nat>)

  /** How the loop was left. `Unbound`: no iteration ran, so the forced response has no iteration number. */
  datatype Exit = Cancelled | Blocked | Failed | Answered | CycleBroken(length: nat) | Exhausted | Unbound

  /** What one iteration did: the pressure step, a model call with the tool calls it recorded, or nothing. */
  datatype Step = Pressure | Called(recorded: seq<Signature>) | Idle

  function EffectiveMax(cfg: Config): (m: int)
    ensures cfg.hardMaxCalls > 0 ==> m <= cfg.hardMaxCalls
  {
    if cfg.hardMaxCalls > 0 then
      if cfg.heartbeat && cfg.maxIsGlobal then cfg.hardMaxCalls
      else if cfg.maxIterations <= cfg.hardMaxCalls then cfg.maxIterations else cfg.hardMaxCalls
    else cfg.maxIterations
  }

  /** With a maximum of zero iterations a run ends before its first one. */
  lemma ZeroLimitLeavesNone()
    ensures EffectiveMax(Config(0, false, 0, false, 0, 0, 0, true, true)) == 0
  {}

  predicate UnderPressure(cfg: Config, iteration: nat, tokens: int, elapsed: int) {
    || (cfg.softMaxCalls > 0 && iteration >= cfg.softMaxCalls)
    || (cfg.softPromptTokens > 0 && tokens >= cfg.softPromptTokens)
    || (cfg.targetSeconds > 0 && elapsed >= cfg.targetSeconds)
  }

  /** The tool calls dispatched, and so recorded, before a cancellation stops the dispatch. */
  function Dispatched(turn: Turn): seq<Signature> {
    var k := turn.dispatchCancelledAfter;
    if k.Some? && k.value < |turn.calls| then turn.calls[..k.value] else turn.calls
  }

  /** What an iteration does, given whether the pressure step was taken and the tokens spent before. */
  function StepOf(cfg: Config, turn: Turn, iteration: nat, slimmed: bool, tokens: int): Step {
    if turn.cancelRequested then Idle
    else if iteration > 0 && cfg.pruningEnabled && cfg.heartbeat && !slimmed
            && UnderPressure(cfg, iteration, tokens, turn.elapsedSeconds) then Pressure
    else if turn.budgetBlocked then Idle
    else if turn.cancelledDuringCall || turn.callFails then Called([])
    else Called(Dispatched(turn))
  }

  /** Why the iteration ends the run, cycles aside. */
  function Ending(turn: Turn, step: Step): Option<Exit> {
    if step.Pressure? then None
    else if turn.cancelRequested then Some(Cancelled)
    else if turn.budgetBlocked then Some(Blocked)
    else if turn.cancelledDuringCall then Some(Cancelled)
    else if turn.callFails then Some(Failed)
    else if turn.calls == [] then Some(Answered)
    else if Dispatched(turn) != turn.calls then Some(Cancelled)
    else None
  }

  /** Prompt tokens counted over the first `n` iterations of a run that went on after them. */
  function Tokens(world: nat -> Turn, log: seq<Step>, n: nat): int
    requires n <= |log|
  {
    if n == 0 then 0 else Tokens(world, log, n - 1) + (if log[n - 1].Called? then world(n - 1).promptTokens else 0)
  }

  /** The log is what the world's turns lead to, and none of the first `n` of them ended the run. */
  predicate Follows(cfg: Config, world: nat -> Turn, log: seq<Step>, n: nat) {
    && (forall i :: 0 <= i < |log| ==> StepAt(cfg, world, log, i))
    && (forall i :: 0 <= i < n && i < |log| ==> Ending(world(i), log[i]) == None)
  }

  lemma {:induction false} TokensPrefix(world: nat -> Turn, log: seq<Step>, step: Step, n: nat)
    requires n <= |log|
    ensures Tokens(world, log + [step], n) == Tokens(world, log, n)
  {
    if n > 0 { TokensPrefix(world, log, step, n - 1); }
  }

  /** What the present iteration is judged by. */
  predicate StepAt(cfg: Config, world: nat -> Turn, log: seq<Step>, i: nat)
    requires i < |log|
  {
    log[i] == StepOf(cfg, world(i), i, Pressured(log[..i]), Tokens(world, log, i))
  }

  lemma StepAtStays(cfg: Config, world: nat -> Turn, log: seq<Step>, step: Step, i: nat)
    requires i < |log|
    ensures StepAt(cfg, world, log + [step], i) <==> StepAt(cfg, world, log, i)
  {
    hide StepOf, Pressured;
    TokensPrefix(world, log, step, i);
    assert (log + [step])[..i] == log[..i];
  }

  lemma StepAtEnd(cfg: Config, world: nat -> Turn, log: seq<Step>, step: Step)
    ensures StepAt(cfg, world, log + [step], |log|) <==>
              step == StepOf(cfg, world(|log|), |log|, Pressured(log), Tokens(world, log, |log|))
    ensures Tokens(world, log + [step], |log| + 1)
         == Tokens(world, log, |log|) + (if step.Called? then world(|log|).promptTokens else 0)
  {
    hide StepOf, Pressured;
    TokensPrefix(world, log, step, |log|);
    assert (log + [step])[..|log|] == log;
  }

  lemma FollowsGrows(cfg: Config, world: nat -> Turn, log: seq<Step>, step: Step)
    requires Follows(cfg, world, log, |log|)
    requires step == StepOf(cfg, world(|log|), |log|, Pressured(log), Tokens(world, log, |log|))
    ensures Follows(cfg, world, log + [step], |log|)
    ensures Ending(world(|log|), step) == None ==> Follows(cfg, world, log + [step], |log| + 1)
    ensures Tokens(world, log + [step], |log| + 1)
         == Tokens(world, log, |log|) + (if step.Called? then world(|log|).promptTokens else 0)
  {
    hide StepOf, Ending, Pressured, StepAt;
    StepAtEnd(cfg, world, log, step);
    forall i | 0 <= i < |log| ensures StepAt(cfg, world, log + [step], i) { StepAtStays(cfg, world, log, step, i); }
  }

  /** All tool calls recorded by the first `n` iterations. */
  function Recorded(log: seq<Step>, n: nat): seq<Signature>
    requires n <= |log|
  {
    if n == 0 then []
    else Recorded(log, n - 1) + (if log[n - 1].Called? then log[n - 1].recorded else [])
  }

  function CallCount(log: seq<Step>): nat {
    if log == [] then 0 else CallCount(log[..|log| - 1]) + (if log[|log| - 1].Called? then 1 else 0)
  }

  lemma {:induction false} RecordedPrefix(log: seq<Step>, more: seq<Step>, n: nat)
    requires n <= |log|
    ensures Recorded(log + more, n) == Recorded(log, n)
  {
    if n > 0 { RecordedPrefix(log, more, n - 1); }
  }

  /** Consecutive calls that make a loop of period `p`. */
  function Needed(p: nat): nat { if p == 1 then 3 else 2 * p }

  /** No tail of the word is periodic for long enough to count as a loop. */
  ghost predicate NoLoop(w: seq<Signature>) {
    forall from: nat, p: nat :: p >= 1 && from <= |w| && Periodic(w, from, p) ==> |w| - from < Needed(p)
  }

  lemma QuietTraceHasNoLoop(w: seq<Signature>)
    requires |w| < 3 || Detects(w, 2, None)
    ensures NoLoop(w)
  {
    forall from: nat, p: nat | p >= 1 && from <= |w| && Periodic(w, from, p) ensures |w| - from < Needed(p) {
      if |w| - from >= Needed(p) {
        PeriodicMeets(w, from, p, 2);
        DetectsLeast(w, 2, None);
        assert false;
      }
    }
  }

  /** Pressure steps are taken in heartbeat runs only, never first, and at most once. */
  predicate OneShot(cfg: Config, log: seq<Step>) {
    && (forall i :: 0 <= i < |log| && log[i].Pressure? ==> i > 0 && cfg.heartbeat && cfg.pruningEnabled)
    && (forall i, j :: 0 <= i < j < |log| && log[i].Pressure? ==> !log[j].Pressure?)
  }

  /** No iteration left a trace with a loop behind. */
  ghost predicate Quiet(cfg: Config, log: seq<Step>) {
    cfg.detectionEnabled ==> forall n :: 0 <= n <= |log| ==> NoLoop(Recorded(log, n))
  }

  predicate Pressured(log: seq<Step>) { exists i :: 0 <= i < |log| && log[i].Pressure? }

  /** Properties of a run up to the present iteration. */
  ghost predicate Sound(cfg: Config, log: seq<Step>) { OneShot(cfg, log) && Quiet(cfg, log) }

  lemma OneShotGrows(cfg: Config, log: seq<Step>, step: Step)
    requires OneShot(cfg, log)
    requires step.Pressure? ==> log != [] && cfg.heartbeat && cfg.pruningEnabled && !Pressured(log)
    ensures OneShot(cfg, log + [step])
    ensures Pressured(log + [step]) <==> Pressured(log) || step.Pressure?
  {
    var grown := log + [step];
    assert grown[|log|] == step;
    assert forall i :: 0 <= i < |log| ==> grown[i] == log[i];
  }

  lemma RecordedGrows(log: seq<Step>, step: Step)
    ensures Recorded(log + [step], |log| + 1) == Recorded(log, |log|) + (if step.Called? then step.recorded else [])
    ensures CallCount(log + [step]) == CallCount(log) + (if step.Called? then 1 else 0)
  {
    RecordedPrefix(log, [step], |log|);
    assert (log + [step])[..|log|] == log;
  }

  lemma QuietGrows(cfg: Config, log: seq<Step>, step: Step)
    requires Quiet(cfg, log)
    requires step.Called? && cfg.detectionEnabled ==> NoLoop(Recorded(log, |log|) + step.recorded)
    ensures Quiet(cfg, log + [step])
  {
    hide NoLoop;
    var grown := log + [step];
    RecordedGrows(log, step);
    forall n | 0 <= n <= |log| ensures Recorded(grown, n) == Recorded(log, n) { RecordedPrefix(log, [step], n); }
    if !step.Called? { assert Recorded(grown, |grown|) == Recorded(log, |log|); }
  }

  /** Why the last iteration left the loop: its turn ended the run, or its trace ends in a cycle. */
  predicate Stopped(cfg: Config, turn: Turn, step: Step, trace: seq<Signature>, exit: Exit) {
    match Ending(turn, step)
    case Some(reason) => exit == reason
    case None => cfg.detectionEnabled && |trace| >= 3 && exit.CycleBroken? && Detects(trace, 2, Some(exit.length))
  }

  class AgentLoop {
    const cfg: Config
    const world: nat -> Turn
    var llmCalls: nat
    var slimmed: bool
    var promptTokens: int
    var trace: seq<Signature>
    ghost var log: seq<Step>

    constructor (cfg: Config, world: nat -> Turn)
      ensures this.cfg == cfg && this.world == world
      ensures llmCalls == 0 && !slimmed && promptTokens == 0 && trace == [] && log == []
    {
      this.cfg, this.world := cfg, world;
      llmCalls, slimmed, promptTokens, trace, log := 0, false, 0, [], [];
    }

    ghost predicate Running()
      reads this
    {
      && Sound(cfg, log)
      && trace == Recorded(log, |log|) && llmCalls == CallCount(log)
      && (slimmed <==> Pressured(log))
      && Follows(cfg, world, log, |log|) && promptTokens == Tokens(world, log, |log|)
    }

    /** One iteration, or the reason the loop was left in it. */
    method Iterate(iteration: nat) returns (exit: Option<Exit>)
      requires Running() && |log| == iteration
      modifies this
      ensures |log| == iteration + 1 && log[..iteration] == old(log)
      ensures exit == None ==> Running()
      ensures exit != None ==> Left(iteration, exit.value)
    {
      hide Sound, Pressured, Recorded, CallCount, Detects, Follows, Tokens;
      var turn := world(iteration);
      if turn.cancelRequested {
        exit := Leave(Idle, Cancelled);
        return;
      }
      if iteration > 0 && cfg.pruningEnabled {
        var pressure := cfg.heartbeat && !slimmed && UnderPressure(cfg, iteration, promptTokens, turn.elapsedSeconds);
        if pressure {
          slimmed := true;
          Continue(Pressure);
          return None;
        }
      }
      if turn.budgetBlocked {
        exit := Leave(Idle, Blocked);
        return;
      }
      exit := CallModel(turn);
    }

    /** The model call and the dispatch of its tool calls, then the cycle check. */
    method CallModel(turn: Turn) returns (exit: Option<Exit>)
      requires Running() && turn == world(|log|) && !turn.cancelRequested && !turn.budgetBlocked
      requires StepOf(cfg, turn, |log|, Pressured(log), promptTokens).Called?
      modifies this
      ensures |log| == |old(log)| + 1 && log[..|old(log)|] == old(log)
      ensures exit == None ==> Running()
      ensures exit != None ==> Left(|old(log)|, exit.value)
    {
      hide Sound, Pressured, Recorded, CallCount, NoLoop, Detects, Follows, Tokens, UnderPressure;
      llmCalls := llmCalls + 1;
      if turn.cancelledDuringCall || turn.callFails {
        exit := Leave(Called([]), if turn.cancelledDuringCall then Cancelled else Failed);
        return;
      }
      promptTokens := promptTokens + turn.promptTokens;
      if turn.calls == [] {
        exit := Leave(Called([]), Answered);
        return;
      }
      var recorded := Dispatched(turn);
      trace := trace + recorded;
      if recorded != turn.calls {
        exit := Leave(Called(recorded), Cancelled);
        return;
      }
      if cfg.detectionEnabled && |trace| >= 3 {
        var detected := DetectCycle(trace, 2);
        if detected.Some? {
          exit := Leave(Called(recorded), CycleBroken(detected.value));
          return;
        }
      }
      if cfg.detectionEnabled { QuietTraceHasNoLoop(trace); }
      Continue(Called(recorded));
      return None;
    }

    /** What holds when the loop is left in this iteration. */
    ghost predicate Left(iteration: nat, exit: Exit)
      requires |log| == iteration + 1
      reads this
    {
      && llmCalls == CallCount(log) && trace == Recorded(log, |log|)
      && !log[iteration].Pressure? && Follows(cfg, world, log, iteration)
      && Stopped(cfg, world(iteration), log[iteration], trace, exit)
    }

    /** The loop goes on after this step. */
    ghost method Continue(step: Step)
      requires Sound(cfg, log) && Follows(cfg, world, log, |log|)
      requires step == StepOf(cfg, world(|log|), |log|, Pressured(log), Tokens(world, log, |log|))
      requires Ending(world(|log|), step) == None
      requires promptTokens == Tokens(world, log, |log|) + (if step.Called? then world(|log|).promptTokens else 0)
      requires trace == Recorded(log, |log|) + (if step.Called? then step.recorded else [])
      requires llmCalls == CallCount(log) + (if step.Called? then 1 else 0)
      requires slimmed <==> Pressured(log) || step.Pressure?
      requires step.Pressure? ==> log != [] && cfg.heartbeat && cfg.pruningEnabled && !Pressured(log)
      requires step.Called? && cfg.detectionEnabled ==> NoLoop(trace)
      modifies this`log
      ensures Running() && log == old(log) + [step]
    {
      hide NoLoop, Pressured, StepOf, Ending, OneShot, Quiet, Recorded, CallCount, Follows, Tokens;
      FollowsGrows(cfg, world, log, step);
      OneShotGrows(cfg, log, step);
      RecordedGrows(log, step);
      QuietGrows(cfg, log, step);
      log := log + [step];
    }

    /** The iteration ends the loop after this step. */
    method Leave(ghost step: Step, reason: Exit) returns (exit: Option<Exit>)
      requires !step.Pressure? && Follows(cfg, world, log, |log|)
      requires step == StepOf(cfg, world(|log|), |log|, Pressured(log), Tokens(world, log, |log|))
      requires trace == Recorded(log, |log|) + (if step.Called? then step.recorded else [])
      requires llmCalls == CallCount(log) + (if step.Called? then 1 else 0)
      modifies this`log
      ensures exit == Some(reason) && log == old(log) + [step]
      ensures trace == Recorded(log, |log|) && llmCalls == CallCount(log)
      ensures Follows(cfg, world, log, |old(log)|)
    {
      hide StepOf, Ending, Pressured;
      FollowsGrows(cfg, world, log, step);
      RecordedGrows(log, step);
      log := log + [step];
      exit := Some(reason);
    }

    /** The whole run. Whatever the world does, the log has one entry per iteration and is what the
        world's turns lead to; it never exceeds the effective maximum; and every iteration but the
        last left a trace without a loop. */
    method Run() returns (exit: Exit)
      requires log == [] && trace == [] && llmCalls == 0 && !slimmed && promptTokens == 0
      modifies this
      ensures llmCalls == CallCount(log) && trace == Recorded(log, |log|)
      ensures EffectiveMax(cfg) > 0 ==> |log| <= EffectiveMax(cfg) && llmCalls <= EffectiveMax(cfg)
      ensures Pressured(log) ==> llmCalls < EffectiveMax(cfg)
      ensures OneShot(cfg, log)
      ensures if exit.Exhausted? || exit.Unbound? then Quiet(cfg, log) else log != [] && Quiet(cfg, log[..|log| - 1])
      ensures exit.Unbound? <==> EffectiveMax(cfg) <= 0
      ensures exit.Exhausted? ==> |log| == EffectiveMax(cfg)
      ensures if exit.Exhausted? || exit.Unbound? then Follows(cfg, world, log, |log|)
              else Follows(cfg, world, log, |log| - 1)
                   && Stopped(cfg, world(|log| - 1), log[|log| - 1], trace, exit)
    {
      EmptySound();
      hide Detects, Follows, Stopped, OneShot, Quiet, Recorded, CallCount, Pressured;
      var effectiveMax := EffectiveMax(cfg);
      if effectiveMax <= 0 {
        return Unbound;
      }
      var iteration := 0;
      while iteration < effectiveMax
        invariant 0 <= iteration <= effectiveMax && |log| == iteration && Running()
      {
        ghost var before := log;
        var left := Iterate(iteration);
        if left.Some? {
          assert log == before + [log[iteration]];
          OneShotGrows(cfg, before, log[iteration]);
          CallsBesidePressure(log);
          StoppedIsInside(cfg, world(iteration), log[iteration], trace, left.value);
          return left.value;
        }
        iteration := iteration + 1;
      }
      CallsBesidePressure(log);
      return Exhausted;
    }

    lemma EmptySound()
      ensures Follows(cfg, world, [], 0) && Tokens(world, [], 0) == 0
      ensures Sound(cfg, []) && Recorded([], 0) == [] && CallCount([]) == 0 && !Pressured([])
    {
      QuietTraceHasNoLoop([]);
    }
  }

  lemma StoppedIsInside(cfg: Config, turn: Turn, step: Step, trace: seq<Signature>, exit: Exit)
    requires Stopped(cfg, turn, step, trace, exit)
    ensures !exit.Exhausted? && !exit.Unbound?
  {}

  /** A pressure step makes no model call. */
  lemma {:induction false} CallsBesidePressure(log: seq<Step>)
    ensures CallCount(log) <= |log|
    ensures Pressured(log) ==> CallCount(log) < |log|
  {
    if log != [] {
      var before := log[..|log| - 1];
      CallsBesidePressure(before);
      assert Pressured(log) ==> Pressured(before) || log[|log| - 1].Pressure?;
    }
  }

  /** A run whose iterations but the last were quiet: once the calls recorded up to an iteration
      boundary end in a stretch of period `p` that makes a loop (3 calls for `p` 1, else `2p`), that
      iteration was the last. */
  lemma PeriodicRunBreaks(cfg: Config, log: seq<Step>, n: nat, from: nat, p: nat)
    requires cfg.detectionEnabled && log != [] && Quiet(cfg, log[..|log| - 1]) && n <= |log|
    requires p >= 1 && from <= |Recorded(log, n)| && Periodic(Recorded(log, n), from, p)
    ensures |Recorded(log, n)| - from >= (if p == 1 then 3 else 2 * p) ==> n == |log|
  {
    if n < |log| {
      var before := log[..|log| - 1];
      RecordedPrefix(before, [log[|log| - 1]], n);
      assert before + [log[|log| - 1]] == log;
      assert NoLoop(Recorded(before, n));
    }
  }

  // ---------------------------------------------------------------- in plain terms

  /** A hard limit caps the configured maximum, and replaces a global one in heartbeat runs. */
  lemma EffectiveMaxInPlainTerms(cfg: Config)
    ensures cfg.hardMaxCalls <= 0 ==> EffectiveMax(cfg) == cfg.maxIterations
    ensures cfg.hardMaxCalls > 0 && cfg.heartbeat && cfg.maxIsGlobal ==> EffectiveMax(cfg) == cfg.hardMaxCalls
    ensures cfg.hardMaxCalls > 0 && !(cfg.heartbeat && cfg.maxIsGlobal) ==>
              EffectiveMax(cfg) == if cfg.maxIterations < cfg.hardMaxCalls then cfg.maxIterations else cfg.hardMaxCalls
  {}

  /** Prompt tokens add up over the model calls. */
  lemma {:induction false} TokensInPlainTerms(world: nat -> Turn, log: seq<Step>, n: nat) returns (spent: seq<int>)
    requires n <= |log|
    ensures |spent| == n + 1 && spent[0] == 0
    ensures forall i, next :: 0 <= i < n && next == i + 1 ==>
              spent[next] == spent[i] + (if log[i].Called? then world(i).promptTokens else 0)
    ensures forall i :: 0 <= i <= n ==> Tokens(world, log, i) == spent[i]
  {
    spent := [0];
    if n > 0 {
      spent := TokensInPlainTerms(world, log, n - 1);
      spent := spent + [Tokens(world, log, n)];
    }
  }

  /** A soft limit is reached by the iterations, the tokens or the time of the run. */
  predicate SoftLimit(cfg: Config, iteration: nat, tokens: int, seconds: int) {
    || (cfg.softMaxCalls > 0 && iteration >= cfg.softMaxCalls)
    || (cfg.softPromptTokens > 0 && tokens >= cfg.softPromptTokens)
    || (cfg.targetSeconds > 0 && seconds >= cfg.targetSeconds)
  }

  /** What an iteration did, by what the world did in it. */
  lemma StepInPlainTerms(cfg: Config, world: nat -> Turn, log: seq<Step>, n: nat, i: nat)
    requires Follows(cfg, world, log, n) && i < |log|
    ensures var turn := world(i);
      var slims := i > 0 && cfg.pruningEnabled && cfg.heartbeat
                   && SoftLimit(cfg, i, Tokens(world, log, i), turn.elapsedSeconds)
                   && forall k :: 0 <= k < i ==> log[k] != Pressure;
      if turn.cancelRequested then log[i] == Idle
      else if slims then log[i] == Pressure
      else if turn.budgetBlocked then log[i] == Idle
      else if turn.cancelledDuringCall || turn.callFails then log[i] == Called([])
      else log[i].Called? && log[i].recorded <= turn.calls
           && (match turn.dispatchCancelledAfter
               case Some(k) => |log[i].recorded| == if k < |turn.calls| then k else |turn.calls|
               case None => log[i].recorded == turn.calls)
    ensures i < n && log[i] != Pressure ==>
              && !world(i).cancelRequested && !world(i).budgetBlocked
              && !world(i).cancelledDuringCall && !world(i).callFails
              && log[i] == Called(world(i).calls) && world(i).calls != []
  {
    hide Tokens, Follows;
    FollowsAt(cfg, world, log, n, i);
    assert forall k :: 0 <= k < i ==> log[..i][k] == log[k];
  }

  lemma FollowsAt(cfg: Config, world: nat -> Turn, log: seq<Step>, n: nat, i: nat)
    requires Follows(cfg, world, log, n) && i < |log|
    ensures StepAt(cfg, world, log, i) && (i < n ==> Ending(world(i), log[i]) == None)
  {
    hide StepAt, Ending;
  }

  /** The calls that a step recorded stand here in the trace. */
  predicate Piece(trace: seq<Signature>, step: Step, from: nat, to: nat) {
    from <= to <= |trace| && trace[from..to] == if step.Called? then step.recorded else []
  }

  /** The trace is the recorded calls of the iterations, one after the other. */
  lemma {:induction false} RecordedInPlainTerms(log: seq<Step>, n: nat) returns (at: seq<nat>)
    requires n <= |log|
    ensures |at| == n + 1 && at[0] == 0 && at[n] == |Recorded(log, n)|
    ensures forall i, next :: 0 <= i < n && next == i + 1 ==> Piece(Recorded(log, n), log[i], at[i], at[next])
  {
    hide Recorded, Piece;
    if n == 0 {
      at := [0];
      NothingRecorded(log);
    } else {
      var before := Recorded(log, n - 1);
      var earlier := RecordedInPlainTerms(log, n - 1);
      at := earlier + [|Recorded(log, n)|];
      forall i, next | 0 <= i < n && next == i + 1 ensures Piece(Recorded(log, n), log[i], at[i], at[next]) {
        if next < n { assert Piece(before, log[i], at[i], at[next]); }
        PieceStays(log, n, i, at[i], at[next]);
      }
    }
  }

  lemma NothingRecorded(log: seq<Step>)
    ensures Recorded(log, 0) == []
  {}

  lemma PieceStays(log: seq<Step>, n: nat, i: nat, from: nat, to: nat)
    requires i < n <= |log|
    ensures i < n - 1 && Piece(Recorded(log, n - 1), log[i], from, to) ==> Piece(Recorded(log, n), log[i], from, to)
    ensures i == n - 1 && from == |Recorded(log, n - 1)| && to == |Recorded(log, n)| ==>
              Piece(Recorded(log, n), log[i], from, to)
  {
    var before, last := Recorded(log, n - 1), if log[n - 1].Called? then log[n - 1].recorded else [];
    assert Recorded(log, n) == before + last;
    hide Recorded;
    assert from <= to <= |before| ==> (before + last)[from..to] == before[from..to];
  }

  /** The number of model calls is that of the iterations that made one. */
  lemma {:induction false} CallsInPlainTerms(log: seq<Step>) returns (at: seq<nat>)
    ensures forall a, b :: 0 <= a < b < |at| ==> at[a] < at[b]
    ensures forall k :: k in at <==> 0 <= k < |log| && log[k].Called?
    ensures CallCount(log) == |at|
  {
    at := [];
    if log != [] {
      var n := |log| - 1;
      at := CallsInPlainTerms(log[..n]);
      assert forall a :: 0 <= a < |at| ==> at[a] in at;
      if log[n].Called? { at := at + [n]; }
    }
  }

  /** Why a run was left, by what the world did in its last iteration and by the calls recorded. */
  lemma ExitInPlainTerms(cfg: Config, turn: Turn, step: Step, trace: seq<Signature>, exit: Exit)
    requires Stopped(cfg, turn, step, trace, exit) && !step.Pressure?
    ensures
      if turn.cancelRequested then exit == Cancelled
      else if turn.budgetBlocked then exit == Blocked
      else if turn.cancelledDuringCall then exit == Cancelled
      else if turn.callFails then exit == Failed
      else if turn.calls == [] then exit == Answered
      else if turn.dispatchCancelledAfter.Some? && turn.dispatchCancelledAfter.value < |turn.calls|
      then exit == Cancelled
      else exit.CycleBroken? && cfg.detectionEnabled && |trace| >= 3 && RepeatsAtEnd(trace, exit.length, 2)
           && forall p: nat :: p < exit.length ==> !RepeatsAtEnd(trace, p, 2)
  {
    hide Detects, RepeatsAtEnd;
    if exit.CycleBroken? { DetectsInPlainTerms(trace, 2, Some(exit.length)); }
  }
}
