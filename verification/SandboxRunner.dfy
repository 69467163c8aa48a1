/** One sandbox run: the patch step, then the commands until the first one that does not succeed. */
module SandboxRunner {
  import opened Prelude
  import opened JobTypes
  import A = PatchApplier

  datatype Input = Input(jobType: JobType, commands: seq<string>, patchSetId: Option<PatchSetId>, applyPatch: bool)

  datatype Ask = Yes | No | AskThrew
  datatype CommandRun = CommandRun(allowed: bool, exitCode: Option<int>, timedOut: bool, truncated: bool, aborted: bool)
  datatype Applier = NotConfigured | ApplierThrew | Answered(report: A.ApplyResult)

  // What one command meets: the cancel check, the run (None if it or its logging threw), the closing log line.
  datatype Turn = Turn(cancelled: Ask, run: Option<CommandRun>, noteOk: bool)

  // Everything the run asks of its surroundings; `allowed` is the run-time command check.
  datatype Env = Env(
    production: bool, atStart: Ask, workspaceReady: bool, applier: Applier, patchNoteOk: bool,
    allowed: string -> bool, turn: nat -> Turn, crashNoteOk: bool)

  datatype RunResult = RunResult(status: JobStatus, result: JobResult)

  const BLANK := JobResult(false, [], None, None, [], false, [], false, 0, 0, false)

  // ---- Meaning, independent of the order of evaluation ----

  predicate PatchStepPasses(input: Input, env: Env) {
    input.jobType == TestPatch ==>
      && input.patchSetId.Some? && env.patchNoteOk
      && (if input.applyPatch then env.applier.Answered? && env.applier.report.patchApplied else !env.production)
  }

  predicate ReachesCommands(input: Input, env: Env) {
    env.atStart == No && env.workspaceReady && PatchStepPasses(input, env)
  }

  predicate Succeeds(env: Env, command: string, t: Turn) {
    && t.cancelled == No && env.allowed(command)
    && t.run.Some? && t.run.value.allowed && t.run.value.exitCode == Some(0)
    && !t.run.value.timedOut && !t.run.value.aborted
  }

  ghost predicate AllSucceed(env: Env, commands: seq<string>, n: nat)
    requires n <= |commands|
  {
    forall k | 0 <= k < n :: Succeeds(env, commands[k], env.turn(k))
  }

  // The first turn that does not succeed, or the number of commands.
  function FirstStop(env: Env, commands: seq<string>, i: nat): (n: nat)
    requires i <= |commands|
    ensures i <= n <= |commands| && forall k | i <= k < n :: Succeeds(env, commands[k], env.turn(k))
    ensures n < |commands| ==> !Succeeds(env, commands[n], env.turn(n))
    decreases |commands| - i
  {
    if i < |commands| && Succeeds(env, commands[i], env.turn(i)) then FirstStop(env, commands, i + 1) else i
  }

  // The status of a run that stops at this turn.
  function StopStatus(env: Env, command: string, t: Turn): JobStatus {
    if t.cancelled == Yes && t.noteOk then Cancelled
    else if t.cancelled != No || !env.allowed(command) || t.run == None then Failed
    else if t.run.value.aborted then if t.noteOk then Cancelled else Failed
    else if t.run.value.timedOut then TimedOut
    else Failed
  }

  // The outcome line a turn leaves, if it gets that far.
  function OutcomeOf(env: Env, command: string, t: Turn): Option<CommandOutcome> {
    if t.cancelled != No then None
    else if !env.allowed(command) then if t.noteOk then Some(CommandOutcome(command, None, false, false)) else None
    else if t.run == None then None
    else Some(CommandOutcome(command, t.run.value.exitCode, t.run.value.timedOut, t.run.value.truncated))
  }

  // The outcome lines of the commands before `first`, and of `first` when it left one.
  ghost predicate OutcomesUpTo(env: Env, commands: seq<string>, first: nat, outcomes: seq<CommandOutcome>)
    requires first <= |commands|
  {
    && first <= |outcomes| <= first + 1
    && (forall k | 0 <= k < first :: Some(outcomes[k]) == OutcomeOf(env, commands[k], env.turn(k)))
    && (if first < |commands| && OutcomeOf(env, commands[first], env.turn(first)).Some?
        then |outcomes| == first + 1 && Some(outcomes[first]) == OutcomeOf(env, commands[first], env.turn(first))
        else |outcomes| == first)
  }

  // ---- The same, said of what a turn meets ----

  // The command was asked for, ran and ended well.
  ghost predicate RanWell(env: Env, command: string, t: Turn) {
    && t.cancelled == No && env.allowed(command)
    && t.run.Some? && t.run.value.allowed && t.run.value.exitCode == Some(0) && !t.run.value.timedOut && !t.run.value.aborted
  }

  // Cancelled: the cancel was seen before the command, or its run was aborted, and that could be logged. Timed out: the
  // run was, without an abort. Failed: every other way not to run well.
  ghost predicate StopsAs(env: Env, command: string, t: Turn, status: JobStatus) {
    var aborted := t.cancelled == No && env.allowed(command) && t.run.Some? && t.run.value.aborted;
    && (status == Cancelled <==> t.noteOk && (t.cancelled == Yes || aborted))
    && (status == TimedOut <==> t.cancelled == No && env.allowed(command) && t.run.Some? && t.run.value.timedOut && !aborted)
    && (status == Failed <==> status != Cancelled && status != TimedOut)
  }

  // A command that was not let run leaves a line without exit code if that could be logged, one that ran leaves its own.
  ghost predicate LeavesLine(env: Env, command: string, t: Turn, line: Option<CommandOutcome>) {
    && (line.Some? <==> t.cancelled == No && (if env.allowed(command) then t.run.Some? else t.noteOk))
    && (line.Some? ==> line.value.command == command)
    && (line.Some? && !env.allowed(command) ==> line.value.exitCode == None && !line.value.timedOut && !line.value.truncated)
    && (line.Some? && env.allowed(command) ==>
          && line.value.exitCode == t.run.value.exitCode && line.value.timedOut == t.run.value.timedOut
          && line.value.truncated == t.run.value.truncated)
  }

  // The lines of a run that stops at command `stop`: one for each before it, and that of its own if it leaves one.
  ghost predicate LinesFit(env: Env, commands: seq<string>, stop: nat, lines: seq<CommandOutcome>)
    requires stop <= |commands|
  {
    && |lines| >= stop
    && (forall k | 0 <= k < stop :: LeavesLine(env, commands[k], env.turn(k), Some(lines[k])))
    && (if stop < |commands| then
          (|lines| == stop && LeavesLine(env, commands[stop], env.turn(stop), None))
          || (|lines| == stop + 1 && LeavesLine(env, commands[stop], env.turn(stop), Some(lines[stop])))
        else |lines| == stop)
  }

  // The commands ran well up to `stop`, and the one there did not.
  ghost predicate RunsUpTo(env: Env, commands: seq<string>, stop: nat) {
    && stop <= |commands| && (forall k | 0 <= k < stop :: RanWell(env, commands[k], env.turn(k)))
    && (stop < |commands| ==> !RanWell(env, commands[stop], env.turn(stop)))
  }

  lemma TurnMeans(env: Env, command: string, t: Turn)
    ensures Succeeds(env, command, t) <==> RanWell(env, command, t)
    ensures !RanWell(env, command, t) ==> StopsAs(env, command, t, StopStatus(env, command, t))
    ensures LeavesLine(env, command, t, OutcomeOf(env, command, t))
  {
  }

  lemma StopMeans(env: Env, commands: seq<string>, lines: seq<CommandOutcome>)
    requires OutcomesUpTo(env, commands, FirstStop(env, commands, 0), lines)
    ensures var stop := FirstStop(env, commands, 0);
            && RunsUpTo(env, commands, stop) && LinesFit(env, commands, stop, lines)
            && (stop < |commands| ==> StopsAs(env, commands[stop], env.turn(stop), StopStatus(env, commands[stop], env.turn(stop))))
  {
    var stop := FirstStop(env, commands, 0);
    forall k | 0 <= k < stop ensures RanWell(env, commands[k], env.turn(k)) && LeavesLine(env, commands[k], env.turn(k), Some(lines[k])) {
      TurnMeans(env, commands[k], env.turn(k));
    }
    if stop < |commands| { TurnMeans(env, commands[stop], env.turn(stop)); }
  }

  // A patch job has its patch applied and that logged, or, outside production, asks for none to be applied.
  ghost predicate PatchInPlace(input: Input, env: Env) {
    input.jobType == TestPatch ==>
      && input.patchSetId.Some? && env.patchNoteOk
      && ((input.applyPatch && env.applier.Answered? && env.applier.report.patchApplied) || (!input.applyPatch && !env.production))
  }

  // The whole answer: before the commands the run is cancelled or fails without lines; after that it passes iff
  // every command ran well, and otherwise ends as the first that did not.
  ghost predicate AnswersTheRun(input: Input, env: Env, out: RunResult) {
    && (out.result.passed <==> out.status == Passed)
    && (if env.atStart == Yes then out.status == Cancelled && out.result.commands == [] && !out.result.cancelledBySignal
        else if env.atStart == AskThrew || !env.workspaceReady || !PatchInPlace(input, env)
        then out.status == Failed && out.result.commands == [] && !out.result.cancelledBySignal
        else exists stop: nat :: EndsAt(input, env, stop, out))
  }

  ghost predicate EndsAt(input: Input, env: Env, stop: nat, out: RunResult) {
    && RunsUpTo(env, input.commands, stop) && LinesFit(env, input.commands, stop, out.result.commands)
    && (stop == |input.commands| ==> out.status == Passed && !out.result.cancelledBySignal)
    && (stop < |input.commands| ==>
          var t := env.turn(stop);
          && StopsAs(env, input.commands[stop], t, out.status)
          && (out.result.cancelledBySignal <==> t.cancelled == No && env.allowed(input.commands[stop]) && t.run.Some? && t.run.value.aborted))
  }

  // ---- The run ----

  // The patch step: whether commands may follow, and what the applier reported.
  method PatchStep(input: Input, env: Env) returns (ok: bool, threw: bool, report: Option<A.ApplyResult>)
    ensures ok && !threw <==> PatchStepPasses(input, env)
    ensures report == if input.jobType == TestPatch && input.patchSetId.Some? && input.applyPatch && env.applier.Answered?
                      then Some(env.applier.report) else None
  {
    ok, threw, report := true, false, None;
    if input.jobType != TestPatch { return; }
    if input.patchSetId == None {
      ok := false;
    } else if !input.applyPatch {
      ok := !env.production;
    } else if env.applier == NotConfigured {
      ok := false;
    } else if env.applier == ApplierThrew {
      return true, true, None;
    } else {
      report := Some(env.applier.report);
      ok := env.applier.report.patchApplied;
    }
    threw := !env.patchNoteOk;
  }

  // The command loop: it ends at the first turn that does not succeed.
  method RunCommands(env: Env, commands: seq<string>)
    returns (status: JobStatus, outcomes: seq<CommandOutcome>, signalled: bool, threw: bool)
    ensures var stop := FirstStop(env, commands, 0);
            && (if threw then Failed else status) ==
               (if stop < |commands| then StopStatus(env, commands[stop], env.turn(stop)) else Passed)
            && OutcomesUpTo(env, commands, stop, outcomes)
            && (signalled <==> stop < |commands| && OutcomeOf(env, commands[stop], env.turn(stop)).Some?
                               && env.allowed(commands[stop]) && env.turn(stop).run.value.aborted)
  {
    status, outcomes, signalled, threw := Passed, [], false, false;
    for i := 0 to |commands|
      invariant status == Passed && !signalled && !threw
      invariant FirstStop(env, commands, 0) == FirstStop(env, commands, i) && |outcomes| == i
      invariant forall k | 0 <= k < i :: Some(outcomes[k]) == OutcomeOf(env, commands[k], env.turn(k))
    {
      var command, turn := commands[i], env.turn(i);
      if turn.cancelled == AskThrew { threw := true; return; }
      if turn.cancelled == Yes { status, threw := Cancelled, !turn.noteOk; return; }
      if !env.allowed(command) {
        status := Failed;
        if turn.noteOk { outcomes := outcomes + [CommandOutcome(command, None, false, false)]; } else { threw := true; }
        return;
      }
      if turn.run == None { threw := true; return; }
      var run := turn.run.value;
      outcomes := outcomes + [CommandOutcome(command, run.exitCode, run.timedOut, run.truncated)];
      if run.aborted { signalled, status, threw := true, Cancelled, !turn.noteOk; return; }
      if run.timedOut { status := TimedOut; return; }
      if !run.allowed || run.exitCode != Some(0) { status := Failed; return; }
    }
  }

  /**
   * The whole run; None when even the error path failed to log. It passes iff nothing was cancelled,
   * the patch step passed and every command succeeded; otherwise it stops at the first that did not.
   */
  method RunSandboxJob(input: Input, env: Env) returns (out: Option<RunResult>)
    ensures out.Some? && out.value.status == Passed <==>
            ReachesCommands(input, env) && AllSucceed(env, input.commands, |input.commands|)
    ensures out.Some? ==>
              && (out.value.result.passed <==> out.value.status == Passed)
              && (ReachesCommands(input, env) ==>
                    var stop := FirstStop(env, input.commands, 0);
                    && OutcomesUpTo(env, input.commands, stop, out.value.result.commands)
                    && (stop < |input.commands| ==> out.value.status == StopStatus(env, input.commands[stop], env.turn(stop))))
              && (!ReachesCommands(input, env) ==>
                    (out.value.result.commands == [] && out.value.status == if env.atStart == Yes then Cancelled else Failed))
    ensures out.Some? ==> AnswersTheRun(input, env, out.value)
    ensures out == None ==> !env.crashNoteOk
    ensures out.Some? && input.jobType == TestPatch && env.atStart == No && env.workspaceReady
            && input.patchSetId.Some? && input.applyPatch
            && env.applier.Answered? ==>
              var report, result := env.applier.report, out.value.result;
              && result.patchApplied == Some(report.patchApplied) && result.baseHashChecked == report.baseHashChecked
              && result.changedFiles == report.changedFiles && result.errors == report.errors
    ensures out.Some? && out.value.result.patchApplied == Some(true) ==>
              input.jobType == TestPatch && input.applyPatch && env.applier.Answered? && env.applier.report.patchApplied
    ensures out.Some? && input.jobType == TestPatch && env.atStart != Yes ==>
              out.value.result.patchApplied.Some? && out.value.result.patchSetId == input.patchSetId
  {
    if env.atStart == Yes { return Some(RunResult(Cancelled, BLANK)); }
    var status, outcomes, signalled, threw := Passed, [], false, env.atStart == AskThrew || !env.workspaceReady;
    var report: Option<A.ApplyResult> := None;
    if !threw {
      var ok;
      ok, threw, report := PatchStep(input, env);
      if !ok { status := Failed; }
      if ok && !threw {
        status, outcomes, signalled, threw := RunCommands(env, input.commands);
        StopMeans(env, input.commands, outcomes);
        assert RunsUpTo(env, input.commands, FirstStop(env, input.commands, 0));
      }
    }
    if threw {
      status := Failed;
      if !env.crashNoteOk { return None; }
    }
    var isPatch := input.jobType == TestPatch;
    var result := BLANK.(passed := status == Passed, commands := outcomes, cancelledBySignal := signalled,
      patchApplied := if isPatch then Some(report.Some? && report.value.patchApplied) else None,
      patchSetId := if isPatch then input.patchSetId else None);
    if isPatch && report.Some? {
      result := result.(changedFiles := report.value.changedFiles, baseHashChecked := report.value.baseHashChecked, errors := report.value.errors);
    }
    out := Some(RunResult(status, result));
    if ReachesCommands(input, env) { assert EndsAt(input, env, FirstStop(env, input.commands, 0), out.value); }
  }
}
