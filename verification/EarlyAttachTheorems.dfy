/** Attaching a job to a foreground process whose runner has not returned Interrupted: when
    it can end with a completion callback that gets the zero value, and when it cannot. */
module EarlyAttachTheorems {
  import opened Wrappers
  import opened JobExecutor
  import opened JobExecutorTheorems

  // ------------------------------------------------------------------ every entry has a runner

  /** Thread `t` runs the process that foreground entry `k` names. */
  ghost predicate Runs(s: State, t: nat, k: Key) {
    && k in s.foreground && t < |s.threads| && s.threads[t].process == s.foreground[k]
    && !JobPc(s.threads[t].pc) && Live(s.threads[t].pc) && s.threads[t].pc.key == k
  }

  ghost predicate HasRunner(s: State, k: Key) { exists t: nat :: Runs(s, t, k) }

  /** A foreground entry was left behind by an interrupted runner or still has its own. */
  ghost predicate Attended(s: State)
    requires WellFormed(s)
  {
    forall k | k in s.foreground :: s.processes[s.foreground[k]].detached || HasRunner(s, k)
  }

  lemma ThreadStepAttends(s: State, step: Step, s': State, k: Key)
    requires Inv(s) && Attended(s) && ThreadStep(step) && Do(s, step) == Some(s') && k in s'.foreground
    ensures s'.processes[s'.foreground[k]].detached || HasRunner(s', k)
  {
    var t := step.t;
    assert ThreadInv(s, t);
    StepActs(s, step, t, s');
    if !s.processes[s.foreground[k]].detached {
      var u: nat :| Runs(s, u, k);
      if u != t {
        assert Runs(s', u, k);
      } else {
        RunHasEffect(s, step, t, s');
        RunnerStays(s, step, t, s', k);
      }
    }
  }

  lemma StepActs(s: State, step: Step, t: nat, s': State)
    requires Inv(s) && ThreadStep(step) && step.t == t && Do(s, step) == Some(s')
    ensures t < |s.threads| && Acts(s, t, s')
  {
    assert ThreadInv(s, t);
    if JobPc(s.threads[t].pc) {
      JobHasEffect(s, step, t, s');
      JobStepActs(s, step, t, s');
    } else {
      RunHasEffect(s, step, t, s');
      RunStepActs(s, step, t, s');
    }
  }

  lemma RunnerMoves(s: State, t: nat, pc: Pc, process: Process, k: Key)
    requires WellFormed(s) && Runs(s, t, k)
    requires process.detached || (!JobPc(pc) && Live(pc) && pc.key == k)
    ensures Moved(s, t, pc, process).processes[s.foreground[k]].detached || HasRunner(Moved(s, t, pc, process), k)
  {
    if !process.detached { assert Runs(Moved(s, t, pc, process), t, k); }
  }

  /** A runner keeps its entry, leaves the process behind, or removes the entry. */
  lemma RunnerStays(s: State, step: Step, t: nat, s': State, k: Key)
    requires WellFormed(s) && Runs(s, t, k) && RunEffect(s, step, t, s') && k in s'.foreground
    ensures s'.foreground[k] < |s'.processes| && (s'.processes[s'.foreground[k]].detached || HasRunner(s', k))
  {
    var pc := s.threads[t].pc;
    if step.Receive? {
      assert Runs(s', t, k);
    } else if pc.RunReserved? || pc.RunSelecting? {
      var m := RunMove(s.processes[s.threads[t].process], pc, step);
      RunnerMoves(s, t, m.1, m.0, k);
    }
  }

  /** Others leave a runner and its entry alone. */
  lemma RunnerUntouched(s: State, s': State, k: Key)
    requires WellFormed(s) && k in s.foreground && k in s'.foreground && s'.foreground[k] == s.foreground[k] && s.threads <= s'.threads
    requires HasRunner(s, k)
    ensures HasRunner(s', k)
  {
    var u: nat :| Runs(s, u, k);
    assert Runs(s', u, k);
  }

  lemma CallKeepsEntry(s: State, step: Step, s': State, k: Key)
    requires WellFormed(s) && ProcessesOk(s) && !ThreadStep(step) && Do(s, step) == Some(s') && k in s.foreground && k in s'.foreground
    ensures s'.foreground[k] == s.foreground[k] && s.threads <= s'.threads
    ensures s'.processes[s.foreground[k]].detached == s.processes[s.foreground[k]].detached
  {
  }

  lemma CallAttends(s: State, step: Step, s': State, k: Key)
    requires Inv(s) && Attended(s) && !ThreadStep(step) && Do(s, step) == Some(s') && k in s'.foreground
    ensures s'.processes[s'.foreground[k]].detached || HasRunner(s', k)
  {
    if k !in s.foreground {
      assert Runs(s', |s.threads|, k);
    } else {
      CallKeepsEntry(s, step, s', k);
      if HasRunner(s, k) { RunnerUntouched(s, s', k); }
    }
  }

  lemma {:induction false} RunKeepsAttended(s: State, steps: seq<Step>)
    requires Inv(s) && Attended(s) && Orderly(s, steps) && Exec(s, steps).Some?
    ensures Inv(Exec(s, steps).value) && Attended(Exec(s, steps).value)
    decreases |steps|
  {
    if steps != [] {
      var s' := Do(s, steps[0]).value;
      StepKeepsInv(s, steps[0]);
      forall k | k in s'.foreground ensures s'.processes[s'.foreground[k]].detached || HasRunner(s', k) {
        if ThreadStep(steps[0]) { ThreadStepAttends(s, steps[0], s', k); } else { CallAttends(s, steps[0], s', k); }
      }
      RunKeepsAttended(s', steps[1..]);
    }
  }

  // ------------------------------------------------------------------ how the zero value gets through

  /** Some continuation calls the callback of `u` with the zero value. */
  ghost predicate CanCallZero(s: State, u: nat)
    requires WellFormed(s)
  {
    exists steps :: ZeroAfter(s, steps, u)
  }

  ghost predicate ZeroAfter(s: State, steps: seq<Step>, u: nat)
    requires WellFormed(s)
  {
    Exec(s, steps).Some? && Completion(u, None) in Exec(s, steps).value.completions
  }

  lemma Before(s: State, step: Step, s': State, u: nat)
    requires WellFormed(s) && Do(s, step) == Some(s') && CanCallZero(s', u)
    ensures CanCallZero(s, u)
  {
    var steps :| ZeroAfter(s', steps, u);
    assert ([step] + steps)[1..] == steps;
    assert ZeroAfter(s, [step] + steps, u);
  }

  /** Thread `u` waits for the result of `p`, as an attached job does. */
  predicate Waits(s: State, u: nat, p: nat) {
    u < |s.threads| && s.threads[u].process == p < |s.processes| && s.threads[u].pc.JobWaiting?
  }

  lemma ZeroReceived(s: State, u: nat)
    requires WellFormed(s) && u < |s.threads| && s.threads[u].pc.JobCompleting? && s.threads[u].pc.received.None?
    ensures CanCallZero(s, u)
  {
    var s' := Do(s, Complete(u)).value;
    assert s'.completions[|s.completions|] == Completion(u, None);
    assert ZeroAfter(s', [], u);
    Before(s, Complete(u), s', u);
  }

  lemma ClosedEmpty(s: State, u: nat, p: nat)
    requires WellFormed(s) && Waits(s, u, p) && s.processes[p].closed && s.processes[p].buffer.None?
    ensures CanCallZero(s, u)
  {
    var s' := Take(s, u, JobCompleting(s.threads[u].pc.key, None));
    ZeroReceived(s', u);
    Before(s, Receive(u), s', u);
  }

  lemma TakenResult(s: State, u: nat, p: nat)
    requires WellFormed(s) && Waits(s, u, p) && s.processes[p].result.Some? && s.processes[p].buffer.None?
    ensures CanCallZero(s, u)
  {
    var s' := Do(s, CloseChannel(p)).value;
    ClosedEmpty(s', u, p);
    Before(s, CloseChannel(p), s', u);
  }

  /** Thread `t` is a runner that may receive. */
  predicate Receives(s: State, t: nat, p: nat) {
    t < |s.threads| && s.threads[t].process == p < |s.processes| && (s.threads[t].pc.RunSelecting? || s.threads[t].pc.RunDraining?)
  }

  lemma RunnerTakes(s: State, t: nat, u: nat, p: nat)
    requires WellFormed(s) && Waits(s, u, p) && Receives(s, t, p) && s.processes[p].result.Some? && s.processes[p].buffer.Some?
    ensures CanCallZero(s, u)
  {
    var s' := Take(s, t, RunLeaving(s.threads[t].pc.key));
    TakenResult(s', u, p);
    Before(s, Receive(t), s', u);
  }

  lemma ProcessEnds(s: State, t: nat, u: nat, p: nat)
    requires WellFormed(s) && Waits(s, u, p) && Receives(s, t, p) && s.processes[p].result.None? && s.processes[p].started
    ensures CanCallZero(s, u)
  {
    var s' := Do(s, Exit(p, 0)).value;
    RunnerTakes(s', t, u, p);
    Before(s, Exit(p, 0), s', u);
  }

  lemma RunnerLaunches(s: State, t: nat, u: nat, p: nat)
    requires WellFormed(s) && Waits(s, u, p) && t < |s.threads| && s.threads[t].process == p && s.threads[t].pc.RunReserved?
    requires s.processes[p].result.None?
    ensures CanCallZero(s, u)
  {
    var s' := Do(s, Launch(t)).value;
    ProcessEnds(s', t, u, p);
    Before(s, Launch(t), s', u);
  }

  // ------------------------------------------------------------------ and when it does not

  /** The process will never run: nobody is left to launch it. */
  ghost predicate Stillborn(s: State, p: nat, u: nat) {
    && Waits(s, u, p) && !s.processes[p].started && s.processes[p].result.None?
    && s.processes[p].buffer.None? && !s.processes[p].closed
    && (forall t | 0 <= t < |s.threads| && s.threads[t].process == p :: !s.threads[t].pc.JobReserved? && !s.threads[t].pc.RunReserved?)
    && (forall c | c in s.completions :: c.thread != u)
  }

  lemma StillbornCall(s: State, p: nat, u: nat, step: Step)
    requires WellFormed(s) && Stillborn(s, p, u) && !ThreadStep(step) && Do(s, step).Some?
    ensures Stillborn(Do(s, step).value, p, u)
  {
  }

  lemma StillbornThread(s: State, p: nat, u: nat, step: Step)
    requires WellFormed(s) && Stillborn(s, p, u) && ThreadStep(step) && Do(s, step).Some?
    ensures Stillborn(Do(s, step).value, p, u)
  {
    var t, s' := step.t, Do(s, step).value;
    if JobPc(s.threads[t].pc) {
      JobHasEffect(s, step, t, s');
      StillbornJob(s, p, u, step, t, s');
    } else {
      RunHasEffect(s, step, t, s');
      StillbornRun(s, p, u, step, t, s');
    }
  }

  lemma StillbornJob(s: State, p: nat, u: nat, step: Step, t: nat, s': State)
    requires WellFormed(s) && Stillborn(s, p, u) && t < |s.threads| && JobEffect(s, step, t, s')
    ensures Stillborn(s', p, u)
  {
    var pc, before := s.threads[t].pc, s.processes[s.threads[t].process];
    match pc {
      case JobReserved(_) => StillbornMove(s, p, u, t, JobMove(before, pc, step).1, JobMove(before, pc, step).0);
      case JobWaiting(key) => StillbornTake(s, p, u, t, JobCompleting(key, before.buffer));
      case JobCompleting(_, _) =>
        forall c | c in s'.completions ensures c.thread != u { }
      case JobStartFailed(_) =>
      case JobLeaving(_) =>
    }
  }

  lemma StillbornRun(s: State, p: nat, u: nat, step: Step, t: nat, s': State)
    requires WellFormed(s) && Stillborn(s, p, u) && t < |s.threads| && RunEffect(s, step, t, s')
    ensures Stillborn(s', p, u)
  {
    var pc, before := s.threads[t].pc, s.processes[s.threads[t].process];
    if step.Receive? {
      StillbornTake(s, p, u, t, RunLeaving(pc.key));
    } else if pc.RunReserved? || pc.RunSelecting? {
      StillbornMove(s, p, u, t, RunMove(before, pc, step).1, RunMove(before, pc, step).0);
    }
  }

  lemma StillbornTake(s: State, p: nat, u: nat, t: nat, next: Pc)
    requires WellFormed(s) && Stillborn(s, p, u) && t < |s.threads| && Ready(s.processes[s.threads[t].process])
    requires !next.JobReserved? && !next.RunReserved?
    ensures Stillborn(Take(s, t, next), p, u)
  {
  }

  lemma StillbornMove(s: State, p: nat, u: nat, t: nat, pc: Pc, process: Process)
    requires WellFormed(s) && Stillborn(s, p, u) && t < |s.threads| && t != u && !pc.JobReserved? && !pc.RunReserved?
    requires s.threads[t].process == p ==>
               !process.started && process.result.None? && process.buffer.None? && !process.closed
    ensures Stillborn(Moved(s, t, pc, process), p, u)
  {
  }

  lemma {:induction false} StillbornNeverCalls(s: State, p: nat, u: nat, steps: seq<Step>)
    requires WellFormed(s) && Stillborn(s, p, u)
    ensures !ZeroAfter(s, steps, u)
    decreases |steps|
  {
    if steps != [] && Do(s, steps[0]).Some? {
      if ThreadStep(steps[0]) { StillbornThread(s, p, u, steps[0]); } else { StillbornCall(s, p, u, steps[0]); }
      StillbornNeverCalls(Do(s, steps[0]).value, p, u, steps[1..]);
    }
  }

  // ------------------------------------------------------------------ the exact condition

  /** After an attach the job waits beside the runner. */
  lemma Attached(s: State, op: Key, job: Key)
    requires WellFormed(s) && op != "" && job != "" && op in s.foreground && job !in s.running
    ensures var s', p := Do(s, Attach(op, job)).value, s.foreground[op];
            && s'.threads == s.threads + [Thread(JobWaiting(job), p)] && s'.processes == s.processes
            && s'.completions == s.completions && Waits(s', |s.threads|, p)
  {
  }

  lemma EarlyAttachBreaks(s: State, op: Key, job: Key, t: nat)
    requires Inv(s) && Runs(s, t, op) && op != "" && job != "" && job !in s.running && !s.threads[t].pc.RunStartFailed?
    ensures CanCallZero(Do(s, Attach(op, job)).value, |s.threads|)
  {
    Attached(s, op, job);
    assert ThreadInv(s, t);
    var s', u, p := Do(s, Attach(op, job)).value, |s.threads|, s.foreground[op];
    assert s'.threads[t] == s.threads[t];
    if s.threads[t].pc.RunLeaving? {
      TakenResult(s', u, p);
    } else if s.threads[t].pc.RunReserved? {
      RunnerLaunches(s', t, u, p);
    } else if s.processes[p].result.Some? {
      RunnerTakes(s', t, u, p);
    } else {
      ProcessEnds(s', t, u, p);
    }
  }

  lemma FailedLaunchIsHarmless(s: State, op: Key, job: Key, t: nat)
    requires Inv(s) && Runs(s, t, op) && op != "" && job != "" && job !in s.running && s.threads[t].pc.RunStartFailed?
    ensures !CanCallZero(Do(s, Attach(op, job)).value, |s.threads|)
  {
    var s', u, p := Do(s, Attach(op, job)).value, |s.threads|, s.foreground[op];
    Attached(s, op, job);
    NeverStarted(s, t, p);
    forall c | c in s'.completions ensures c.thread != u { assert c in s.completions; }
    assert Stillborn(s', p, u);
    forall steps ensures !ZeroAfter(s', steps, u) { StillbornNeverCalls(s', p, u, steps); }
  }

  lemma NeverStarted(s: State, t: nat, p: nat)
    requires Inv(s) && t < |s.threads| && s.threads[t].process == p && s.threads[t].pc.RunStartFailed?
    ensures !s.processes[p].started && s.processes[p].result.None? && s.processes[p].buffer.None? && !s.processes[p].closed
    ensures forall u | 0 <= u < |s.threads| && s.threads[u].process == p :: !s.threads[u].pc.JobReserved? && !s.threads[u].pc.RunReserved?
  {
    assert ThreadInv(s, t);
  }

  /** In every state that orderly runs reach, an early attach has a runner beside it, and it
      can end with a callback that gets the zero value if and only if the launch of that
      runner's process has not failed. */
  lemma EarlyAttachBreaksIff(steps: seq<Step>, op: Key, job: Key) returns (t: nat)
    requires Orderly(INIT, steps) && Exec(INIT, steps).Some?
    requires var s := Exec(INIT, steps).value;
             EarlyAttach(s, Attach(op, job)) && op != "" && job != "" && job !in s.running
    ensures var s := Exec(INIT, steps).value;
            && Runs(s, t, op)
            && (CanCallZero(Do(s, Attach(op, job)).value, |s.threads|) <==> !s.threads[t].pc.RunStartFailed?)
  {
    RunKeepsAttended(INIT, steps);
    var s := Exec(INIT, steps).value;
    t :| Runs(s, t, op);
    if s.threads[t].pc.RunStartFailed? { FailedLaunchIsHarmless(s, op, job, t); } else { EarlyAttachBreaks(s, op, job, t); }
  }

  /** Two steps reach such a state: a foreground run that has been launched. */
  lemma EarlyAttachHappens() returns (steps: seq<Step>)
    ensures Orderly(INIT, steps) && Exec(INIT, steps).Some?
    ensures var s := Exec(INIT, steps).value;
            EarlyAttach(s, Attach("o", "j")) && "j" !in s.running && CanCallZero(Do(s, Attach("o", "j")).value, |s.threads|)
  {
    steps := [RunForeground("o"), Launch(0)];
    var s1 := Do(INIT, RunForeground("o")).value;
    var s2 := Do(s1, Launch(0)).value;
    assert steps[1..] == [Launch(0)] && steps[1..][1..] == [];
    assert Orderly(s2, []) && Orderly(s1, steps[1..]);
    Chain(INIT, steps, s1);
    Chain(s1, steps[1..], s2);
    var t := EarlyAttachBreaksIff(steps, "o", "j");
    assert s2.threads == [Thread(RunSelecting("o"), 0)];
  }
}
