/** What every interleaving of the executor's callers keeps, as long as attaches follow an
    Interrupted return. */
module JobExecutorTheorems {
  import opened Wrappers
  import opened JobExecutor

  // ------------------------------------------------------------------ the invariant

  /** A job that has been accepted by `Start` or `AttachForeground`. */
  predicate Accepted(pc: Pc) { pc.JobWaiting? || pc.JobCompleting? || pc.JobLeaving? || pc.JobDone? }

  predicate Live(pc: Pc) { !pc.JobDone? && !pc.Ended? }

  /** Stands before a possible receive. */
  predicate Expecting(pc: Pc) {
    || pc.JobReserved? || pc.JobStartFailed? || pc.JobWaiting?
    || pc.RunReserved? || pc.RunStartFailed? || pc.RunSelecting? || pc.RunDraining?
  }

  ghost predicate Received(s: State, p: nat) { exists r :: r in s.receipts && r.process == p }

  ghost predicate CompleteCalled(s: State, t: nat) { exists c :: c in s.completions && c.thread == t }

  /** The result, if there is one, is still in the channel. */
  ghost predicate Untaken(s: State, p: nat)
    requires p < |s.processes|
  {
    s.processes[p].buffer == s.processes[p].result && !Received(s, p)
  }

  ghost predicate ThreadInv(s: State, t: nat)
    requires t < |s.threads|
  {
    var pc, p := s.threads[t].pc, s.threads[t].process;
    && p < |s.processes|
    && (JobPc(pc) ==> pc.key in s.running && s.running[pc.key] == p)
    && (pc.JobWaiting? || pc.RunSelecting? || pc.RunDraining? ==> s.processes[p].started)
    && (Expecting(pc) ==> Untaken(s, p))
    && (pc.JobCompleting? ==> pc.received.Some? && pc.received == s.processes[p].result)
    && (pc.JobReserved? || pc.JobStartFailed? || pc.RunReserved? || pc.RunStartFailed? ==> !s.processes[p].started)
    && (pc.RunLeaving? ==> s.processes[p].result.Some? && s.processes[p].buffer.None?)
    && (pc.JobLeaving? || pc.JobDone? <==> CompleteCalled(s, t))
  }

  /** A process is in at most one map, under at most one key. */
  ghost predicate MapsDisjoint(s: State) {
    && (forall k, m | k in s.running && m in s.running && k != m :: s.running[k] != s.running[m])
    && (forall k, m | k in s.foreground && m in s.foreground && k != m :: s.foreground[k] != s.foreground[m])
    && (forall k, m | k in s.running && m in s.foreground :: s.running[k] != s.foreground[m])
  }

  ghost predicate OneParty(s: State) {
    forall t, u | 0 <= t < |s.threads| && 0 <= u < |s.threads| && Live(s.threads[t].pc) && Live(s.threads[u].pc)
      && s.threads[t].process == s.threads[u].process :: t == u
  }

  /** A process left behind by an interrupted runner waits for whoever attaches. */
  ghost predicate Handover(s: State, p: nat)
    requires p < |s.processes|
  {
    s.processes[p].detached ==>
      && s.processes[p].started && Untaken(s, p)
      && forall t | 0 <= t < |s.threads| && s.threads[t].process == p :: !Live(s.threads[t].pc)
  }

  ghost predicate ReceiptsSound(s: State) {
    && (forall r | r in s.receipts :: r.process < |s.processes| && r.value.Some? && r.value == s.processes[r.process].result)
    && (forall i, j | 0 <= i < j < |s.receipts| :: s.receipts[i].process != s.receipts[j].process)
  }

  ghost predicate CompletionsSound(s: State) {
    && (forall c | c in s.completions :: c.thread < |s.threads| && s.threads[c.thread].process < |s.processes|
          && c.value.Some? && c.value == s.processes[s.threads[c.thread].process].result)
    && (forall i, j | 0 <= i < j < |s.completions| :: s.completions[i].thread != s.completions[j].thread)
  }

  ghost predicate ThreadsOk(s: State) { forall t | 0 <= t < |s.threads| :: ThreadInv(s, t) }

  ghost predicate HandoversOk(s: State)
    requires WellFormed(s)
  {
    forall k | k in s.foreground :: Handover(s, s.foreground[k])
  }

  ghost predicate ProcessesOk(s: State) {
    forall p | 0 <= p < |s.processes| ::
      && (s.processes[p].result.Some? ==> s.processes[p].started)
      && (s.processes[p].closed ==> s.processes[p].result.Some?)
  }

  ghost predicate Inv(s: State) {
    && WellFormed(s) && ThreadsOk(s) && HandoversOk(s) && ProcessesOk(s)
    && MapsDisjoint(s) && OneParty(s) && ReceiptsSound(s) && CompletionsSound(s)
  }

  /** Attaching to a process whose foreground runner has not returned Interrupted. */
  ghost predicate EarlyAttach(s: State, step: Step) {
    step.Attach? && step.op in s.foreground && s.foreground[step.op] < |s.processes| && !s.processes[s.foreground[step.op]].detached
  }

  /** A live party moves on, or a party joins with a process of its own. */
  lemma PartiesKept(s: State, t: nat, s': State)
    requires WellFormed(s) && OneParty(s) && t < |s'.threads| && |s.threads| <= |s'.threads|
    requires forall u | 0 <= u < |s'.threads| && u != t :: u < |s.threads| && s'.threads[u] == s.threads[u]
    requires if t < |s.threads| then Live(s.threads[t].pc) && s'.threads[t].process == s.threads[t].process
             else s'.threads[t].process >= |s.processes|
    ensures OneParty(s')
  {
  }

  /** A caller reserves a key for a new process. */
  ghost predicate Joins(s: State, pc: Pc, s': State) {
    && (pc.JobReserved? || pc.RunReserved?)
    && s'.processes == s.processes + [NEW] && s'.threads == s.threads + [Thread(pc, |s.processes|)]
    && s'.receipts == s.receipts && s'.completions == s.completions
    && (if pc.JobReserved? then pc.key !in s.running && s'.running == s.running[pc.key := |s.processes|] && s'.foreground == s.foreground
        else pc.key !in s.foreground && s'.foreground == s.foreground[pc.key := |s.processes|] && s'.running == s.running)
  }

  lemma JoinKeepsThread(s: State, pc: Pc, s': State, t: nat)
    requires Inv(s) && Joins(s, pc, s') && t < |s'.threads|
    ensures ThreadInv(s', t)
  {
    if t < |s.threads| {
      assert ThreadInv(s, t);
      assert CompleteCalled(s', t) <==> CompleteCalled(s, t);
    }
  }

  lemma JoinKeepsHandovers(s: State, pc: Pc, s': State)
    requires Inv(s) && WellFormed(s') && Joins(s, pc, s')
    ensures HandoversOk(s')
  {
    forall k | k in s'.foreground ensures Handover(s', s'.foreground[k]) {
      var q := s'.foreground[k];
      if q < |s.processes| { assert Handover(s, q) && (Received(s', q) <==> Received(s, q)); }
    }
  }

  /** `Start` and `RunForeground` after their checks. */
  lemma JoinKeeps(s: State, pc: Pc, s': State)
    requires Inv(s) && WellFormed(s') && Joins(s, pc, s')
    ensures Inv(s')
  {
    forall t | 0 <= t < |s'.threads| ensures ThreadInv(s', t) { JoinKeepsThread(s, pc, s', t); }
    JoinKeepsHandovers(s, pc, s');
    JoinKeepsMaps(s, pc, s');
    PartiesKept(s, |s.threads|, s');
  }

  lemma JoinKeepsMaps(s: State, pc: Pc, s': State)
    requires WellFormed(s) && MapsDisjoint(s) && Joins(s, pc, s')
    ensures MapsDisjoint(s')
  {
  }

  lemma AttachKeepsThreads(s: State, op: Key, job: Key)
    requires Inv(s) && !EarlyAttach(s, Attach(op, job))
    ensures ThreadsOk(Do(s, Attach(op, job)).value)
  {
    var s' := Do(s, Attach(op, job)).value;
    forall t | 0 <= t < |s'.threads| ensures ThreadInv(s', t) {
      if t < |s.threads| { assert ThreadInv(s, t); }
    }
  }

  lemma AttachKeeps(s: State, op: Key, job: Key)
    requires Inv(s) && !EarlyAttach(s, Attach(op, job))
    ensures Inv(Do(s, Attach(op, job)).value)
  {
    AttachKeepsThreads(s, op, job);
  }

  /** What the step of a live party changes of its own process. */
  predicate OwnProcess(before: Process, after: Process) {
    && after.result == before.result && after.closed == before.closed
    && (before.started ==> after.started) && (before.detached ==> after.detached)
  }

  /** Every step of a caller or goroutine, seen as one: it touches no other process, removes
      only entries of its own process, and takes the result or calls the callback at most
      once. */
  ghost predicate Acts(s: State, t: nat, s': State)
    requires t < |s.threads| && s.threads[t].process < |s.processes|
  {
    var p := s.threads[t].process;
    var result := s.processes[p].result;
    && WellFormed(s') && |s'.threads| == |s.threads| && |s'.processes| == |s.processes|
    && s'.threads[t].process == p && (forall u | 0 <= u < |s.threads| && u != t :: s'.threads[u] == s.threads[u])
    && OwnProcess(s.processes[p], s'.processes[p])
    && (forall q | 0 <= q < |s.processes| && q != p :: s'.processes[q] == s.processes[q])
    && (forall k | k in s'.running :: k in s.running && s'.running[k] == s.running[k])
    && (forall k | k in s.running && s.running[k] != p :: k in s'.running)
    && (forall k | k in s'.foreground :: k in s.foreground && s'.foreground[k] == s.foreground[k])
    && (s'.receipts == s.receipts || (s'.receipts == s.receipts + [Receipt(t, p, result)] && result.Some? && !Received(s, p)))
    && (s'.completions == s.completions
        || (s'.completions == s.completions + [Completion(t, result)] && result.Some? && !CompleteCalled(s, t)))
    && (s'.processes[p].detached == s.processes[p].detached
        || (s'.processes[p].started && Untaken(s', p) && !Live(s'.threads[t].pc)))
  }

  /** The others are not concerned: they have other processes, or are done. */
  lemma OthersKept(s: State, t: nat, s': State, u: nat)
    requires Inv(s) && t < |s.threads| && Live(s.threads[t].pc) && Acts(s, t, s') && u < |s.threads| && u != t
    ensures ThreadInv(s', u)
  {
    assert ThreadInv(s, u);
    assert CompleteCalled(s', u) <==> CompleteCalled(s, u);
    var p := s.threads[t].process;
    if s.threads[u].process != p { assert Received(s', s.threads[u].process) <==> Received(s, s.threads[u].process); }
  }

  lemma ActsKeepHandovers(s: State, t: nat, s': State)
    requires Inv(s) && t < |s.threads| && Live(s.threads[t].pc) && Acts(s, t, s')
    ensures HandoversOk(s')
  {
    var p := s.threads[t].process;
    forall k | k in s'.foreground ensures Handover(s', s'.foreground[k]) {
      var q := s'.foreground[k];
      assert Handover(s, q);
      if q != p { assert Received(s', q) <==> Received(s, q); }
    }
  }

  lemma ActsKeepRecords(s: State, t: nat, s': State)
    requires Inv(s) && t < |s.threads| && Acts(s, t, s')
    ensures ReceiptsSound(s') && CompletionsSound(s')
  {
  }

  lemma ActsKeepInv(s: State, t: nat, s': State)
    requires Inv(s) && t < |s.threads| && Live(s.threads[t].pc) && Acts(s, t, s') && ThreadInv(s', t)
    ensures Inv(s')
  {
    forall u | 0 <= u < |s'.threads| ensures ThreadInv(s', u) {
      if u != t { OthersKept(s, t, s', u); }
    }
    ActsKeepHandovers(s, t, s');
    ActsKeepRecords(s, t, s');
    PartiesKept(s, t, s');
  }

  /** A party moves on without touching the channel: launches, time-outs, interrupts. */
  function Moved(s: State, t: nat, pc: Pc, process: Process): State
    requires t < |s.threads| && s.threads[t].process < |s.processes|
  {
    s.(threads := s.threads[t := s.threads[t].(pc := pc)], processes := s.processes[s.threads[t].process := process])
  }

  /** The process keeps its channel, and is only left behind when it runs. */
  predicate Movable(before: Process, after: Process, pc: Pc) {
    && after.result == before.result && after.closed == before.closed && after.buffer == before.buffer
    && (before.started ==> after.started)
    && (after.detached == before.detached || (after.detached && after.started && !Live(pc)))
  }

  lemma MoveActs(s: State, t: nat, pc: Pc, process: Process)
    requires WellFormed(s) && t < |s.threads| && ThreadInv(s, t) && Expecting(s.threads[t].pc)
    requires Movable(s.processes[s.threads[t].process], process, pc)
    ensures Acts(s, t, Moved(s, t, pc, process))
  {
    var p, s' := s.threads[t].process, Moved(s, t, pc, process);
    assert Received(s', p) <==> Received(s, p);
  }

  lemma MoveArrives(s: State, t: nat, pc: Pc, process: Process)
    requires WellFormed(s) && t < |s.threads| && ThreadInv(s, t) && Expecting(s.threads[t].pc)
    requires Movable(s.processes[s.threads[t].process], process, pc) && (Expecting(pc) || pc == Ended)
    requires JobPc(pc) ==> JobPc(s.threads[t].pc) && pc.key == s.threads[t].pc.key
    requires pc.JobWaiting? || pc.RunSelecting? || pc.RunDraining? ==> process.started
    requires pc.JobReserved? || pc.JobStartFailed? || pc.RunReserved? || pc.RunStartFailed? ==> !process.started
    ensures ThreadInv(Moved(s, t, pc, process), t)
  {
    var p, s' := s.threads[t].process, Moved(s, t, pc, process);
    assert (Received(s', p) <==> Received(s, p)) && (CompleteCalled(s', t) <==> CompleteCalled(s, t));
  }

  /** A party takes the result. */
  lemma TakeActs(s: State, t: nat, next: Pc)
    requires WellFormed(s) && ProcessesOk(s) && t < |s.threads| && ThreadInv(s, t) && Expecting(s.threads[t].pc)
    requires Ready(s.processes[s.threads[t].process])
    ensures Acts(s, t, Take(s, t, next))
  {
  }

  lemma TakeArrives(s: State, t: nat, next: Pc)
    requires WellFormed(s) && ProcessesOk(s) && t < |s.threads| && ThreadInv(s, t) && Expecting(s.threads[t].pc)
    requires Ready(s.processes[s.threads[t].process])
    requires next.RunLeaving? || (JobPc(s.threads[t].pc) && next == JobCompleting(s.threads[t].pc.key, s.processes[s.threads[t].process].buffer))
    ensures ThreadInv(Take(s, t, next), t)
  {
    assert CompleteCalled(Take(s, t, next), t) <==> CompleteCalled(s, t);
  }

  /** A party returns and removes its entry. */
  function Left(s: State, t: nat, pc: Pc, key: Key): State
    requires t < |s.threads|
  {
    var p := s.threads[t].process;
    if JobPc(s.threads[t].pc) then Goto(s, t, pc).(running := Removed(s.running, key, p))
    else Goto(s, t, pc).(foreground := Removed(s.foreground, key, p))
  }

  lemma LeaveActs(s: State, t: nat, pc: Pc, key: Key)
    requires WellFormed(s) && t < |s.threads| && s.threads[t].process < |s.processes|
    ensures Acts(s, t, Left(s, t, pc, key))
  {
    RemovedOwn(s.running, key, s.threads[t].process);
    RemovedOwn(s.foreground, key, s.threads[t].process);
  }

  lemma RemovedOwn(m: map<Key, nat>, key: Key, p: nat)
    ensures forall k | k in Removed(m, key, p) :: k in m && Removed(m, key, p)[k] == m[k]
    ensures forall k | k in m && m[k] != p :: k in Removed(m, key, p)
  {
  }

  lemma LeaveArrives(s: State, t: nat, pc: Pc, key: Key)
    requires WellFormed(s) && t < |s.threads| && ThreadInv(s, t) && Live(s.threads[t].pc)
    requires pc == if s.threads[t].pc.JobLeaving? then JobDone else Ended
    ensures ThreadInv(Left(s, t, pc, key), t)
  {
    assert CompleteCalled(Left(s, t, pc, key), t) <==> CompleteCalled(s, t);
  }

  /** A goroutine calls the callback of its job. */
  lemma CallActs(s: State, t: nat, s': State)
    requires WellFormed(s) && t < |s.threads| && ThreadInv(s, t) && s.threads[t].pc.JobCompleting?
    requires s' == Goto(s, t, JobLeaving(s.threads[t].pc.key)).(completions := s.completions + [Completion(t, s.threads[t].pc.received)])
    ensures Acts(s, t, s') && ThreadInv(s', t)
  {
    assert s'.completions[|s.completions|] in s'.completions;
  }

  /** What `Start` does to its process. */
  function JobMove(before: Process, pc: Pc, step: Step): (Process, Pc)
    requires pc.JobReserved?
  {
    if step.Launch? then (before.(started := true), JobWaiting(pc.key))
    else (before.(reason := Some("process_start_failed")), JobStartFailed(pc.key))
  }

  /** A step of `Start` or of a goroutine that waits for a job: a move, a receive, the
      callback or the return. */
  ghost predicate JobEffect(s: State, step: Step, t: nat, s': State)
    requires WellFormed(s) && t < |s.threads|
  {
    var pc, before := s.threads[t].pc, s.processes[s.threads[t].process];
    match pc
    case JobReserved(_) => var m := JobMove(before, pc, step); s' == Moved(s, t, m.1, m.0)
    case JobWaiting(key) => Ready(before) && s' == Take(s, t, JobCompleting(key, before.buffer))
    case JobCompleting(key, got) => s' == Goto(s, t, JobLeaving(key)).(completions := s.completions + [Completion(t, got)])
    case JobStartFailed(key) => s' == Left(s, t, Ended, key)
    case JobLeaving(key) => s' == Left(s, t, JobDone, key)
    case _ => false
  }

  lemma JobHasEffect(s: State, step: Step, t: nat, s': State)
    requires WellFormed(s) && t < |s.threads| && JobPc(s.threads[t].pc) && DoJob(s, step, t) == Some(s')
    ensures JobEffect(s, step, t, s')
  {
  }

  /** Every step of `Start` or of a goroutine that waits for a job. */
  lemma JobStepActs(s: State, step: Step, t: nat, s': State)
    requires WellFormed(s) && ProcessesOk(s) && t < |s.threads| && ThreadInv(s, t) && JobEffect(s, step, t, s')
    ensures Acts(s, t, s') && ThreadInv(s', t)
  {
    var pc, before := s.threads[t].pc, s.processes[s.threads[t].process];
    match pc {
      case JobReserved(_) =>
        var m := JobMove(before, pc, step);
        MoveActs(s, t, m.1, m.0);
        MoveArrives(s, t, m.1, m.0);
      case JobWaiting(key) =>
        TakeActs(s, t, JobCompleting(key, before.buffer));
        TakeArrives(s, t, JobCompleting(key, before.buffer));
      case JobCompleting(_, _) => CallActs(s, t, s');
      case JobStartFailed(key) =>
        LeaveActs(s, t, Ended, key);
        LeaveArrives(s, t, Ended, key);
      case JobLeaving(key) =>
        LeaveActs(s, t, JobDone, key);
        LeaveArrives(s, t, JobDone, key);
    }
  }

  /** What `RunForeground` does to its process before it receives. */
  function RunMove(before: Process, pc: Pc, step: Step): (Process, Pc)
    requires pc.RunReserved? || pc.RunSelecting?
  {
    if step.Launch? then (before.(started := true), RunSelecting(pc.key))
    else if step.LaunchFails? then (before.(reason := Some("process_start_failed")), RunStartFailed(pc.key))
    else if step.Interrupt? then (before.(detached := true), Ended)
    else (before.(reason := Some(if step.Timeout? then "foreground_timeout" else "executor_closed")), RunDraining(pc.key))
  }

  lemma RunMoveFits(before: Process, pc: Pc, step: Step)
    requires pc.RunReserved? || pc.RunSelecting?
    requires pc.RunReserved? ==> !before.started && (step.Launch? || step.LaunchFails?)
    requires pc.RunSelecting? ==> before.started && !step.Launch? && !step.LaunchFails?
    ensures var m := RunMove(before, pc, step);
            && Movable(before, m.0, m.1) && (Expecting(m.1) || m.1 == Ended) && !JobPc(m.1)
            && (m.1.RunSelecting? || m.1.RunDraining? ==> m.0.started)
            && (m.1.RunReserved? || m.1.RunStartFailed? ==> !m.0.started)
  {
  }

  /** A step of `RunForeground`: a receive, a move or the return. */
  ghost predicate RunEffect(s: State, step: Step, t: nat, s': State)
    requires WellFormed(s) && t < |s.threads|
  {
    var pc, before := s.threads[t].pc, s.processes[s.threads[t].process];
    if step.Receive? then (pc.RunSelecting? || pc.RunDraining?) && Ready(before) && s' == Take(s, t, RunLeaving(pc.key))
    else if pc.RunReserved? || pc.RunSelecting? then
      && (pc.RunReserved? <==> step.Launch? || step.LaunchFails?)
      && var m := RunMove(before, pc, step); s' == Moved(s, t, m.1, m.0)
    else (pc.RunStartFailed? || pc.RunLeaving?) && s' == Left(s, t, Ended, pc.key)
  }

  lemma RunHasEffect(s: State, step: Step, t: nat, s': State)
    requires WellFormed(s) && t < |s.threads| && !JobPc(s.threads[t].pc) && DoRun(s, step, t) == Some(s')
    ensures RunEffect(s, step, t, s')
  {
  }

  /** Every step of `RunForeground`. */
  lemma RunStepActs(s: State, step: Step, t: nat, s': State)
    requires WellFormed(s) && ProcessesOk(s) && t < |s.threads| && ThreadInv(s, t) && RunEffect(s, step, t, s')
    ensures Live(s.threads[t].pc) && t < |s'.threads| && Acts(s, t, s') && ThreadInv(s', t)
  {
    var pc, before := s.threads[t].pc, s.processes[s.threads[t].process];
    if step.Receive? {
      TakeActs(s, t, RunLeaving(pc.key));
      TakeArrives(s, t, RunLeaving(pc.key));
    } else if pc.RunReserved? || pc.RunSelecting? {
      RunMoveFits(before, pc, step);
      var m := RunMove(before, pc, step);
      MoveActs(s, t, m.1, m.0);
      MoveArrives(s, t, m.1, m.0);
    } else {
      LeaveActs(s, t, Ended, pc.key);
      LeaveArrives(s, t, Ended, pc.key);
    }
  }

  lemma ThreadStepKeeps(s: State, step: Step, t: nat, s': State)
    requires Inv(s) && t < |s.threads|
    requires (if JobPc(s.threads[t].pc) then DoJob(s, step, t) else DoRun(s, step, t)) == Some(s')
    ensures Inv(s')
  {
    assert ThreadInv(s, t);
    if JobPc(s.threads[t].pc) {
      JobHasEffect(s, step, t, s');
      JobStepActs(s, step, t, s');
    } else {
      RunHasEffect(s, step, t, s');
      RunStepActs(s, step, t, s');
    }
    ActsKeepInv(s, t, s');
  }

  /** What cancelling, ending and closing change of a process. */
  predicate Touched(before: Process, after: Process) {
    && after.started == before.started && after.detached == before.detached
    && (after.closed ==> after.result.Some?)
    && ((after.result == before.result && after.buffer == before.buffer)
        || (before.result.None? && before.started && after.result.Some? && after.buffer == after.result))
  }

  /** One process is touched; foreground entries may be removed. */
  ghost predicate Touches(s: State, p: nat, s': State) {
    && p < |s.processes| == |s'.processes| && s'.threads == s.threads && s'.running == s.running
    && s'.receipts == s.receipts && s'.completions == s.completions
    && (forall k | k in s'.foreground :: k in s.foreground && s'.foreground[k] == s.foreground[k])
    && Touched(s.processes[p], s'.processes[p])
    && (forall q | 0 <= q < |s.processes| && q != p :: s'.processes[q] == s.processes[q])
  }

  lemma TouchKeepsThread(s: State, p: nat, s': State, t: nat)
    requires Inv(s) && Touches(s, p, s') && t < |s.threads|
    ensures ThreadInv(s', t)
  {
    assert ThreadInv(s, t);
    assert CompleteCalled(s', t) <==> CompleteCalled(s, t);
    assert Received(s', s.threads[t].process) <==> Received(s, s.threads[t].process);
  }

  lemma TouchKeepsHandovers(s: State, p: nat, s': State)
    requires Inv(s) && WellFormed(s') && Touches(s, p, s')
    ensures HandoversOk(s')
  {
    forall k | k in s'.foreground ensures Handover(s', s'.foreground[k]) {
      var q := s'.foreground[k];
      assert Handover(s, q) && (Received(s', q) <==> Received(s, q));
    }
  }

  /** `Cancel`, `KillForeground`, the end of a process and the closing of its channel. */
  lemma TouchKeeps(s: State, p: nat, s': State)
    requires Inv(s) && WellFormed(s') && Touches(s, p, s')
    ensures Inv(s')
  {
    forall t | 0 <= t < |s'.threads| ensures ThreadInv(s', t) { TouchKeepsThread(s, p, s', t); }
    TouchKeepsHandovers(s, p, s');
  }

  lemma CloseKeeps(s: State)
    requires Inv(s)
    ensures Inv(s.(closed := true))
  {
    var s' := s.(closed := true);
    forall t | 0 <= t < |s'.threads| ensures ThreadInv(s', t) { assert ThreadInv(s, t); }
    forall k | k in s'.foreground ensures Handover(s', s'.foreground[k]) { assert Handover(s, s.foreground[k]); }
  }

  predicate ThreadStep(step: Step) {
    || step.Launch? || step.LaunchFails? || step.CleanUp? || step.Receive? || step.Complete? || step.Leave?
    || step.Timeout? || step.RootDone? || step.Interrupt?
  }

  lemma CallJoins(s: State, step: Step)
    requires WellFormed(s) && (step.Start? || step.RunForeground?) && Do(s, step) != Some(s)
    ensures Joins(s, if step.Start? then JobReserved(step.job) else RunReserved(step.op), Do(s, step).value)
  {
  }

  lemma EventTouches(s: State, step: Step) returns (p: nat)
    requires WellFormed(s) && ProcessesOk(s) && (step.Cancel? || step.Kill? || step.Exit? || step.CloseChannel?)
    requires Do(s, step).Some? && Do(s, step) != Some(s)
    ensures Touches(s, p, Do(s, step).value)
  {
    p := if step.Cancel? then s.running[step.job] else if step.Kill? then s.foreground[step.op] else step.process;
  }

  /** Calls and process events. */
  lemma CallKeeps(s: State, step: Step)
    requires Inv(s) && !ThreadStep(step) && Do(s, step).Some? && !EarlyAttach(s, step)
    ensures Inv(Do(s, step).value)
  {
    var s' := Do(s, step).value;
    if step.Attach? {
      AttachKeeps(s, step.op, step.job);
    } else if step.Close? {
      CloseKeeps(s);
    } else if s' != s {
      if step.Start? || step.RunForeground? {
        CallJoins(s, step);
        JoinKeeps(s, if step.Start? then JobReserved(step.job) else RunReserved(step.op), s');
      } else {
        var p := EventTouches(s, step);
        TouchKeeps(s, p, s');
      }
    }
  }

  lemma StepKeepsInv(s: State, step: Step)
    requires Inv(s) && Do(s, step).Some? && !EarlyAttach(s, step)
    ensures Inv(Do(s, step).value)
  {
    if ThreadStep(step) { ThreadStepKeeps(s, step, step.t, Do(s, step).value); } else { CallKeeps(s, step); }
  }

  // ------------------------------------------------------------------ the theorems

  /** Every attach of the run follows an Interrupted return. */
  ghost predicate Orderly(s: State, steps: seq<Step>)
    requires WellFormed(s)
    decreases |steps|
  {
    steps == [] ||
    (!EarlyAttach(s, steps[0]) && (Do(s, steps[0]).Some? ==> Orderly(Do(s, steps[0]).value, steps[1..])))
  }

  lemma {:induction false} RunKeepsInv(s: State, steps: seq<Step>)
    requires Inv(s) && Orderly(s, steps) && Exec(s, steps).Some?
    ensures Inv(Exec(s, steps).value)
    decreases |steps|
  {
    if steps != [] {
      StepKeepsInv(s, steps[0]);
      RunKeepsInv(Do(s, steps[0]).value, steps[1..]);
    }
  }

  /** In every orderly run: no process is in both maps or twice in one; every value
      received from a channel is the result of its process, never the zero value of the
      closed channel, and it is received once; every completion callback is called at
      most once and with the result of the job's own process. */
  lemma ResultsReachOneParty(steps: seq<Step>)
    requires Orderly(INIT, steps) && Exec(INIT, steps).Some?
    ensures var s := Exec(INIT, steps).value; MapsDisjoint(s) && ReceiptsSound(s) && CompletionsSound(s)
  {
    RunKeepsInv(INIT, steps);
  }

  lemma Chain(s: State, steps: seq<Step>, next: State)
    requires WellFormed(s) && steps != [] && Do(s, steps[0]) == Some(next)
    ensures Exec(s, steps) == Exec(next, steps[1..])
  {
  }

  lemma {:induction false} ExecSplit(s: State, a: seq<Step>, b: seq<Step>)
    requires WellFormed(s)
    ensures Exec(s, a + b) == if Exec(s, a).None? then None else Exec(Exec(s, a).value, b)
    decreases |a|
  {
    if a == [] {
      assert a + b == b;
    } else {
      assert (a + b)[0] == a[0] && (a + b)[1..] == a[1..] + b;
      if Do(s, a[0]).Some? { ExecSplit(Do(s, a[0]).value, a[1..], b); }
    }
  }

  lemma WaitingJobReceives(s: State, t: nat)
    requires Inv(s) && t < |s.threads| && s.threads[t].pc.JobWaiting?
    requires s.processes[s.threads[t].process].result.Some?
    ensures var result := s.processes[s.threads[t].process].result;
            && !CompleteCalled(s, t) && s.processes[s.threads[t].process].buffer == result
            && Do(s, Receive(t)) == Some(Take(s, t, JobCompleting(s.threads[t].pc.key, result)))
  {
    assert ThreadInv(s, t);
  }

  /** The steps that remain until the callback of an accepted job is called. */
  function Remaining(pc: Pc, t: nat): seq<Step> {
    match pc
    case JobWaiting(_) => [Receive(t), Complete(t)]
    case JobCompleting(_, _) => [Complete(t)]
    case _ => []
  }

  lemma EndedJobCompletes(s: State, t: nat)
    requires Inv(s) && t < |s.threads| && (s.threads[t].pc.JobWaiting? || s.threads[t].pc.JobCompleting?)
    requires s.processes[s.threads[t].process].result.Some?
    ensures var run := Exec(s, Remaining(s.threads[t].pc, t));
            && !CompleteCalled(s, t) && run.Some?
            && run.value.completions == s.completions + [Completion(t, s.processes[s.threads[t].process].result)]
  {
    assert ThreadInv(s, t);
    if s.threads[t].pc.JobWaiting? {
      WaitingJobReceives(s, t);
      var s1 := Do(s, Receive(t)).value;
      Chain(s, [Receive(t), Complete(t)], s1);
      Chain(s1, [Complete(t)], Do(s1, Complete(t)).value);
    } else {
      Chain(s, [Complete(t)], Do(s, Complete(t)).value);
    }
  }

  /** Once the process of an accepted job has ended, its callback has been called, or
      the job's own goroutine can call it without anyone's help. So it is called exactly
      once. */
  lemma EndedJobsComplete(steps: seq<Step>, t: nat)
    requires Orderly(INIT, steps) && Exec(INIT, steps).Some?
    requires var s := Exec(INIT, steps).value;
             t < |s.threads| && Accepted(s.threads[t].pc) && s.processes[s.threads[t].process].result.Some?
    ensures var s := Exec(INIT, steps).value;
            var rest := Remaining(s.threads[t].pc, t);
            if rest == [] then CompleteCalled(s, t)
            else
              && !CompleteCalled(s, t) && Exec(s, rest).Some?
              && Exec(s, rest).value.completions ==
                 s.completions + [Completion(t, s.processes[s.threads[t].process].result)]
  {
    RunKeepsInv(INIT, steps);
    var s := Exec(INIT, steps).value;
    if s.threads[t].pc.JobWaiting? || s.threads[t].pc.JobCompleting? {
      EndedJobCompletes(s, t);
    } else {
      assert ThreadInv(s, t);
    }
  }
}
