/** The local managed job executor (internal/kernel/managed_job_executor.go): shell
    processes handed between a foreground runner and background jobs. Every section
    under the executor mutex, every channel operation and every process event is one
    step; steps of any number of callers interleave freely. */
module JobExecutor {
  import opened Wrappers

  type Key = string

  /** A process and its result channel of capacity one: `result` is what the process
      ended with, `buffer` what the channel still holds. `detached` is set when the
      foreground runner returns Interrupted. */
  datatype Process = Process(started: bool, result: Option<int>, buffer: Option<int>, closed: bool, detached: bool,
                             reason: Option<string>)

  /** Where a caller or its goroutine is. `Completing` holds what was received: `None` is
      the zero value of a closed channel. */
  datatype Pc =
    | JobReserved(key: Key)
    | JobStartFailed(key: Key)
    | JobWaiting(key: Key)
    | JobCompleting(key: Key, received: Option<int>)
    | JobLeaving(key: Key)
    | JobDone
    | RunReserved(key: Key)
    | RunStartFailed(key: Key)
    | RunSelecting(key: Key)
    | RunDraining(key: Key)
    | RunLeaving(key: Key)
    | Ended

  datatype Thread = Thread(pc: Pc, process: nat)

  datatype Receipt = Receipt(thread: nat, process: nat, value: Option<int>)

  /** One call of a completion callback. */
  datatype Completion = Completion(thread: nat, value: Option<int>)

  datatype State = State(running: map<Key, nat>, foreground: map<Key, nat>, processes: seq<Process>,
                         threads: seq<Thread>, receipts: seq<Receipt>, completions: seq<Completion>, closed: bool)

  datatype Step =
    | Start(job: Key)
    | RunForeground(op: Key)
    | Attach(op: Key, job: Key)
    | Cancel(job: Key, reason: string)
    | Kill(op: Key, reason: string)
    | Close
    | Launch(t: nat)
    | LaunchFails(t: nat)
    | CleanUp(t: nat)
    | Receive(t: nat)
    | Complete(t: nat)
    | Leave(t: nat)
    | Timeout(t: nat)
    | RootDone(t: nat)
    | Interrupt(t: nat)
    | Exit(process: nat, code: int)
    | CloseChannel(process: nat)

  const INIT := State(map[], map[], [], [], [], [], false)
  const NEW := Process(false, None, None, false, false, None)

  /** Removes the entry only if it still belongs to this process. */
  function Removed(m: map<Key, nat>, key: Key, process: nat): map<Key, nat> {
    if key in m && m[key] == process then m - {key} else m
  }

  function Goto(s: State, t: nat, pc: Pc): (r: State)
    requires t < |s.threads|
    ensures WellFormed(s) ==> WellFormed(r)
  {
    s.(threads := s.threads[t := s.threads[t].(pc := pc)])
  }

  function Update(s: State, p: nat, process: Process): (r: State)
    requires p < |s.processes|
    ensures WellFormed(s) ==> WellFormed(r)
  {
    s.(processes := s.processes[p := process])
  }

  function Cancelled(s: State, p: nat, reason: string): (r: State)
    requires p < |s.processes|
    ensures WellFormed(s) ==> WellFormed(r)
  {
    Update(s, p, s.processes[p].(reason := Some(reason)))
  }

  /** Every process named anywhere exists. */
  predicate WellFormed(s: State) {
    && (forall t | 0 <= t < |s.threads| :: s.threads[t].process < |s.processes|)
    && (forall k | k in s.running :: s.running[k] < |s.processes|)
    && (forall k | k in s.foreground :: s.foreground[k] < |s.processes|)
  }

  /** One step; `None` when it is not enabled. Refused calls leave the state as it is. */
  function Do(s: State, step: Step): (r: Option<State>)
    requires WellFormed(s)
    ensures r.Some? ==> WellFormed(r.value)
  {
    match step
    case Start(job) =>
      if job == "" || job in s.running then Some(s)
      else Some(s.(running := s.running[job := |s.processes|], processes := s.processes + [NEW],
                   threads := s.threads + [Thread(JobReserved(job), |s.processes|)]))
    case RunForeground(op) =>
      if op == "" || op in s.foreground then Some(s)
      else Some(s.(foreground := s.foreground[op := |s.processes|], processes := s.processes + [NEW],
                   threads := s.threads + [Thread(RunReserved(op), |s.processes|)]))
    case Attach(op, job) =>
      if op == "" || job == "" || op !in s.foreground || job in s.running then Some(s)
      else Some(s.(foreground := s.foreground - {op}, running := s.running[job := s.foreground[op]],
                   threads := s.threads + [Thread(JobWaiting(job), s.foreground[op])]))
    case Cancel(job, reason) => Some(if job in s.running then Cancelled(s, s.running[job], reason) else s)
    case Kill(op, reason) =>
      Some(if op in s.foreground
           then Cancelled(s, s.foreground[op], reason).(foreground := s.foreground - {op}) else s)
    case Close => Some(s.(closed := true))
    case Exit(p, code) =>
      if p >= |s.processes| || !s.processes[p].started || s.processes[p].result.Some? then None
      else Some(Update(s, p, s.processes[p].(result := Some(code), buffer := Some(code))))
    case CloseChannel(p) =>
      if p >= |s.processes| || s.processes[p].result.None? then None
      else Some(Update(s, p, s.processes[p].(closed := true)))
    case _ =>
      if step.t >= |s.threads| then None
      else if JobPc(s.threads[step.t].pc) then DoJob(s, step, step.t)
      else DoRun(s, step, step.t)
  }

  predicate JobPc(pc: Pc) {
    pc.JobReserved? || pc.JobStartFailed? || pc.JobWaiting? || pc.JobCompleting? || pc.JobLeaving?
  }

  /** The channel delivers its value, or the zero value once it is closed and empty. */
  predicate Ready(p: Process) { p.buffer.Some? || p.closed }

  function Take(s: State, t: nat, next: Pc): (s': State)
    requires WellFormed(s) && t < |s.threads|
    ensures WellFormed(s')
  {
    var p := s.threads[t].process;
    Update(Goto(s, t, next), p, s.processes[p].(buffer := None)).(
      receipts := s.receipts + [Receipt(t, p, s.processes[p].buffer)])
  }

  /** The next step of `Start` or of the goroutine that waits for a job. */
  function DoJob(s: State, step: Step, t: nat): (r: Option<State>)
    requires WellFormed(s) && t < |s.threads| && JobPc(s.threads[t].pc)
    ensures r.Some? ==> WellFormed(r.value)
  {
    var pc := s.threads[t].pc;
    var p := s.threads[t].process;
    if pc.JobReserved? && step.Launch? then
      Some(Update(Goto(s, t, JobWaiting(pc.key)), p, s.processes[p].(started := true)))
    else if pc.JobReserved? && step.LaunchFails? then
      Some(Goto(Cancelled(s, p, "process_start_failed"), t, JobStartFailed(pc.key)))
    else if (pc.JobStartFailed? && step.CleanUp?) || (pc.JobLeaving? && step.Leave?) then
      Some(Goto(s, t, if pc.JobLeaving? then JobDone else Ended).(running := Removed(s.running, pc.key, p)))
    else if pc.JobWaiting? && step.Receive? && Ready(s.processes[p]) then
      Some(Take(s, t, JobCompleting(pc.key, s.processes[p].buffer)))
    else if pc.JobCompleting? && step.Complete? then
      Some(Goto(s, t, JobLeaving(pc.key)).(completions := s.completions + [Completion(t, pc.received)]))
    else None
  }

  /** The next step of `RunForeground`. */
  function DoRun(s: State, step: Step, t: nat): (r: Option<State>)
    requires WellFormed(s) && t < |s.threads|
    ensures r.Some? ==> WellFormed(r.value)
  {
    var pc := s.threads[t].pc;
    var p := s.threads[t].process;
    if pc.RunReserved? && step.Launch? then
      Some(Update(Goto(s, t, RunSelecting(pc.key)), p, s.processes[p].(started := true)))
    else if pc.RunReserved? && step.LaunchFails? then
      Some(Goto(Cancelled(s, p, "process_start_failed"), t, RunStartFailed(pc.key)))
    else if (pc.RunStartFailed? && step.CleanUp?) || (pc.RunLeaving? && step.Leave?) then
      Some(Goto(s, t, Ended).(foreground := Removed(s.foreground, pc.key, p)))
    else if (pc.RunSelecting? || pc.RunDraining?) && step.Receive? && Ready(s.processes[p]) then
      Some(Take(s, t, RunLeaving(pc.key)))
    else if pc.RunSelecting? && (step.Timeout? || (step.RootDone? && s.closed)) then
      Some(Goto(Cancelled(s, p, if step.Timeout? then "foreground_timeout" else "executor_closed"), t, RunDraining(pc.key)))
    else if pc.RunSelecting? && step.Interrupt? then
      Some(Update(Goto(s, t, Ended), p, s.processes[p].(detached := true)))
    else None
  }

  function Exec(s: State, steps: seq<Step>): (r: Option<State>)
    requires WellFormed(s)
    ensures r.Some? ==> WellFormed(r.value)
    decreases |steps|
  {
    if steps == [] then Some(s)
    else
      match Do(s, steps[0])
      case None => None
      case Some(next) => Exec(next, steps[1..])
  }
}
