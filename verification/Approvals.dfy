/** Approval-gated shell execution (internal/kernel/approval.go, shell.go and the job
    start of jobs.go): blocked operations, approval decisions, retries and the two ways a
    command is run, as steps of concurrent calls over one event log. A crash ends all
    calls in progress. */
module Approvals {
  import opened Wrappers

  /** What a shell request asks for. */
  datatype Core = Core(session: string, turn: string, cwd: string, command: string, timeout: int)

  datatype OpStatus = Blocked(reason: string) | Running | Done

  datatype Op = Op(id: string, core: Core, key: string, status: OpStatus)

  datatype ApprovalStatus = Pending | Approved | Denied | Expired

  datatype Approval = Approval(id: string, session: string, turn: string, op: string, snapshot: string, status: ApprovalStatus)

  datatype Event = OpEvent(op: Op) | ApprovalEvent(approval: Approval) | JobEvent(session: string, key: string)

  datatype Auth = Allowed | ApprovalRequired | Refused(reason: string)

  /** A shell request with its idempotency key, the policy of its gateway and, for the
      effect of an approval, the approval's id. */
  datatype Call = Call(core: Core, key: string, policy: string, approvedBy: string)

  /** Policy resolution, command preparation and timeout rules. `policy` is the kernel's
      own; `prepare` is the reason not to run a request, or empty; `planned` the working
      directory it would run in. Longer timeouts than `threshold` make managed jobs. */
  datatype Env = Env(policy: string, snapshot: string -> string, authorize: Call -> Auth, prepare: Call -> string,
                     planned: Call -> string, defaultTimeout: int, threshold: int)

  datatype Pc =
    | Looking
    | Waiting
    | Checking
    | Authorizing
    | Recording
    | Executing(op: Op)
    | Finishing(op: Op)
    | Preparing
    | Starting
    | Requesting(op: Op)
    | Denying(op: Op)
    | Ended

  datatype Thread = Thread(call: Call, pc: Pc)

  datatype State = State(log: seq<Event>, threads: seq<Thread>, mutex: Option<nat>, executions: seq<Call>)

  datatype Step =
    | Submit(call: Call, invoke: bool)
    | Decide(approval: string, approve: bool, expired: bool)
    | Look(t: nat)
    | Acquire(t: nat)
    | Check(t: nat)
    | Authorize(t: nat, newId: string)
    | Record(t: nat, newId: string)
    | Execute(t: nat)
    | Finish(t: nat)
    | Prepare(t: nat)
    | Launch(t: nat)
    | Request(t: nat, newId: string)
    | Deny(t: nat)
    | Fail(t: nat)
    | Crash

  const INIT := State([], [], None, [])
  const APPROVAL_REQUIRED := "approval_required"

  // ------------------------------------------------------------------ lookups

  function ApprovalById(log: seq<Event>, id: string): Option<Approval> {
    if log == [] then None
    else
      var e := log[|log| - 1];
      if e.ApprovalEvent? && e.approval.id == id then Some(e.approval) else ApprovalById(log[..|log| - 1], id)
  }

  function ApprovalByOp(log: seq<Event>, session: string, op: string): Option<Approval> {
    if log == [] then None
    else
      var e := log[|log| - 1];
      if e.ApprovalEvent? && e.approval.session == session && e.approval.op == op then Some(e.approval)
      else ApprovalByOp(log[..|log| - 1], session, op)
  }

  function OpById(log: seq<Event>, session: string, id: string): Option<Op> {
    if log == [] then None
    else
      var e := log[|log| - 1];
      if e.OpEvent? && e.op.core.session == session && e.op.id == id then Some(e.op)
      else OpById(log[..|log| - 1], session, id)
  }

  function OpByKey(log: seq<Event>, session: string, key: string): Option<Op> {
    if log == [] then None
    else
      var e := log[|log| - 1];
      if e.OpEvent? && e.op.core.session == session && e.op.key == key then Some(e.op)
      else OpByKey(log[..|log| - 1], session, key)
  }

  predicate JobByKey(log: seq<Event>, session: string, key: string) {
    if log == [] then false
    else log[|log| - 1] == JobEvent(session, key) || JobByKey(log[..|log| - 1], session, key)
  }

  predicate NewOp(log: seq<Event>, id: string) {
    forall i | 0 <= i < |log| :: log[i].OpEvent? ==> log[i].op.id != id
  }

  predicate NewApproval(log: seq<Event>, id: string) {
    id != "" && forall i | 0 <= i < |log| :: log[i].ApprovalEvent? ==> log[i].approval.id != id
  }

  // ------------------------------------------------------------------ authorization

  function Normalize(env: Env, timeout: int): int { if timeout == 0 then env.defaultTimeout else timeout }

  predicate Managed(env: Env, call: Call) { Normalize(env, call.core.timeout) > env.threshold }

  function EffectKey(approval: string): string { "approval:" + approval }

  /** The request that carries out an approved operation. */
  function EffectOf(env: Env, approval: string, op: Op): Call {
    Call(op.core, EffectKey(approval), env.policy, approval)
  }

  /** The approval is approved, under the policy of the call, for an operation with the
      session, turn, working directory, command and timeout of the call. */
  predicate Authorizes(env: Env, log: seq<Event>, call: Call) {
    var a := ApprovalById(log, call.approvedBy);
    && call.approvedBy != "" && a.Some? && a.value.status == Approved
    && call.key == EffectKey(call.approvedBy)
    && a.value.snapshot == env.snapshot(call.policy)
    && var op := OpById(log, a.value.session, a.value.op);
       && op.Some? && op.value.core.session == call.core.session && op.value.core.turn == call.core.turn
       && op.value.core.cwd == call.core.cwd && op.value.core.command == call.core.command
       && Normalize(env, op.value.core.timeout) == Normalize(env, call.core.timeout)
  }

  /** The first check that fails; empty when the approval authorizes the call. */
  function ApprovalRefusal(env: Env, log: seq<Event>, call: Call): (reason: string)
    ensures reason == "" <==> Authorizes(env, log, call)
  {
    if call.approvedBy == "" then APPROVAL_REQUIRED
    else
      match ApprovalById(log, call.approvedBy)
      case None => "approval_not_found"
      case Some(a) =>
        if a.status != Approved then "approval_not_approved"
        else if call.key != EffectKey(call.approvedBy) then "approval_effect_mismatch"
        else if a.snapshot != env.snapshot(call.policy) then "policy_snapshot_mismatch"
        else
          match OpById(log, a.session, a.op)
          case None => "approval_operation_missing"
          case Some(op) =>
            if op.core.session != call.core.session || op.core.turn != call.core.turn || op.core.cwd != call.core.cwd
               || op.core.command != call.core.command
               || Normalize(env, op.core.timeout) != Normalize(env, call.core.timeout)
            then "approval_effect_mismatch" else ""
  }

  /** Why the request is blocked; empty when it may run. */
  function BlockReason(env: Env, log: seq<Event>, call: Call): (reason: string)
    ensures reason == "" && env.authorize(call) == ApprovalRequired ==> Authorizes(env, log, call)
    ensures reason == "" ==> !env.authorize(call).Refused?
  {
    var prepared := env.prepare(call);
    match env.authorize(call)
    case Allowed => prepared
    case Refused(reason) => if reason == "" then "unknown" else reason
    case ApprovalRequired =>
      var refusal := ApprovalRefusal(env, log, call);
      if refusal == "" || refusal == APPROVAL_REQUIRED then (if prepared != "" then prepared else refusal) else refusal
  }

  function NewOperation(env: Env, call: Call, id: string, status: OpStatus, cwd: string): Op {
    Op(id, call.core.(cwd := cwd, timeout := Normalize(env, call.core.timeout)), call.key, status)
  }

  /** A managed request blocked by authorization keeps the directory it named. */
  function BlockedCwd(env: Env, call: Call, reason: string): string {
    if Managed(env, call) && reason != env.prepare(call) then call.core.cwd else env.planned(call)
  }

  // ------------------------------------------------------------------ steps

  function Goto(s: State, t: nat, pc: Pc): State
    requires t < |s.threads|
  {
    s.(threads := s.threads[t := s.threads[t].(pc := pc)])
  }

  function Append(s: State, e: Event): State { s.(log := s.log + [e]) }

  /** The call returns and gives up the operation mutex if it has it. */
  function Return(s: State, t: nat): State
    requires t < |s.threads|
  {
    Goto(s, t, Ended).(mutex := if s.mutex == Some(t) then None else s.mutex)
  }

  /** Marks a running operation as failed, never running it again. */
  function FailStale(s: State, op: Op): State {
    if op.status == Running then Append(s, OpEvent(op.(status := Done))) else s
  }

  function Spawn(s: State, call: Call, pc: Pc): State {
    s.(threads := s.threads + [Thread(call, pc)])
  }

  /** The call that carries out approval `id`: a managed job or a foreground run. */
  function SpawnEffect(env: Env, s: State, id: string, op: Op): State {
    Spawn(s, EffectOf(env, id, op), if Managed(env, EffectOf(env, id, op)) then Looking else Waiting)
  }

  function Decided(env: Env, s: State, id: string, approve: bool, expired: bool): State {
    match ApprovalById(s.log, id)
    case None => s
    case Some(a) =>
      match OpById(s.log, a.session, a.op)
      case None => s
      case Some(op) =>
        if a.status != Pending then
          (if a.status == Approved && approve then SpawnEffect(env, s, id, op) else s)
        else if expired then
          Refuse(s, a.(status := Expired), op.(status := Blocked("approval_expired")))
        else if a.snapshot != env.snapshot(env.policy) then
          Refuse(s, a.(status := Denied), op.(status := Blocked("policy_snapshot_mismatch")))
        else if op.status != Blocked(APPROVAL_REQUIRED) then
          Refuse(s, a.(status := Denied), op.(status := Blocked("approval_operation_stale")))
        else if !approve then
          Refuse(s, a.(status := Denied), op.(status := Blocked("approval_denied")))
        else SpawnEffect(env, Append(s, ApprovalEvent(a.(status := Approved))), id, op)
  }

  function Refuse(s: State, a: Approval, op: Op): State {
    Spawn(Append(s, ApprovalEvent(a)), Call(op.core, op.key, "", ""), Denying(op))
  }

  function Do(env: Env, s: State, step: Step): Option<State> {
    match step
    case Submit(call, invoke) => if call.approvedBy != "" then None else Some(Spawn(s, call, if invoke then Looking else Waiting))
    case Decide(id, approve, expired) => Some(Decided(env, s, id, approve, expired))
    case Crash => Some(s.(threads := seq(|s.threads|, i requires 0 <= i < |s.threads| => s.threads[i].(pc := Ended)), mutex := None))
    case _ => if step.t < |s.threads| then DoThread(env, s, step, step.t) else None
  }

  function DoThread(env: Env, s: State, step: Step, t: nat): Option<State>
    requires t < |s.threads|
  {
    var call := s.threads[t].call;
    var pc := s.threads[t].pc;
    var session := call.core.session;
    if step.Look? && pc.Looking? then
      var op := if call.key == "" then None else OpByKey(s.log, session, call.key);
      Some(if op.Some? then Goto(FailStale(s, op.value), t, Ended)
           else if call.key != "" && JobByKey(s.log, session, call.key) then Goto(s, t, Ended)
           else Goto(s, t, if Managed(env, call) then Authorizing else Waiting))
    else if step.Acquire? && pc.Waiting? && s.mutex.None? then Some(Goto(s, t, Checking).(mutex := Some(t)))
    else if step.Check? && pc.Checking? then
      var op := if call.key == "" then None else OpByKey(s.log, session, call.key);
      Some(if op.Some? then Return(FailStale(s, op.value), t) else Goto(s, t, Authorizing))
    else if step.Authorize? && pc.Authorizing? then
      var reason := BlockReason(env, s.log, call);
      if reason == "" then Some(Goto(s, t, if s.mutex == Some(t) then Recording else Preparing))
      else if !NewOp(s.log, step.newId) then None
      else
        var op := NewOperation(env, call, step.newId, Blocked(reason), BlockedCwd(env, call, reason));
        Some(Goto(Append(s, OpEvent(op)), t, Requesting(op)))
    else if step.Record? && pc.Recording? && NewOp(s.log, step.newId) then
      var op := NewOperation(env, call, step.newId, Running, env.planned(call));
      Some(Goto(Append(s, OpEvent(op)), t, Executing(op)))
    else if step.Execute? && pc.Executing? then Some(Goto(s, t, Finishing(pc.op)).(executions := s.executions + [call]))
    else if step.Finish? && pc.Finishing? then Some(Return(Append(s, OpEvent(pc.op.(status := Done))), t))
    else if step.Prepare? && pc.Preparing? then
      Some(if call.key != "" && JobByKey(s.log, session, call.key) then Goto(s, t, Ended)
           else Goto(Append(s, JobEvent(session, call.key)), t, Starting))
    else if step.Launch? && pc.Starting? then Some(Goto(s, t, Ended).(executions := s.executions + [call]))
    else if step.Request? && pc.Requesting? && NewApproval(s.log, step.newId) then Some(Return(Requested(env, s, pc.op, step.newId), t))
    else if step.Deny? && pc.Denying? then Some(Return(Append(s, OpEvent(pc.op)), t))
    // an append or a load fails: the call returns an error, even after its command ran
    else if step.Fail? && !pc.Ended? then Some(Return(s, t))
    else None
  }

  /** A new approval for an operation blocked for want of one, unless one is pending. */
  function Requested(env: Env, s: State, op: Op, newId: string): State {
    var existing := ApprovalByOp(s.log, op.core.session, op.id);
    if op.status != Blocked(APPROVAL_REQUIRED) || (existing.Some? && existing.value.status == Pending) then s
    else Append(s, ApprovalEvent(Approval(newId, op.core.session, op.core.turn, op.id, env.snapshot(env.policy), Pending)))
  }

  function Exec(env: Env, steps: seq<Step>): Option<State> {
    if steps == [] then Some(INIT)
    else
      match Exec(env, steps[..|steps| - 1])
      case None => None
      case Some(before) => Do(env, before, steps[|steps| - 1])
  }
}
