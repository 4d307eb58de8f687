/** What every interleaving of requests, decisions, retries and crashes keeps. */
module ApprovalTheorems {
  import opened Wrappers
  import opened Approvals

  // ------------------------------------------------------------------ the log

  /** Records of one operation differ only in their status. */
  ghost predicate OpsAgree(log: seq<Event>) {
    forall i, j | 0 <= i < j < |log| && log[i].OpEvent? && log[j].OpEvent? && log[i].op.core.session == log[j].op.core.session
      && log[i].op.id == log[j].op.id :: log[i].op.core == log[j].op.core && log[i].op.key == log[j].op.key
  }

  /** Of two events of one approval the first requests it and the second decides it. */
  ghost predicate ApprovalsAgree(log: seq<Event>) {
    forall i, j | 0 <= i < j < |log| && log[i].ApprovalEvent? && log[j].ApprovalEvent? && log[i].approval.id == log[j].approval.id ::
      log[i].approval.status == Pending && log[j].approval.status != Pending
      && log[j].approval == log[i].approval.(status := log[j].approval.status)
  }

  ghost predicate LogInv(log: seq<Event>) { OpsAgree(log) && ApprovalsAgree(log) }

  lemma {:induction false} ApprovalAt(log: seq<Event>, id: string) returns (i: nat)
    requires ApprovalById(log, id).Some?
    ensures i < |log| && log[i] == ApprovalEvent(ApprovalById(log, id).value) && log[i].approval.id == id
    ensures forall j | i < j < |log| && log[j].ApprovalEvent? :: log[j].approval.id != id
  {
    if log[|log| - 1].ApprovalEvent? && log[|log| - 1].approval.id == id { return |log| - 1; }
    i := ApprovalAt(log[..|log| - 1], id);
  }

  lemma {:induction false} OpAt(log: seq<Event>, session: string, id: string) returns (i: nat)
    requires OpById(log, session, id).Some?
    ensures i < |log| && log[i] == OpEvent(OpById(log, session, id).value)
    ensures log[i].op.core.session == session && log[i].op.id == id
  {
    if log[|log| - 1].OpEvent? && log[|log| - 1].op.core.session == session && log[|log| - 1].op.id == id { return |log| - 1; }
    i := OpAt(log[..|log| - 1], session, id);
  }

  lemma {:induction false} OpKeyAt(log: seq<Event>, session: string, key: string) returns (i: nat)
    requires OpByKey(log, session, key).Some?
    ensures i < |log| && log[i] == OpEvent(OpByKey(log, session, key).value)
  {
    if log[|log| - 1].OpEvent? && log[|log| - 1].op.core.session == session && log[|log| - 1].op.key == key { return |log| - 1; }
    i := OpKeyAt(log[..|log| - 1], session, key);
  }

  /** Some record of this operation, up to its status, is in the log. */
  ghost predicate Known(log: seq<Event>, op: Op) {
    exists i :: 0 <= i < |log| && log[i].OpEvent? && SameOp(log[i].op, op)
  }

  predicate SameOp(a: Op, b: Op) { a.id == b.id && a.core == b.core && a.key == b.key }

  /** What may be appended: a record of a known or a new operation, the request of a new
      approval, the decision of a pending one, a job start. */
  ghost predicate Appendable(log: seq<Event>, e: Event) {
    match e
    case OpEvent(op) => Known(log, op) || NewOp(log, op.id)
    case ApprovalEvent(a) =>
      if a.status == Pending then NewApproval(log, a.id)
      else ApprovalById(log, a.id) == Some(a.(status := Pending))
    case JobEvent(_, _) => true
  }

  lemma AppendKeepsOps(log: seq<Event>, e: Event)
    requires LogInv(log) && Appendable(log, e)
    ensures OpsAgree(log + [e])
  {
    if e.OpEvent? && Known(log, e.op) {
      var k :| 0 <= k < |log| && log[k].OpEvent? && SameOp(log[k].op, e.op);
      forall i | 0 <= i < |log| && log[i].OpEvent? && log[i].op.core.session == e.op.core.session && log[i].op.id == e.op.id
        ensures log[i].op.core == e.op.core && log[i].op.key == e.op.key
      {
        if i < k { assert log[i].op.core == log[k].op.core; } else if k < i { assert log[k].op.core == log[i].op.core; }
      }
    }
  }

  lemma AppendKeepsApprovals(log: seq<Event>, e: Event)
    requires LogInv(log) && Appendable(log, e)
    ensures ApprovalsAgree(log + [e])
  {
    if e.ApprovalEvent? && e.approval.status != Pending {
      var k := ApprovalAt(log, e.approval.id);
      forall i | 0 <= i < |log| && log[i].ApprovalEvent? && log[i].approval.id == e.approval.id ensures i == k { }
    }
  }

  // ------------------------------------------------------------------ what growing keeps

  /** The call is the effect of its approval: approved, for this very operation, under
      the kernel's policy. */
  ghost predicate Granted(env: Env, log: seq<Event>, call: Call) {
    var a := ApprovalById(log, call.approvedBy);
    && a.Some? && a.value.status == Approved && a.value.snapshot == env.snapshot(env.policy)
    && var op := OpById(log, a.value.session, a.value.op);
       op.Some? && call == EffectOf(env, call.approvedBy, op.value)
  }

  lemma GrantedGrows(env: Env, log: seq<Event>, e: Event, call: Call)
    requires LogInv(log) && Appendable(log, e) && Granted(env, log, call)
    ensures Granted(env, log + [e], call)
  {
    AppendKeepsOps(log, e);
    assert (log + [e])[..|log|] == log;
    var a := ApprovalById(log, call.approvedBy).value;
    var k := ApprovalAt(log, call.approvedBy);
    assert ApprovalById(log + [e], call.approvedBy) == Some(a);
    var m := OpAt(log, a.session, a.op);
    assert (log + [e])[m] == log[m] && (log + [e])[|log|] == e;
  }

  lemma LookupsGrow(log: seq<Event>, e: Event, session: string, key: string)
    ensures OpByKey(log, session, key).Some? ==> OpByKey(log + [e], session, key).Some?
    ensures JobByKey(log, session, key) ==> JobByKey(log + [e], session, key)
    ensures e.OpEvent? && e.op.core.session == session && e.op.key == key ==> OpByKey(log + [e], session, key).Some?
    ensures e == JobEvent(session, key) ==> JobByKey(log + [e], session, key)
  {
    assert (log + [e])[..|log|] == log;
  }

  lemma KnownGrows(log: seq<Event>, e: Event, op: Op)
    ensures Known(log, op) ==> Known(log + [e], op)
    ensures e.OpEvent? && SameOp(e.op, op) ==> Known(log + [e], op)
  {
    assert (log + [e])[|log|] == e;
    if Known(log, op) {
      var i :| 0 <= i < |log| && log[i].OpEvent? && SameOp(log[i].op, op);
      assert (log + [e])[i] == log[i];
    }
  }

  // ------------------------------------------------------------------ the invariant

  /** The approval's command has been run. */
  ghost predicate Ran(s: State, approval: string) { exists x :: x in s.executions && x.approvedBy == approval }

  ghost predicate HasEffect(s: State, call: Call) {
    OpByKey(s.log, call.core.session, call.key).Some?
  }

  /** Stands between the operation lookup and the end of the run, under the mutex. */
  predicate InSection(env: Env, thread: Thread) {
    || thread.pc.Checking? || thread.pc.Recording? || thread.pc.Executing? || thread.pc.Finishing?
    || (thread.pc.Authorizing? && !Managed(env, thread.call))
  }

  /** Has found no earlier effect and has not run the command yet. */
  predicate BeforeRun(env: Env, thread: Thread) {
    thread.pc.Recording? || thread.pc.Executing? || (thread.pc.Authorizing? && !Managed(env, thread.call))
  }

  predicate Cleared(pc: Pc) { pc.Recording? || pc.Executing? || pc.Preparing? || pc.Starting? }

  ghost predicate ThreadInv(env: Env, s: State, t: nat)
    requires t < |s.threads|
  {
    var thread := s.threads[t];
    var call, pc := thread.call, thread.pc;
    && (call.approvedBy != "" ==> Granted(env, s.log, call))
    && (InSection(env, thread) ==> s.mutex == Some(t) && (call.approvedBy != "" ==> !Managed(env, call)))
    && (call.approvedBy != "" && BeforeRun(env, thread) ==> !Ran(s, call.approvedBy))
    && (pc.Executing? ==> HasEffect(s, call) || call.key == "")
    && (call.approvedBy != "" && (pc.Preparing? || pc.Starting?) ==> Managed(env, call))
    && (call.approvedBy != "" && Managed(env, call) ==> s.mutex != Some(t))
    && (call.approvedBy != "" && pc.Looking? ==> Managed(env, call))
    && (call.approvedBy != "" && pc.Waiting? ==> !Managed(env, call))
    && (call.approvedBy != "" && pc.Starting? ==> JobByKey(s.log, call.core.session, call.key) && !Ran(s, call.approvedBy))
    && (Cleared(pc) && env.authorize(call) == ApprovalRequired ==> call.approvedBy != "")
    && (Cleared(pc) ==> !env.authorize(call).Refused?)
    && (pc.Executing? || pc.Finishing? || pc.Requesting? || pc.Denying? ==> Known(s.log, pc.op))
  }

  ghost predicate RunInv(env: Env, s: State, call: Call) {
    && !env.authorize(call).Refused?
    && (env.authorize(call) == ApprovalRequired ==> call.approvedBy != "")
    && (call.approvedBy != "" ==>
          && Granted(env, s.log, call)
          && (if Managed(env, call) then JobByKey(s.log, call.core.session, call.key) else HasEffect(s, call)))
  }

  ghost predicate OneStart(s: State) {
    forall t, u | 0 <= t < |s.threads| && 0 <= u < |s.threads| && s.threads[t].pc.Starting? && s.threads[u].pc.Starting?
      && s.threads[t].call.approvedBy == s.threads[u].call.approvedBy != "" :: t == u
  }

  ghost predicate RunsOnce(s: State) {
    forall i, j | 0 <= i < j < |s.executions| && s.executions[i].approvedBy != "" ::
      s.executions[i].approvedBy != s.executions[j].approvedBy
  }

  ghost predicate ThreadsOk(env: Env, s: State) { forall t | 0 <= t < |s.threads| :: ThreadInv(env, s, t) }

  ghost predicate RunsOk(env: Env, s: State) { forall x | x in s.executions :: RunInv(env, s, x) }

  /** Only a current policy snapshot is ever approved. */
  ghost predicate ApprovalOk(env: Env, e: Event) {
    e.ApprovalEvent? ==> e.approval.id != "" && (e.approval.status == Approved ==> e.approval.snapshot == env.snapshot(env.policy))
  }

  ghost predicate Inv(env: Env, s: State) {
    && LogInv(s.log) && (forall i | 0 <= i < |s.log| :: ApprovalOk(env, s.log[i])) && ThreadsOk(env, s) && RunsOk(env, s) && OneStart(s) && RunsOnce(s)
    && (s.mutex.Some? ==> s.mutex.value < |s.threads|)
  }

  /** Everything the invariant says survives an append. */
  lemma AppendKeeps(env: Env, s: State, e: Event)
    requires Inv(env, s) && Appendable(s.log, e) && ApprovalOk(env, e)
    ensures Inv(env, Append(s, e))
  {
    var s' := Append(s, e);
    AppendKeepsOps(s.log, e);
    AppendKeepsApprovals(s.log, e);
    forall t | 0 <= t < |s.threads| ensures ThreadInv(env, s', t) { ThreadGrows(env, s, e, t); }
    forall x | x in s.executions ensures RunInv(env, s', x) {
      assert RunInv(env, s, x);
      if x.approvedBy != "" { GrantedGrows(env, s.log, e, x); }
      LookupsGrow(s.log, e, x.core.session, x.key);
    }
  }

  lemma ThreadGrows(env: Env, s: State, e: Event, t: nat)
    requires LogInv(s.log) && Appendable(s.log, e) && t < |s.threads| && ThreadInv(env, s, t)
    ensures ThreadInv(env, Append(s, e), t)
  {
    var call, pc := s.threads[t].call, s.threads[t].pc;
    if call.approvedBy != "" { GrantedGrows(env, s.log, e, call); }
    LookupsGrow(s.log, e, call.core.session, call.key);
    if pc.Executing? || pc.Finishing? || pc.Requesting? || pc.Denying? { KnownGrows(s.log, e, pc.op); }
  }

  /** A call moves on; it may take or give up the mutex. */
  lemma MoveKeeps(env: Env, s: State, t: nat, pc: Pc, s': State)
    requires Inv(env, s) && t < |s.threads|
    requires s' == Goto(s, t, pc).(mutex := s'.mutex)
    requires s'.mutex == s.mutex || (s.mutex == None && s'.mutex == Some(t)) || (s.mutex == Some(t) && s'.mutex == None)
    requires ThreadInv(env, s', t)
    requires pc.Starting? && s.threads[t].call.approvedBy != "" ==>
               forall u | 0 <= u < |s.threads| && s.threads[u].pc.Starting? :: s.threads[u].call.approvedBy != s.threads[t].call.approvedBy
    ensures Inv(env, s')
  {
    forall u | 0 <= u < |s'.threads| ensures ThreadInv(env, s', u) {
      if u != t { assert ThreadInv(env, s, u); }
    }
    forall x | x in s'.executions ensures RunInv(env, s', x) { assert RunInv(env, s, x); }
  }

  lemma SpawnKeeps(env: Env, s: State, call: Call, pc: Pc)
    requires Inv(env, s) && !pc.Starting? && ThreadInv(env, Spawn(s, call, pc), |s.threads|)
    ensures Inv(env, Spawn(s, call, pc))
  {
    var s' := Spawn(s, call, pc);
    forall u | 0 <= u < |s'.threads| ensures ThreadInv(env, s', u) {
      if u < |s.threads| { assert ThreadInv(env, s, u); }
    }
    forall x | x in s'.executions ensures RunInv(env, s', x) { assert RunInv(env, s, x); }
  }

  /** The call runs its command: nobody else has run it or is about to. */
  lemma RunKeeps(env: Env, s: State, t: nat, pc: Pc, s': State)
    requires Inv(env, s) && t < |s.threads| && (pc.Ended? || (pc.Finishing? && Known(s.log, pc.op)))
    requires s' == Goto(s, t, pc).(executions := s.executions + [s.threads[t].call])
    requires RunInv(env, s', s.threads[t].call) && (pc.Finishing? ==> InSection(env, s.threads[t]))
    requires var a := s.threads[t].call.approvedBy;
             a != "" ==> !Ran(s, a) && forall u | 0 <= u < |s.threads| && u != t && s.threads[u].call.approvedBy == a ::
                           !BeforeRun(env, s.threads[u]) && !s.threads[u].pc.Starting?
    ensures Inv(env, s')
  {
    assert ThreadInv(env, s, t);
    forall a | a != s.threads[t].call.approvedBy ensures Ran(s', a) ==> Ran(s, a) { }
    forall u | 0 <= u < |s'.threads| ensures ThreadInv(env, s', u) {
      if u != t { assert ThreadInv(env, s, u); }
    }
    forall x | x in s'.executions ensures RunInv(env, s', x) {
      if x in s.executions { assert RunInv(env, s, x); }
    }
  }

  // ------------------------------------------------------------------ the steps of a call

  lemma ReturnKeeps(env: Env, s: State, t: nat)
    requires Inv(env, s) && t < |s.threads|
    ensures Inv(env, Return(s, t)) && Inv(env, Goto(s, t, Ended))
  {
    assert ThreadInv(env, s, t);
    MoveKeeps(env, s, t, Ended, Return(s, t));
    MoveKeeps(env, s, t, Ended, Goto(s, t, Ended));
  }

  lemma StaleKeeps(env: Env, s: State, session: string, key: string)
    requires Inv(env, s) && OpByKey(s.log, session, key).Some?
    ensures Inv(env, FailStale(s, OpByKey(s.log, session, key).value))
  {
    var op := OpByKey(s.log, session, key).value;
    var i := OpKeyAt(s.log, session, key);
    assert SameOp(s.log[i].op, op.(status := Done));
    if op.status == Running { AppendKeeps(env, s, OpEvent(op.(status := Done))); }
  }

  /** Two calls for one approval are the same request. */
  lemma SameCall(env: Env, log: seq<Event>, a: Call, b: Call)
    requires Granted(env, log, a) && Granted(env, log, b) && a.approvedBy == b.approvedBy
    ensures a == b
  {
  }

  lemma LookKeeps(env: Env, s: State, t: nat)
    requires Inv(env, s) && t < |s.threads| && DoThread(env, s, Look(t), t).Some?
    ensures Inv(env, DoThread(env, s, Look(t), t).value)
  {
    assert ThreadInv(env, s, t);
    var call := s.threads[t].call;
    if call.key != "" && OpByKey(s.log, call.core.session, call.key).Some? {
      StaleKeeps(env, s, call.core.session, call.key);
      ReturnKeeps(env, FailStale(s, OpByKey(s.log, call.core.session, call.key).value), t);
    } else if call.key != "" && JobByKey(s.log, call.core.session, call.key) {
      ReturnKeeps(env, s, t);
    } else {
      var pc := if Managed(env, call) then Authorizing else Waiting;
      MoveKeeps(env, s, t, pc, Goto(s, t, pc));
    }
  }

  lemma AcquireKeeps(env: Env, s: State, t: nat)
    requires Inv(env, s) && t < |s.threads| && DoThread(env, s, Acquire(t), t).Some?
    ensures Inv(env, DoThread(env, s, Acquire(t), t).value)
  {
    assert ThreadInv(env, s, t);
    MoveKeeps(env, s, t, Checking, Goto(s, t, Checking).(mutex := Some(t)));
  }

  /** While the approval has no operation, nobody has run its command. */
  lemma NoneRunYet(env: Env, s: State, call: Call)
    requires Inv(env, s) && call.approvedBy != "" && Granted(env, s.log, call) && !Managed(env, call) && !HasEffect(s, call)
    ensures !Ran(s, call.approvedBy)
  {
    forall x | x in s.executions ensures x.approvedBy != call.approvedBy {
      assert RunInv(env, s, x);
      if x.approvedBy == call.approvedBy { SameCall(env, s.log, x, call); }
    }
  }

  lemma CheckKeeps(env: Env, s: State, t: nat)
    requires Inv(env, s) && t < |s.threads| && DoThread(env, s, Check(t), t).Some?
    ensures Inv(env, DoThread(env, s, Check(t), t).value)
  {
    assert ThreadInv(env, s, t);
    var call := s.threads[t].call;
    if call.key != "" && OpByKey(s.log, call.core.session, call.key).Some? {
      StaleKeeps(env, s, call.core.session, call.key);
      ReturnKeeps(env, FailStale(s, OpByKey(s.log, call.core.session, call.key).value), t);
    } else {
      if call.approvedBy != "" { NoneRunYet(env, s, call); }
      MoveKeeps(env, s, t, Authorizing, Goto(s, t, Authorizing));
    }
  }

  lemma AuthorizeKeeps(env: Env, s: State, t: nat, id: string)
    requires Inv(env, s) && t < |s.threads| && DoThread(env, s, Authorize(t, id), t).Some?
    ensures Inv(env, DoThread(env, s, Authorize(t, id), t).value)
  {
    assert ThreadInv(env, s, t);
    var call := s.threads[t].call;
    var reason := BlockReason(env, s.log, call);
    if reason == "" {
      var pc := if s.mutex == Some(t) then Recording else Preparing;
      MoveKeeps(env, s, t, pc, Goto(s, t, pc));
    } else {
      BlockKeeps(env, s, t, NewOperation(env, call, id, Blocked(reason), BlockedCwd(env, call, reason)));
    }
  }

  /** A blocked operation is recorded and its caller goes on to request approval. */
  lemma BlockKeeps(env: Env, s: State, t: nat, op: Op)
    requires Inv(env, s) && t < |s.threads| && s.threads[t].pc.Authorizing? && NewOp(s.log, op.id)
    ensures Inv(env, Goto(Append(s, OpEvent(op)), t, Requesting(op)))
  {
    AppendKeeps(env, s, OpEvent(op));
    KnownGrows(s.log, OpEvent(op), op);
    var s1 := Append(s, OpEvent(op));
    assert ThreadInv(env, s1, t);
    MoveKeeps(env, s1, t, Requesting(op), Goto(s1, t, Requesting(op)));
  }

  lemma RecordKeeps(env: Env, s: State, t: nat, id: string)
    requires Inv(env, s) && t < |s.threads| && DoThread(env, s, Record(t, id), t).Some?
    ensures Inv(env, DoThread(env, s, Record(t, id), t).value)
  {
    var call := s.threads[t].call;
    var op := NewOperation(env, call, id, Running, env.planned(call));
    AppendKeeps(env, s, OpEvent(op));
    KnownGrows(s.log, OpEvent(op), op);
    LookupsGrow(s.log, OpEvent(op), call.core.session, call.key);
    var s1 := Append(s, OpEvent(op));
    assert ThreadInv(env, s1, t);
    MoveKeeps(env, s1, t, Executing(op), Goto(s1, t, Executing(op)));
  }

  lemma ExecuteKeeps(env: Env, s: State, t: nat)
    requires Inv(env, s) && t < |s.threads| && DoThread(env, s, Execute(t), t).Some?
    ensures Inv(env, DoThread(env, s, Execute(t), t).value)
  {
    assert ThreadInv(env, s, t);
    var call, op := s.threads[t].call, s.threads[t].pc.op;
    forall u | 0 <= u < |s.threads| && u != t && call.approvedBy != "" && s.threads[u].call.approvedBy == call.approvedBy
      ensures !BeforeRun(env, s.threads[u]) && !s.threads[u].pc.Starting?
    {
      assert ThreadInv(env, s, u);
      SameCall(env, s.log, s.threads[u].call, call);
    }
    RunKeeps(env, s, t, Finishing(op), DoThread(env, s, Execute(t), t).value);
  }

  lemma LaunchKeeps(env: Env, s: State, t: nat)
    requires Inv(env, s) && t < |s.threads| && DoThread(env, s, Launch(t), t).Some?
    ensures Inv(env, DoThread(env, s, Launch(t), t).value)
  {
    assert ThreadInv(env, s, t);
    var call := s.threads[t].call;
    forall u | 0 <= u < |s.threads| && u != t && call.approvedBy != "" && s.threads[u].call.approvedBy == call.approvedBy
      ensures !BeforeRun(env, s.threads[u]) && !s.threads[u].pc.Starting?
    {
      assert ThreadInv(env, s, u);
      SameCall(env, s.log, s.threads[u].call, call);
    }
    RunKeeps(env, s, t, Ended, DoThread(env, s, Launch(t), t).value);
  }

  lemma PrepareKeeps(env: Env, s: State, t: nat)
    requires Inv(env, s) && t < |s.threads| && DoThread(env, s, Prepare(t), t).Some?
    ensures Inv(env, DoThread(env, s, Prepare(t), t).value)
  {
    assert ThreadInv(env, s, t);
    var call := s.threads[t].call;
    if call.key != "" && JobByKey(s.log, call.core.session, call.key) {
      ReturnKeeps(env, s, t);
    } else {
      JobStartKeeps(env, s, t);
    }
  }

  lemma JobStartKeeps(env: Env, s: State, t: nat)
    requires Inv(env, s) && t < |s.threads| && s.threads[t].pc.Preparing?
    requires var call := s.threads[t].call; call.key == "" || !JobByKey(s.log, call.core.session, call.key)
    ensures var call := s.threads[t].call;
            Inv(env, Goto(Append(s, JobEvent(call.core.session, call.key)), t, Starting))
  {
    assert ThreadInv(env, s, t);
    var call := s.threads[t].call;
    var e := JobEvent(call.core.session, call.key);
    var s1 := Append(s, e);
    AppendKeeps(env, s, e);
    LookupsGrow(s.log, e, call.core.session, call.key);
    assert ThreadInv(env, s1, t);
    if call.approvedBy != "" { NoneStartedYet(env, s, call); }
    MoveKeeps(env, s1, t, Starting, Goto(s1, t, Starting));
  }

  /** While the approval has no job, nobody has started or is starting one. */
  lemma NoneStartedYet(env: Env, s: State, call: Call)
    requires Inv(env, s) && call.approvedBy != "" && Granted(env, s.log, call) && Managed(env, call)
    requires !JobByKey(s.log, call.core.session, call.key)
    ensures !Ran(s, call.approvedBy)
    ensures forall u | 0 <= u < |s.threads| && s.threads[u].pc.Starting? :: s.threads[u].call.approvedBy != call.approvedBy
  {
    forall x | x in s.executions ensures x.approvedBy != call.approvedBy {
      assert RunInv(env, s, x);
      if x.approvedBy == call.approvedBy { SameCall(env, s.log, x, call); }
    }
    forall u | 0 <= u < |s.threads| && s.threads[u].pc.Starting? ensures s.threads[u].call.approvedBy != call.approvedBy {
      assert ThreadInv(env, s, u);
      if s.threads[u].call.approvedBy == call.approvedBy { SameCall(env, s.log, s.threads[u].call, call); }
    }
  }

  lemma FinishKeeps(env: Env, s: State, t: nat)
    requires Inv(env, s) && t < |s.threads| && DoThread(env, s, Finish(t), t).Some?
    ensures Inv(env, DoThread(env, s, Finish(t), t).value)
  {
    assert ThreadInv(env, s, t);
    KnownAnyStatus(s.log, s.threads[t].pc.op, Done);
    AppendKeeps(env, s, OpEvent(s.threads[t].pc.op.(status := Done)));
    ReturnKeeps(env, Append(s, OpEvent(s.threads[t].pc.op.(status := Done))), t);
  }

  lemma KnownAnyStatus(log: seq<Event>, op: Op, status: OpStatus)
    requires Known(log, op)
    ensures Known(log, op.(status := status))
  {
    var i :| 0 <= i < |log| && log[i].OpEvent? && SameOp(log[i].op, op);
    assert SameOp(log[i].op, op.(status := status));
  }

  lemma DenyKeeps(env: Env, s: State, t: nat)
    requires Inv(env, s) && t < |s.threads| && DoThread(env, s, Deny(t), t).Some?
    ensures Inv(env, DoThread(env, s, Deny(t), t).value)
  {
    assert ThreadInv(env, s, t);
    AppendKeeps(env, s, OpEvent(s.threads[t].pc.op));
    ReturnKeeps(env, Append(s, OpEvent(s.threads[t].pc.op)), t);
  }

  lemma RequestKeeps(env: Env, s: State, t: nat, id: string)
    requires Inv(env, s) && t < |s.threads| && DoThread(env, s, Request(t, id), t).Some?
    ensures Inv(env, DoThread(env, s, Request(t, id), t).value)
  {
    var op := s.threads[t].pc.op;
    var s1 := Requested(env, s, op, id);
    if s1 != s {
      AppendKeeps(env, s, ApprovalEvent(Approval(id, op.core.session, op.core.turn, op.id, env.snapshot(env.policy), Pending)));
    }
    ReturnKeeps(env, s1, t);
  }

  // ------------------------------------------------------------------ decisions

  lemma RefuseKeeps(env: Env, s: State, a: Approval, op: Op)
    requires Inv(env, s) && a.status != Pending && ApprovalById(s.log, a.id) == Some(a.(status := Pending)) && Known(s.log, op)
    requires a.status != Approved
    ensures Inv(env, Refuse(s, a, op))
  {
    var i := ApprovalAt(s.log, a.id);
    assert ApprovalOk(env, s.log[i]);
    AppendKeeps(env, s, ApprovalEvent(a));
    KnownGrows(s.log, ApprovalEvent(a), op);
    SpawnKeeps(env, Append(s, ApprovalEvent(a)), Call(op.core, op.key, "", ""), Denying(op));
  }

  lemma SpawnEffectKeeps(env: Env, s: State, id: string, op: Op)
    requires Inv(env, s) && id != "" && Granted(env, s.log, EffectOf(env, id, op))
    ensures Inv(env, SpawnEffect(env, s, id, op))
  {
    SpawnKeeps(env, s, EffectOf(env, id, op), if Managed(env, EffectOf(env, id, op)) then Looking else Waiting);
  }

  /** Approving grants the call. */
  lemma ApproveGrants(env: Env, s: State, a: Approval, op: Op)
    requires Inv(env, s) && a.status == Pending && ApprovalById(s.log, a.id) == Some(a) && a.snapshot == env.snapshot(env.policy)
    requires OpById(s.log, a.session, a.op) == Some(op)
    ensures Inv(env, Append(s, ApprovalEvent(a.(status := Approved))))
    ensures Granted(env, s.log + [ApprovalEvent(a.(status := Approved))], EffectOf(env, a.id, op))
  {
    var e := ApprovalEvent(a.(status := Approved));
    var i := ApprovalAt(s.log, a.id);
    assert ApprovalOk(env, s.log[i]);
    AppendKeeps(env, s, e);
    assert (s.log + [e])[..|s.log|] == s.log;
  }

  lemma DecideKeeps(env: Env, s: State, id: string, approve: bool, expired: bool)
    requires Inv(env, s)
    ensures Inv(env, Decided(env, s, id, approve, expired))
  {
    if ApprovalById(s.log, id).None? { return; }
    var a := ApprovalById(s.log, id).value;
    var k := ApprovalAt(s.log, id);
    assert ApprovalOk(env, s.log[k]);
    if OpById(s.log, a.session, a.op).None? { return; }
    var op := OpById(s.log, a.session, a.op).value;
    var i := OpAt(s.log, a.session, a.op);
    assert SameOp(s.log[i].op, op);
    if a.status != Pending {
      if a.status == Approved && approve { SpawnEffectKeeps(env, s, id, op); }
    } else if !expired && a.snapshot == env.snapshot(env.policy) && op.status == Blocked(APPROVAL_REQUIRED) && approve {
      ApproveGrants(env, s, a, op);
      SpawnEffectKeeps(env, Append(s, ApprovalEvent(a.(status := Approved))), id, op);
    } else {
      RefusedKeeps(env, s, a, op, approve, expired);
    }
  }

  lemma RefusedKeeps(env: Env, s: State, a: Approval, op: Op, approve: bool, expired: bool)
    requires Inv(env, s) && a.status == Pending && ApprovalById(s.log, a.id) == Some(a)
    requires OpById(s.log, a.session, a.op) == Some(op) && Known(s.log, op)
    requires expired || a.snapshot != env.snapshot(env.policy) || op.status != Blocked(APPROVAL_REQUIRED) || !approve
    ensures Inv(env, Decided(env, s, a.id, approve, expired))
  {
    var status := if expired then Expired else Denied;
    var reason :=
      if expired then "approval_expired" else if a.snapshot != env.snapshot(env.policy) then "policy_snapshot_mismatch"
      else if op.status != Blocked(APPROVAL_REQUIRED) then "approval_operation_stale" else "approval_denied";
    KnownAnyStatus(s.log, op, Blocked(reason));
    RefuseKeeps(env, s, a.(status := status), op.(status := Blocked(reason)));
  }

  lemma CrashKeeps(env: Env, s: State)
    requires Inv(env, s)
    ensures Inv(env, Do(env, s, Crash).value)
  {
    var s' := Do(env, s, Crash).value;
    forall t | 0 <= t < |s'.threads| ensures ThreadInv(env, s', t) { assert ThreadInv(env, s, t); }
    forall x | x in s'.executions ensures RunInv(env, s', x) { assert RunInv(env, s, x); }
  }

  lemma StepKeepsInv(env: Env, s: State, step: Step)
    requires Inv(env, s) && Do(env, s, step).Some?
    ensures Inv(env, Do(env, s, step).value)
  {
    match step {
      case Submit(call, invoke) => SpawnKeeps(env, s, call, if invoke then Looking else Waiting);
      case Decide(id, approve, expired) => DecideKeeps(env, s, id, approve, expired);
      case Crash => CrashKeeps(env, s);
      case Look(t) => LookKeeps(env, s, t);
      case Acquire(t) => AcquireKeeps(env, s, t);
      case Check(t) => CheckKeeps(env, s, t);
      case Authorize(t, id) => AuthorizeKeeps(env, s, t, id);
      case Record(t, id) => RecordKeeps(env, s, t, id);
      case Execute(t) => ExecuteKeeps(env, s, t);
      case Finish(t) => FinishKeeps(env, s, t);
      case Prepare(t) => PrepareKeeps(env, s, t);
      case Launch(t) => LaunchKeeps(env, s, t);
      case Request(t, id) => RequestKeeps(env, s, t, id);
      case Deny(t) => DenyKeeps(env, s, t);
      case Fail(t) => ReturnKeeps(env, s, t);
    }
  }

  lemma {:induction false} RunKeepsInv(env: Env, steps: seq<Step>)
    requires Exec(env, steps).Some?
    ensures Inv(env, Exec(env, steps).value)
  {
    if steps != [] {
      RunKeepsInv(env, steps[..|steps| - 1]);
      StepKeepsInv(env, Exec(env, steps[..|steps| - 1]).value, steps[|steps| - 1]);
    }
  }

  // ------------------------------------------------------------------ the theorems

  /** The log holds an approved decision that matches the call in everything. */
  ghost predicate ApprovedFor(env: Env, log: seq<Event>, call: Call) {
    exists i, j :: 0 <= i < |log| && 0 <= j < |log| && log[i].ApprovalEvent? && log[j].OpEvent?
      && Covers(env, log[i].approval, log[j].op, call)
  }

  /** The approval is approved under the call's policy for the operation the call repeats:
      session, turn, working directory, command and timeout. */
  predicate Covers(env: Env, a: Approval, op: Op, call: Call) {
    && a.id == call.approvedBy && a.status == Approved && a.snapshot == env.snapshot(call.policy)
    && a.session == op.core.session && a.op == op.id && call.core == op.core && call.key == EffectKey(a.id)
  }

  /** In every run, at every moment: a command whose policy requires approval was run
      only by the effect of an approval; the log then holds the matching approved
      decision; no approval was carried out twice. */
  lemma RunsAreApproved(env: Env, steps: seq<Step>, i: nat)
    requires Exec(env, steps).Some? && i < |Exec(env, steps).value.executions|
    ensures var s := Exec(env, steps).value;
            var call := s.executions[i];
            && !env.authorize(call).Refused?
            && (env.authorize(call) == ApprovalRequired ==> call.approvedBy != "")
            && (call.approvedBy != "" ==> ApprovedFor(env, s.log, call))
            && (call.approvedBy != "" ==>
                  forall j | 0 <= j < |s.executions| && s.executions[j].approvedBy == call.approvedBy :: j == i)
  {
    RunKeepsInv(env, steps);
    var s := Exec(env, steps).value;
    var call := s.executions[i];
    assert RunInv(env, s, call);
    if call.approvedBy != "" {
      var a := ApprovalById(s.log, call.approvedBy).value;
      var k := ApprovalAt(s.log, call.approvedBy);
      var m := OpAt(s.log, a.session, a.op);
      assert Covers(env, s.log[k].approval, s.log[m].op, call);
    }
  }

  /** In every run each approval is requested once and decided at most once, and the
      decision changes nothing but its status. */
  lemma DecidedAtMostOnce(env: Env, steps: seq<Step>, i: nat, j: nat)
    requires Exec(env, steps).Some?
    requires var log := Exec(env, steps).value.log;
             i < j < |log| && log[i].ApprovalEvent? && log[j].ApprovalEvent? && log[i].approval.id == log[j].approval.id
    ensures var log := Exec(env, steps).value.log;
            log[i].approval.status == Pending && log[j].approval.status != Pending
            && log[j].approval == log[i].approval.(status := log[j].approval.status)
  {
    RunKeepsInv(env, steps);
  }
}
