/** The cross-process ledger lock: a lock file created exclusively, a pid written into
    it, reference counting inside a process, and recovery of a stale lock file under a
    recovery guard (internal/kernel/sqlite_ledger.go). Any number of processes; each
    file-system call is one step. */
module LedgerLock {
  import opened Wrappers

  type Pid = nat

  type LedgerId = nat

  /** `serial` tells lock files apart that existed one after the other under the same
      path. `aged` says that the file was last modified longer than the stale age ago. */
  datatype LockFile = LockFile(serial: nat, owner: Pid, written: bool, aged: bool)

  /** What a reader finds in a lock file: nothing yet, or the pid of its writer. */
  datatype Content = Empty | Holder(pid: Pid)

  /** Where a process is inside `ensureSingleWriterLocked`; the registry mutex keeps
      all other ledgers of the process out meanwhile. */
  datatype Pc =
    | Idle
    | Created(serial: nat, ledger: LedgerId)
    | Written(serial: nat, ledger: LedgerId)
    | Guarded(ledger: LedgerId)
    | Statted(ledger: LedgerId, aged: bool)
    | HasRead(ledger: LedgerId, aged: bool, content: Content)
    | Confirmed(ledger: LedgerId, content: Content)
    | Removing(ledger: LedgerId)
    | Retrying(ledger: LedgerId)

  /** `refs` is the reference count of the registry entry, `ledgers` the ledgers of the
      process that believe to hold the lock. */
  datatype Proc = Proc(pc: Pc, holding: bool, refs: nat, ledgers: set<LedgerId>)

  /** Live processes only: a crash removes the process. */
  datatype State = State(lock: Option<LockFile>, nextSerial: nat, guard: Option<Pid>,
                         procs: map<Pid, Proc>, spawned: set<Pid>)

  datatype Step =
    | Spawn(p: Pid)
    | Crash(p: Pid)
    | Age
    | Open(p: Pid, ledger: LedgerId)
    | Stat(p: Pid)
    | Read(p: Pid)
    | Judge(p: Pid)
    | Reread(p: Pid)
    | Remove(p: Pid)
    | Retry(p: Pid)
    | WritePid(p: Pid)
    | Register(p: Pid)
    | WriteFails(p: Pid)
    | Close(p: Pid, ledger: LedgerId)

  const INIT: State := State(None, 0, None, map[], {})

  function ContentOf(f: LockFile): Content { if f.written then Holder(f.owner) else Empty }

  /** A live process is about to write its pid into this very file. */
  predicate BeingWritten(s: State, f: LockFile) {
    !f.written && f.owner in s.procs && s.procs[f.owner].pc.Created? && s.procs[f.owner].pc.serial == f.serial
  }

  function At(s: State, p: Pid, pc: Pc): State
    requires p in s.procs
  {
    s.(procs := s.procs[p := s.procs[p].(pc := pc)])
  }

  /** Recovery ends without success: the guard is released, the caller reports the
      ledger as locked. */
  function GiveUp(s: State, p: Pid): State
    requires p in s.procs
  {
    At(s, p, Idle).(guard := None)
  }

  function Create(s: State, p: Pid, ledger: LedgerId): State
    requires p in s.procs
  {
    At(s, p, Created(s.nextSerial, ledger)).(lock := Some(LockFile(s.nextSerial, p, false, false)),
                                             nextSerial := s.nextSerial + 1)
  }

  /** One step; `None` when it is not enabled. */
  function Do(s: State, step: Step): Option<State> {
    match step
    case Spawn(p) =>
      if p in s.spawned then None
      else Some(s.(procs := s.procs[p := Proc(Idle, false, 0, {})], spawned := s.spawned + {p}))
    case Age =>
      // a live creator writes its pid before the file reaches the stale age
      if s.lock.None? || BeingWritten(s, s.lock.value) then None
      else Some(s.(lock := Some(s.lock.value.(aged := true))))
    case _ =>
      if step.p !in s.procs then None else DoAlive(s, step)
  }

  function DoAlive(s: State, step: Step): Option<State>
    requires !step.Spawn? && !step.Age? && step.p in s.procs
  {
    var me := s.procs[step.p];
    match step
    case Crash(p) => Some(s.(procs := s.procs - {p}, guard := if s.guard == Some(p) then None else s.guard))
    case Open(p, l) =>
      if me.pc != Idle || l in me.ledgers then None
      else if me.holding then
        Some(s.(procs := s.procs[p := me.(refs := me.refs + 1, ledgers := me.ledgers + {l})]))
      else if s.lock.None? then Some(Create(s, p, l))
      else if s.guard.None? then Some(At(s, p, Guarded(l)).(guard := Some(p)))
      else Some(s)
    case Stat(p) =>
      if !me.pc.Guarded? then None
      else if s.lock.None? then Some(GiveUp(s, p))
      else Some(At(s, p, Statted(me.pc.ledger, s.lock.value.aged)))
    case Read(p) =>
      if !me.pc.Statted? then None
      else if s.lock.None? then Some(GiveUp(s, p))
      else Some(At(s, p, HasRead(me.pc.ledger, me.pc.aged, ContentOf(s.lock.value))))
    case Judge(p) =>
      if !me.pc.HasRead? then None
      else
        var stale := if me.pc.content.Holder? then me.pc.content.pid !in s.procs else me.pc.aged;
        Some(if stale then At(s, p, Confirmed(me.pc.ledger, me.pc.content)) else GiveUp(s, p))
    case Reread(p) =>
      if !me.pc.Confirmed? then None
      else if s.lock.None? || ContentOf(s.lock.value) != me.pc.content then Some(GiveUp(s, p))
      else Some(At(s, p, Removing(me.pc.ledger)))
    case Remove(p) =>
      if !me.pc.Removing? then None
      else if s.lock.None? then Some(GiveUp(s, p))
      else Some(At(s, p, Retrying(me.pc.ledger)).(lock := None, guard := None))
    case Retry(p) =>
      if !me.pc.Retrying? then None
      else if s.lock.None? then Some(Create(s, p, me.pc.ledger))
      else Some(At(s, p, Idle))
    case WritePid(p) =>
      // the write goes to the file created, which may no longer be the one at the path
      if !me.pc.Created? then None
      else
        var next := At(s, p, Written(me.pc.serial, me.pc.ledger));
        Some(if s.lock.Some? && s.lock.value.serial == me.pc.serial
             then next.(lock := Some(s.lock.value.(written := true, aged := false))) else next)
    case Register(p) =>
      // after a successful sync
      if !me.pc.Written? then None
      else Some(s.(procs := s.procs[p := Proc(Idle, true, 1, {me.pc.ledger})]))
    case WriteFails(p) =>
      // the write or the sync fails, and the lock path is removed
      if !me.pc.Created? && !me.pc.Written? then None else Some(At(s, p, Idle).(lock := None))
    case Close(p, l) =>
      if me.pc != Idle || !me.holding || l !in me.ledgers then None
      else if me.refs <= 1 then
        Some(s.(lock := None, procs := s.procs[p := Proc(Idle, false, 0, me.ledgers - {l})]))
      else Some(s.(procs := s.procs[p := me.(refs := me.refs - 1, ledgers := me.ledgers - {l})]))
  }

  function Exec(s: State, steps: seq<Step>): Option<State> {
    if steps == [] then Some(s)
    else
      match Exec(s, steps[..|steps| - 1])
      case None => None
      case Some(before) => Do(before, steps[|steps| - 1])
  }

  // --------------------------------------------------------------- the invariant

  ghost predicate Recovering(pc: Pc) {
    pc.Guarded? || pc.Statted? || pc.HasRead? || pc.Confirmed? || pc.Removing?
  }

  /** The lock file at the path belongs to `p`, with its pid written or not. */
  ghost predicate Owns(s: State, p: Pid, written: bool) {
    s.lock.Some? && s.lock.value.owner == p && s.lock.value.written == written
  }

  /** Nobody alive stands behind the lock file. */
  ghost predicate Abandoned(s: State) {
    s.lock.Some? && !BeingWritten(s, s.lock.value) && (s.lock.value.written ==> s.lock.value.owner !in s.procs)
  }

  ghost predicate ProcInv(s: State, p: Pid)
    requires p in s.procs
  {
    var me := s.procs[p];
    && (me.holding ==> Owns(s, p, true) && me.pc == Idle && me.refs == |me.ledgers| && me.refs >= 1)
    && (!me.holding ==> me.refs == 0 && me.ledgers == {})
    && (me.pc.Created? ==> Owns(s, p, false) && s.lock.value.serial == me.pc.serial)
    && (me.pc.Written? ==> Owns(s, p, true) && s.lock.value.serial == me.pc.serial)
    && (Recovering(me.pc) <==> s.guard == Some(p))
    && (me.pc.HasRead? && me.pc.content == Empty && me.pc.aged ==> Abandoned(s) && !s.lock.value.written)
    && (me.pc.Confirmed? && me.pc.content == Empty ==> Abandoned(s) && !s.lock.value.written)
    && (me.pc.Confirmed? && me.pc.content.Holder? ==> me.pc.content.pid !in s.procs && me.pc.content.pid in s.spawned)
    && (me.pc.HasRead? && me.pc.content.Holder? ==> me.pc.content.pid in s.spawned)
    && (me.pc.Removing? ==> Abandoned(s))
  }

  ghost predicate Inv(s: State) {
    && (forall p | p in s.procs :: p in s.spawned && ProcInv(s, p))
    && (s.guard.Some? ==> s.guard.value in s.procs)
    && (s.lock.Some? ==> s.lock.value.owner in s.spawned && s.lock.value.serial < s.nextSerial)
    // a written lock file is held by its owner, or about to be, unless the owner crashed
    && (s.lock.Some? && s.lock.value.written && s.lock.value.owner in s.procs ==>
          s.procs[s.lock.value.owner].holding || s.procs[s.lock.value.owner].pc.Written?)
    && (s.lock.Some? && s.lock.value.aged ==> !BeingWritten(s, s.lock.value))
  }

  /** A recovery that found an old lock file reads an empty one whose creator is alive:
      the file was replaced between the two calls. */
  ghost predicate TornRead(s: State, step: Step) {
    && step.Read? && step.p in s.procs && s.procs[step.p].pc.Statted? && s.procs[step.p].pc.aged
    && s.lock.Some? && BeingWritten(s, s.lock.value)
  }

  lemma SpawnKeeps(s: State, p: Pid)
    requires Inv(s) && Do(s, Spawn(p)).Some?
    ensures Inv(Do(s, Spawn(p)).value)
  {
  }

  lemma CrashKeeps(s: State, p: Pid)
    requires Inv(s) && Do(s, Crash(p)).Some?
    ensures Inv(Do(s, Crash(p)).value)
  {
  }

  /** Another ledger of the process that holds the lock. */
  lemma SharedOpenKeeps(s: State, p: Pid, ledger: LedgerId)
    requires Inv(s) && Do(s, Open(p, ledger)).Some? && s.procs[p].holding
    ensures Inv(Do(s, Open(p, ledger)).value)
  {
    var t := Do(s, Open(p, ledger)).value;
    assert ProcInv(s, p);
    forall q | q in t.procs ensures q in t.spawned && ProcInv(t, q) { assert ProcInv(s, q); }
  }

  lemma OpenKeeps(s: State, p: Pid, ledger: LedgerId)
    requires Inv(s) && Do(s, Open(p, ledger)).Some?
    ensures Inv(Do(s, Open(p, ledger)).value)
  {
    if s.procs[p].holding {
      SharedOpenKeeps(s, p, ledger);
    } else {
      var t := Do(s, Open(p, ledger)).value;
      assert ProcInv(s, p);
      forall q | q in t.procs ensures q in t.spawned && ProcInv(t, q) { assert ProcInv(s, q); }
    }
  }

  lemma StatKeeps(s: State, p: Pid)
    requires Inv(s) && Do(s, Stat(p)).Some?
    ensures Inv(Do(s, Stat(p)).value)
  {
  }

  lemma ReadKeeps(s: State, p: Pid)
    requires Inv(s) && Do(s, Read(p)).Some? && !TornRead(s, Read(p))
    ensures Inv(Do(s, Read(p)).value)
  {
  }

  lemma JudgeKeeps(s: State, p: Pid)
    requires Inv(s) && Do(s, Judge(p)).Some?
    ensures Inv(Do(s, Judge(p)).value)
  {
  }

  lemma RereadKeeps(s: State, p: Pid)
    requires Inv(s) && Do(s, Reread(p)).Some?
    ensures Inv(Do(s, Reread(p)).value)
  {
  }

  lemma RemoveKeeps(s: State, p: Pid)
    requires Inv(s) && Do(s, Remove(p)).Some?
    ensures Inv(Do(s, Remove(p)).value)
  {
  }

  lemma RetryKeeps(s: State, p: Pid)
    requires Inv(s) && Do(s, Retry(p)).Some?
    ensures Inv(Do(s, Retry(p)).value)
  {
  }

  lemma WritePidKeeps(s: State, p: Pid)
    requires Inv(s) && Do(s, WritePid(p)).Some?
    ensures Inv(Do(s, WritePid(p)).value)
  {
  }

  lemma RegisterKeeps(s: State, p: Pid)
    requires Inv(s) && Do(s, Register(p)).Some?
    ensures Inv(Do(s, Register(p)).value)
  {
    var t := Do(s, Register(p)).value;
    assert ProcInv(s, p);
    forall q | q in t.procs ensures q in t.spawned && ProcInv(t, q) { assert ProcInv(s, q); }
  }

  lemma WriteFailsKeeps(s: State, p: Pid)
    requires Inv(s) && Do(s, WriteFails(p)).Some?
    ensures Inv(Do(s, WriteFails(p)).value)
  {
  }

  lemma CloseKeeps(s: State, p: Pid, ledger: LedgerId)
    requires Inv(s) && Do(s, Close(p, ledger)).Some?
    ensures Inv(Do(s, Close(p, ledger)).value)
  {
    var t := Do(s, Close(p, ledger)).value;
    assert ProcInv(s, p);
    var left := s.procs[p].ledgers - {ledger};
    assert |left| == |s.procs[p].ledgers| - 1;
    forall q | q in t.procs ensures q in t.spawned && ProcInv(t, q) { assert ProcInv(s, q); }
  }

  lemma AgeKeeps(s: State)
    requires Inv(s) && Do(s, Age).Some?
    ensures Inv(Do(s, Age).value)
  {
  }

  lemma StepKeepsInv(s: State, step: Step)
    requires Inv(s) && Do(s, step).Some? && !TornRead(s, step)
    ensures Inv(Do(s, step).value)
  {
    match step {
      case Spawn(p) => SpawnKeeps(s, p);
      case Crash(p) => CrashKeeps(s, p);
      case Open(p, ledger) => OpenKeeps(s, p, ledger);
      case Stat(p) => StatKeeps(s, p);
      case Read(p) => ReadKeeps(s, p);
      case Judge(p) => JudgeKeeps(s, p);
      case Reread(p) => RereadKeeps(s, p);
      case Remove(p) => RemoveKeeps(s, p);
      case Retry(p) => RetryKeeps(s, p);
      case WritePid(p) => WritePidKeeps(s, p);
      case Register(p) => RegisterKeeps(s, p);
      case WriteFails(p) => WriteFailsKeeps(s, p);
      case Close(p, ledger) => CloseKeeps(s, p, ledger);
      case Age => AgeKeeps(s);
    }
  }

  // --------------------------------------------------------------- the theorems

  ghost predicate NoTornReads(steps: seq<Step>)
    requires Exec(INIT, steps).Some?
  {
    steps == [] ||
    (var before := steps[..|steps| - 1];
     NoTornReads(before) && !TornRead(Exec(INIT, before).value, steps[|steps| - 1]))
  }

  lemma {:induction false} RunKeepsInv(steps: seq<Step>)
    requires Exec(INIT, steps).Some? && NoTornReads(steps)
    ensures Inv(Exec(INIT, steps).value)
  {
    if steps != [] {
      RunKeepsInv(steps[..|steps| - 1]);
      StepKeepsInv(Exec(INIT, steps[..|steps| - 1]).value, steps[|steps| - 1]);
    }
  }

  ghost predicate Exclusive(s: State) {
    forall p, q | p in s.procs && q in s.procs && s.procs[p].holding && s.procs[q].holding :: p == q
  }

  /** In every run without a torn read, whatever the interleaving of opens, crashes,
      recoveries and closes, at most one process holds the lock, and the reference
      count of every process is the number of its open ledgers. */
  lemma AtMostOneHolder(steps: seq<Step>)
    requires Exec(INIT, steps).Some? && NoTornReads(steps)
    ensures Exclusive(Exec(INIT, steps).value)
    ensures forall p | p in Exec(INIT, steps).value.procs ::
              var me := Exec(INIT, steps).value.procs[p]; me.refs == |me.ledgers| && (me.holding <==> me.refs > 0)
  {
    RunKeepsInv(steps);
    var s := Exec(INIT, steps).value;
    InvIsExclusive(s);
    forall p | p in s.procs ensures s.procs[p].refs == |s.procs[p].ledgers| { assert ProcInv(s, p); }
  }

  lemma ExecOne(s: State, steps: seq<Step>, step: Step)
    requires Exec(s, steps).Some?
    ensures Exec(s, steps + [step]) == Do(Exec(s, steps).value, step)
  {
    assert (steps + [step])[..|steps|] == steps;
  }

  lemma {:induction false} ExecSplit(s: State, a: seq<Step>, b: seq<Step>)
    requires Exec(s, a).Some?
    ensures Exec(s, a + b) == Exec(Exec(s, a).value, b)
  {
    if b == [] {
      assert a + b == a;
    } else {
      ExecSplit(s, a, b[..|b| - 1]);
      assert (a + b)[..|a + b| - 1] == a + b[..|b| - 1];
    }
  }

  /** Four steps in a row. */
  lemma ExecFour(s: State, a: Step, b: Step, c: Step, d: Step)
    requires Do(s, a).Some? && Do(Do(s, a).value, b).Some? && Do(Do(Do(s, a).value, b).value, c).Some?
    ensures Exec(s, [a, b, c, d]) == Do(Do(Do(Do(s, a).value, b).value, c).value, d)
  {
    assert Exec(s, []) == Some(s) && [a, b, c, d] == [] + [a] + [b] + [c] + [d];
    ExecOne(s, [], a);
    ExecOne(s, [] + [a], b);
    ExecOne(s, [] + [a] + [b], c);
    ExecOne(s, [] + [a] + [b] + [c], d);
  }

  lemma ExecTwo(s: State, a: Step, b: Step)
    requires Do(s, a).Some?
    ensures Exec(s, [a, b]) == Do(Do(s, a).value, b)
  {
    assert Exec(s, []) == Some(s) && [a, b] == [] + [a] + [b];
    ExecOne(s, [], a);
    ExecOne(s, [] + [a], b);
  }

  lemma AtTwice(s: State, p: Pid, a: Pc, b: Pc)
    requires p in s.procs
    ensures At(At(s, p, a), p, b) == At(s, p, b)
  {
    assert At(At(s, p, a), p, b).procs == At(s, p, b).procs;
  }

  /** A torn read is judged stale. */
  lemma TornReadJudged(s: State, r: Pid)
    requires TornRead(s, Read(r))
    ensures Exec(s, [Read(r), Judge(r)]) == Some(At(s, r, Confirmed(s.procs[r].pc.ledger, Empty)))
  {
    var l := s.procs[r].pc.ledger;
    var s1 := At(s, r, HasRead(l, true, Empty));
    assert Do(s, Read(r)) == Some(s1);
    AtTwice(s, r, s1.procs[r].pc, Confirmed(l, Empty));
    ExecTwo(s, Read(r), Judge(r));
  }

  /** A confirmed empty file is removed if it is still there. */
  lemma EmptyFileRemoved(s: State, r: Pid)
    requires r in s.procs && s.procs[r].pc.Confirmed? && s.procs[r].pc.content == Empty && s.lock.Some? && !s.lock.value.written
    ensures Exec(s, [Reread(r), Remove(r)]) == Some(At(s, r, Retrying(s.procs[r].pc.ledger)).(lock := None, guard := None))
  {
    var l := s.procs[r].pc.ledger;
    var s1 := At(s, r, Removing(l));
    assert Do(s, Reread(r)) == Some(s1);
    AtTwice(s, r, s1.procs[r].pc, Retrying(l));
    ExecTwo(s, Reread(r), Remove(r));
  }

  /** The recovery of `r` takes a torn read for a stale lock and removes the file. */
  lemma TornReadRemovesFile(s: State, r: Pid)
    requires Inv(s) && TornRead(s, Read(r))
    ensures Exec(s, [Read(r), Judge(r), Reread(r), Remove(r)]) ==
            Some(At(s, r, Retrying(s.procs[r].pc.ledger)).(lock := None, guard := None))
  {
    var l := s.procs[r].pc.ledger;
    TornReadJudged(s, r);
    EmptyFileRemoved(At(s, r, Confirmed(l, Empty)), r);
    AtTwice(s, r, Confirmed(l, Empty), Retrying(l));
    ExecSplit(s, [Read(r), Judge(r)], [Reread(r), Remove(r)]);
    assert [Read(r), Judge(r)] + [Reread(r), Remove(r)] == [Read(r), Judge(r), Reread(r), Remove(r)];
  }

  /** A process that created its lock file writes its pid and registers, whatever became
      of the file. */
  lemma WriteAndRegister(s: State, p: Pid)
    requires p in s.procs && s.procs[p].pc.Created?
    ensures var t := Exec(s, [WritePid(p), Register(p)]);
            t.Some? && t.value.procs == s.procs[p := Proc(Idle, true, 1, {s.procs[p].pc.ledger})]
  {
    var s1 := Do(s, WritePid(p)).value;
    ExecTwo(s, WritePid(p), Register(p));
    assert s1.procs[p := Proc(Idle, true, 1, {s.procs[p].pc.ledger})] == s.procs[p := Proc(Idle, true, 1, {s.procs[p].pc.ledger})];
  }

  /** Then `r` creates its own lock file, and both `r` and the creator `q` of the removed
      file write their pids and register. */
  lemma BothRegister(s: State, r: Pid, q: Pid)
    requires s.lock.None? && r in s.procs && q in s.procs && r != q
    requires s.procs[r].pc.Retrying? && s.procs[q].pc.Created?
    ensures var t := Exec(s, [Retry(r)] + [WritePid(r), Register(r)] + [WritePid(q), Register(q)]);
            t.Some? && q in t.value.procs && r in t.value.procs && t.value.procs[q].holding && t.value.procs[r].holding
  {
    var s1 := Create(s, r, s.procs[r].pc.ledger);
    assert Do(s, Retry(r)) == Some(s1) && Exec(s, []) == Some(s) && [] + [Retry(r)] == [Retry(r)];
    ExecOne(s, [], Retry(r));
    WriteAndRegister(s1, r);
    ExecSplit(s, [Retry(r)], [WritePid(r), Register(r)]);
    var s2 := Exec(s1, [WritePid(r), Register(r)]).value;
    WriteAndRegister(s2, q);
    ExecSplit(s, [Retry(r)] + [WritePid(r), Register(r)], [WritePid(q), Register(q)]);
  }

  /** Conversely, every torn read can end with two holders. */
  lemma TornReadBreaksExclusion(s: State, r: Pid)
    requires Inv(s) && TornRead(s, Read(r))
    ensures var q := s.lock.value.owner;
            var t := Exec(s, [Read(r), Judge(r), Reread(r), Remove(r)]
                             + ([Retry(r)] + [WritePid(r), Register(r)] + [WritePid(q), Register(q)]));
            t.Some? && !Exclusive(t.value)
  {
    var q := s.lock.value.owner;
    assert ProcInv(s, q) && ProcInv(s, r);
    TornReadRemovesFile(s, r);
    var t := At(s, r, Retrying(s.procs[r].pc.ledger)).(lock := None, guard := None);
    BothRegister(t, r, q);
    ExecSplit(s, [Read(r), Judge(r), Reread(r), Remove(r)],
              [Retry(r)] + [WritePid(r), Register(r)] + [WritePid(q), Register(q)]);
  }

  /** A run from `s` on whose next step can be a torn read. */
  ghost predicate TornAfter(s: State, steps: seq<Step>, r: Pid) {
    Exec(s, steps).Some? && TornRead(Exec(s, steps).value, Read(r))
  }

  ghost predicate CanTear(s: State) { exists steps, r :: TornAfter(s, steps, r) }

  ghost predicate ExclusiveAfter(s: State, steps: seq<Step>) { Exec(s, steps).Some? ==> Exclusive(Exec(s, steps).value) }

  ghost predicate AlwaysExclusive(s: State) { forall steps :: ExclusiveAfter(s, steps) }

  /** The invariant holds at the end, or there was a torn read before, and then at its
      first one. */
  lemma {:induction false} InvOrTorn(s: State, steps: seq<Step>) returns (k: nat, r: Pid)
    requires Inv(s) && Exec(s, steps).Some?
    ensures Inv(Exec(s, steps).value)
            || (k < |steps| && TornAfter(s, steps[..k], r) && Inv(Exec(s, steps[..k]).value))
  {
    k, r := 0, 0;
    if steps != [] {
      var n := |steps| - 1;
      k, r := InvOrTorn(s, steps[..n]);
      var before := Exec(s, steps[..n]).value;
      if Inv(before) {
        if TornRead(before, steps[n]) {
          k, r := n, steps[n].p;
        } else {
          StepKeepsInv(before, steps[n]);
        }
      } else {
        assert steps[..n][..k] == steps[..k];
      }
    }
  }

  lemma InvIsExclusive(s: State)
    requires Inv(s)
    ensures Exclusive(s)
  {
    forall p, q | p in s.procs && q in s.procs && s.procs[p].holding && s.procs[q].holding ensures p == q {
      assert ProcInv(s, p) && ProcInv(s, q);
    }
  }

  lemma TornRunBreaks(s: State, steps: seq<Step>, r: Pid)
    requires TornAfter(s, steps, r) && Inv(Exec(s, steps).value)
    ensures !AlwaysExclusive(s)
  {
    var t := Exec(s, steps).value;
    var q := t.lock.value.owner;
    var more := [Read(r), Judge(r), Reread(r), Remove(r)] + ([Retry(r)] + [WritePid(r), Register(r)] + [WritePid(q), Register(q)]);
    TornReadBreaksExclusion(t, r);
    ExecSplit(s, steps, more);
    assert !ExclusiveAfter(s, steps + more);
  }

  /** From every state that keeps the invariant, as the initial one does: the lock stays
      exclusive in all continuations if and only if none of them can make a torn read. */
  lemma ExclusiveIffNeverTorn(s: State)
    requires Inv(s)
    ensures AlwaysExclusive(s) <==> !CanTear(s)
  {
    if CanTear(s) {
      var steps, r :| TornAfter(s, steps, r);
      var k, r' := InvOrTorn(s, steps);
      if Inv(Exec(s, steps).value) { TornRunBreaks(s, steps, r); } else { TornRunBreaks(s, steps[..k], r'); }
    } else {
      forall steps ensures ExclusiveAfter(s, steps) {
        if Exec(s, steps).Some? {
          var k, r := InvOrTorn(s, steps);
          InvIsExclusive(Exec(s, steps).value);
        }
      }
    }
  }

  /** Process 0 has held the lock for longer than the stale age, process 1 is idle. */
  const LONG_HELD: State :=
    State(Some(LockFile(0, 0, true, true)), 1, None,
          map[0 := Proc(Idle, true, 1, {7}), 1 := Proc(Idle, false, 0, {})], {0, 1})

  /** Process 1 has found an old lock file; process 0 has since replaced it. */
  const REPLACED: State :=
    State(Some(LockFile(1, 0, false, false)), 2, Some(1),
          map[0 := Proc(Created(1, 7), false, 0, {}), 1 := Proc(Statted(8, true), false, 0, {})], {0, 1})

  lemma OldHolder()
    ensures Exec(INIT, [Spawn(0), Spawn(1), Open(0, 7), WritePid(0)] + [Register(0), Age]) == Some(LONG_HELD)
  {
    var s1 := State(None, 0, None, map[0 := Proc(Idle, false, 0, {})], {0});
    assert Do(INIT, Spawn(0)).value.spawned == s1.spawned;
    assert Do(INIT, Spawn(0)).value.procs == s1.procs;
    assert Do(INIT, Spawn(0)) == Some(s1);
    var s2 := State(None, 0, None, map[0 := Proc(Idle, false, 0, {}), 1 := Proc(Idle, false, 0, {})], {0, 1});
    assert Do(s1, Spawn(1)).value.spawned == s2.spawned;
    assert Do(s1, Spawn(1)).value.procs == s2.procs;
    assert Do(s1, Spawn(1)) == Some(s2);
    var s3 := State(Some(LockFile(0, 0, false, false)), 1, None,
                    map[0 := Proc(Created(0, 7), false, 0, {}), 1 := Proc(Idle, false, 0, {})], {0, 1});
    assert Do(s2, Open(0, 7)).value.procs == s3.procs;
    assert Do(s2, Open(0, 7)) == Some(s3);
    var s4 := State(Some(LockFile(0, 0, true, false)), 1, None,
                    map[0 := Proc(Written(0, 7), false, 0, {}), 1 := Proc(Idle, false, 0, {})], {0, 1});
    assert Do(s3, WritePid(0)).value.procs == s4.procs;
    assert Do(s3, WritePid(0)) == Some(s4);
    ExecFour(INIT, Spawn(0), Spawn(1), Open(0, 7), WritePid(0));
    HeldLong(s4);
    ExecSplit(INIT, [Spawn(0), Spawn(1), Open(0, 7), WritePid(0)], [Register(0), Age]);
  }

  lemma HeldLong(s: State)
    requires s == State(Some(LockFile(0, 0, true, false)), 1, None,
                        map[0 := Proc(Written(0, 7), false, 0, {}), 1 := Proc(Idle, false, 0, {})], {0, 1})
    ensures Exec(s, [Register(0), Age]) == Some(LONG_HELD)
  {
    var s1 := LONG_HELD.(lock := Some(LockFile(0, 0, true, false)));
    assert Do(s, Register(0)).value.procs == s1.procs;
    assert Do(s, Register(0)) == Some(s1);
    assert Do(s1, Age) == Some(LONG_HELD);
    ExecTwo(s, Register(0), Age);
  }

  lemma Replacement()
    ensures Exec(LONG_HELD, [Open(1, 8), Stat(1), Close(0, 7), Open(0, 7)]) == Some(REPLACED)
  {
    var s := LONG_HELD;
    var s1 := s.(guard := Some(1), procs := map[0 := Proc(Idle, true, 1, {7}), 1 := Proc(Guarded(8), false, 0, {})]);
    assert Do(s, Open(1, 8)).value.procs == s1.procs;
    assert Do(s, Open(1, 8)) == Some(s1);
    var s2 := s1.(procs := map[0 := Proc(Idle, true, 1, {7}), 1 := Proc(Statted(8, true), false, 0, {})]);
    assert Do(s1, Stat(1)).value.procs == s2.procs;
    assert Do(s1, Stat(1)) == Some(s2);
    var s3 := s2.(lock := None, procs := map[0 := Proc(Idle, false, 0, {}), 1 := Proc(Statted(8, true), false, 0, {})]);
    var none: set<LedgerId> := {};
    assert {7} - {7} == none;
    assert Do(s2, Close(0, 7)).value.procs == s3.procs;
    assert Do(s2, Close(0, 7)) == Some(s3);
    assert Do(s3, Open(0, 7)).value.procs == REPLACED.procs;
    assert Do(s3, Open(0, 7)) == Some(REPLACED);
    ExecFour(s, Open(1, 8), Stat(1), Close(0, 7), Open(0, 7));
  }

  /** A torn read with two processes: process 0 holds the lock for longer than the stale
      age; process 1 stats the lock file; process 0 closes its ledger and opens it
      again, creating a new lock file; process 1 is about to read that file. */
  lemma TornReadHappens() returns (steps: seq<Step>)
    ensures Exec(INIT, steps) == Some(REPLACED) && NoTornReads(steps)
    ensures Inv(REPLACED) && TornRead(REPLACED, Read(1))
  {
    OldHolder();
    Replacement();
    var setup := [Spawn(0), Spawn(1), Open(0, 7), WritePid(0)] + [Register(0), Age];
    var replace := [Open(1, 8), Stat(1), Close(0, 7), Open(0, 7)];
    ExecSplit(INIT, setup, replace);
    steps := setup + replace;
    NoReadsNoTornReads(steps);
    RunKeepsInv(steps);
  }

  lemma {:induction false} NoReadsNoTornReads(steps: seq<Step>)
    requires Exec(INIT, steps).Some? && forall i | 0 <= i < |steps| :: !steps[i].Read?
    ensures NoTornReads(steps)
  {
    if steps != [] { NoReadsNoTornReads(steps[..|steps| - 1]); }
  }
}
