/** Managed jobs (internal/kernel/jobs.go): job facts appended under `jobMu`, lookups
    that scan the log for the latest fact, cancellation, and the recovery that a restart
    runs over jobs whose process is gone. */
module Jobs {
  import opened Wrappers

  datatype Status = Blank | Running | CancelRequested | Completed | Failed | Cancelled

  datatype Job = Job(session: string, turn: string, id: string, tool: string, key: string, sourceOperation: string,
                     executor: string, status: Status, cwd: string, command: string, timeout: int, receipt: string,
                     stdout: string, stderr: string, failureReason: string, cancelReason: string)

  datatype Kind = StartFact | OutputFact | CancelFact | CompletedFact | FailedFact | CancelledFact

  datatype Event = Event(kind: Kind, job: Job)

  const LOCAL := "local_managed_shell"
  const SHELL := "shell_exec"
  const LOST := "managed_job_lost_ownership"

  predicate Terminal(s: Status) { s.Completed? || s.Failed? || s.Cancelled? }

  /** running, cancel_requested, terminal. */
  function Rank(s: Status): nat {
    match s
    case Blank => 0
    case Running => 1
    case CancelRequested => 2
    case _ => 3
  }

  predicate Of(e: Event, session: string, id: string) { e.job.session == session && e.job.id == id }

  function Latest(log: seq<Event>, session: string, id: string): Option<Job> {
    if log == [] || session == "" || id == "" then None
    else if Of(log[|log| - 1], session, id) then Some(log[|log| - 1].job)
    else Latest(log[..|log| - 1], session, id)
  }

  predicate WithKey(e: Event, session: string, tool: string, key: string) {
    e.job.session == session && e.job.tool == tool && e.job.key == key
  }

  function LatestByKey(log: seq<Event>, session: string, tool: string, key: string): Option<Job> {
    if log == [] || session == "" || tool == "" || key == "" then None
    else if WithKey(log[|log| - 1], session, tool, key) then Some(log[|log| - 1].job)
    else LatestByKey(log[..|log| - 1], session, tool, key)
  }

  /** What a job is, apart from how far it has come and what it has written. */
  function Identity(j: Job): Job {
    j.(turn := "", status := Blank, stdout := "", stderr := "", failureReason := "", cancelReason := "")
  }

  /** The identity and status of the latest fact with the output of the snapshot. */
  function MergeOutput(latest: Job, snapshot: Job): (r: Job)
    ensures Identity(r) == Identity(latest) && r.turn == latest.turn
    ensures latest.status != Blank ==> r.status == latest.status
    ensures r.stdout == snapshot.stdout && r.stderr == snapshot.stderr
  {
    latest.(status := if latest.status == Blank then Running else latest.status,
            stdout := snapshot.stdout, stderr := snapshot.stderr, failureReason := "", cancelReason := "")
  }

  function TerminalKind(s: Status): Kind {
    match s
    case Completed => CompletedFact
    case Cancelled => CancelledFact
    case _ => FailedFact
  }

  /** The record of a terminal fact: any status but completed and cancelled fails. */
  function Ended(job: Job): Job {
    if job.status == Completed || job.status == Cancelled then job else job.(status := Failed)
  }

  // ------------------------------------------------------------------ legal logs

  predicate Allowed(log: seq<Event>, e: Event) {
    var latest := Latest(log, e.job.session, e.job.id);
    match e.kind
    case StartFact =>
      e.job.status == Running && latest.None? && LatestByKey(log, e.job.session, e.job.tool, e.job.key).None?
    case OutputFact =>
      && latest.Some? && !Terminal(latest.value.status) && e.job.status == latest.value.status
      && e.job == MergeOutput(latest.value, e.job)
    case CancelFact =>
      && latest.Some? && !Terminal(latest.value.status) && latest.value.status != CancelRequested
      && e.job == latest.value.(turn := e.job.turn, status := CancelRequested, cancelReason := e.job.cancelReason)
    case _ =>
      && (latest.Some? ==> !Terminal(latest.value.status))
      && Terminal(e.job.status) && e.kind == TerminalKind(e.job.status)
  }

  predicate Legal(log: seq<Event>) {
    log == [] || (Legal(log[..|log| - 1]) && Allowed(log[..|log| - 1], log[|log| - 1]))
  }

  lemma {:induction false} LegalAt(log: seq<Event>, k: nat)
    requires Legal(log) && k < |log|
    ensures Legal(log[..k]) && Allowed(log[..k], log[k])
  {
    if k < |log| - 1 {
      LegalAt(log[..|log| - 1], k);
      assert log[..|log| - 1][..k] == log[..k];
    }
  }

  // ------------------------------------------------------------------ lookups

  lemma {:induction false} LatestFound(log: seq<Event>, session: string, id: string, i: nat)
    requires session != "" && id != "" && i < |log| && Of(log[i], session, id)
    ensures Latest(log, session, id).Some?
  {
    if i < |log| - 1 { LatestFound(log[..|log| - 1], session, id, i); }
  }

  lemma {:induction false} LatestWitness(log: seq<Event>, session: string, id: string) returns (i: nat)
    requires Latest(log, session, id).Some?
    ensures i < |log| && Of(log[i], session, id) && Latest(log, session, id) == Some(log[i].job)
    ensures forall j | i < j < |log| :: !Of(log[j], session, id)
  {
    if Of(log[|log| - 1], session, id) { return |log| - 1; }
    i := LatestWitness(log[..|log| - 1], session, id);
  }

  lemma {:induction false} KeyFound(log: seq<Event>, session: string, tool: string, key: string, i: nat)
    requires session != "" && tool != "" && key != "" && i < |log| && WithKey(log[i], session, tool, key)
    ensures LatestByKey(log, session, tool, key).Some?
  {
    if i < |log| - 1 { KeyFound(log[..|log| - 1], session, tool, key, i); }
  }

  // ------------------------------------------------------------------ the life of a job

  /** Statuses that facts of a legal log can have. */
  lemma StatusKnown(log: seq<Event>, k: nat)
    requires Legal(log) && k < |log| && log[k].job.session != "" && log[k].job.id != ""
    ensures log[k].job.status != Blank
    ensures Terminal(log[k].job.status) <==> log[k].kind in {CompletedFact, FailedFact, CancelledFact}
    decreases k
  {
    LegalAt(log, k);
    if log[k].kind == OutputFact {
      var i := LatestWitness(log[..k], log[k].job.session, log[k].job.id);
      StatusKnown(log, i);
    }
  }

  /** Between two facts of a job the rank never falls, and a terminal fact has no
      successor. */
  lemma {:induction false} LatestAfter(log: seq<Event>, i: nat, n: nat)
    requires Legal(log) && i < n <= |log| && log[i].job.session != "" && log[i].job.id != ""
    ensures var latest := Latest(log[..n], log[i].job.session, log[i].job.id);
            && latest.Some? && Rank(latest.value.status) >= Rank(log[i].job.status)
            && (Terminal(log[i].job.status) ==> forall j | i < j < n :: !Of(log[j], log[i].job.session, log[i].job.id))
  {
    assert log[..n][..n - 1] == log[..n - 1];
    if i < n - 1 {
      LatestAfter(log, i, n - 1);
      LegalAt(log, n - 1);
    }
  }

  /** Two facts of one job, in the order recorded: the status only moves from running
      over cancel_requested to a terminal one; nothing follows a terminal fact; only the
      first fact can be a start and only one can be a cancel request. */
  lemma StatusOnlyAdvances(log: seq<Event>, i: nat, j: nat)
    requires Legal(log) && i < j < |log| && log[i].job.session != "" && log[i].job.id != ""
    requires Of(log[j], log[i].job.session, log[i].job.id)
    ensures Rank(log[i].job.status) <= Rank(log[j].job.status) && !Terminal(log[i].job.status)
    ensures log[j].kind != StartFact
    ensures log[j].kind == CancelFact ==> log[i].job.status == Running
  {
    LatestAfter(log, i, j);
    LegalAt(log, j);
    StatusKnown(log, j);
    StatusKnown(log, i);
    LatestAfter(log, i, j + 1);
  }

  lemma {:induction false} LatestIdentity(log: seq<Event>, i: nat, n: nat)
    requires Legal(log) && i < n <= |log| && log[i].job.session != "" && log[i].job.id != ""
    ensures var latest := Latest(log[..n], log[i].job.session, log[i].job.id);
            latest.Some? && (!Terminal(latest.value.status) ==> Identity(latest.value) == Identity(log[i].job))
  {
    assert log[..n][..n - 1] == log[..n - 1];
    if i < n - 1 {
      LatestIdentity(log, i, n - 1);
      LegalAt(log, n - 1);
    }
  }

  /** Until its terminal fact a job stays what it was: output and cancel requests change
      neither its command nor its key nor its executor. */
  lemma IdentityKept(log: seq<Event>, i: nat, j: nat)
    requires Legal(log) && i < j < |log| && log[i].job.session != "" && log[i].job.id != ""
    requires Of(log[j], log[i].job.session, log[i].job.id) && !Terminal(log[j].job.status)
    ensures Identity(log[j].job) == Identity(log[i].job)
  {
    LatestIdentity(log, i, j + 1);
  }

  /** So a job once recorded as local ends with a terminal fact or is found by recovery. */
  lemma LocalJobsAreRecoverable(log: seq<Event>, i: nat)
    requires Legal(log) && i < |log| && log[i].job.session != "" && log[i].job.id != "" && log[i].job.executor == LOCAL
    ensures var latest := Latest(log, log[i].job.session, log[i].job.id);
            latest.Some? && (Terminal(latest.value.status) || Lost(log, log[i].job.session, log[i].job.id))
  {
    LatestIdentity(log, i, |log|);
    assert log[..|log|] == log;
  }

  /** Each session, tool and non-empty idempotency key has at most one job start. */
  lemma OneStartPerKey(log: seq<Event>, i: nat, j: nat)
    requires Legal(log) && i < |log| && j < |log| && log[i].kind == StartFact && log[j].kind == StartFact
    requires log[i].job.session != "" && log[i].job.tool != "" && log[i].job.key != ""
    requires WithKey(log[j], log[i].job.session, log[i].job.tool, log[i].job.key)
    ensures i == j
  {
    var a, b := if i <= j then i else j, if i <= j then j else i;
    if a < b {
      LegalAt(log, b);
      KeyFound(log[..b], log[i].job.session, log[i].job.tool, log[i].job.key, a);
    }
  }

  // ------------------------------------------------------------------ restart recovery

  /** The job needs recovery. */
  predicate Lost(log: seq<Event>, session: string, id: string) {
    var latest := Latest(log, session, id);
    latest.Some? && latest.value.executor == LOCAL && !Terminal(latest.value.status)
  }

  function LostFact(job: Job): Event { Event(FailedFact, job.(status := Failed, failureReason := LOST)) }

  lemma LatestAppend(log: seq<Event>, e: Event, session: string, id: string)
    ensures Latest(log + [e], session, id) ==
            if session != "" && id != "" && Of(e, session, id) then Some(e.job) else Latest(log, session, id)
  {
    assert (log + [e])[..|log|] == log;
  }

  lemma LatestIs(log: seq<Event>, session: string, id: string)
    requires Latest(log, session, id).Some?
    ensures Latest(log, session, id).value.session == session && Latest(log, session, id).value.id == id
    ensures session != "" && id != ""
  {
    var i := LatestWitness(log, session, id);
  }

  ghost predicate Touches(added: seq<Event>, session: string, id: string) {
    exists k :: 0 <= k < |added| && Of(added[k], session, id)
  }

  ghost predicate LostFactOf(log: seq<Event>, e: Event) {
    Lost(log, e.job.session, e.job.id) && e == LostFact(Latest(log, e.job.session, e.job.id).value)
  }

  /** The facts a recovery appends, whatever order it takes the jobs in: one for every
      lost job and no other. */
  ghost predicate Recovers(log: seq<Event>, added: seq<Event>) {
    && (forall k | 0 <= k < |added| :: LostFactOf(log, added[k]))
    && (forall k, m | 0 <= k < m < |added| :: !Of(added[m], added[k].job.session, added[k].job.id))
    && (forall session, id | Lost(log, session, id) :: Touches(added, session, id))
  }

  /** Facts of other jobs do not matter to a job. */
  lemma {:induction false} LatestUntouched(log: seq<Event>, added: seq<Event>, session: string, id: string)
    requires forall k | 0 <= k < |added| :: !Of(added[k], session, id)
    ensures Latest(log + added, session, id) == Latest(log, session, id)
  {
    if added == [] {
      assert log + added == log;
    } else {
      LatestUntouched(log, added[..|added| - 1], session, id);
      assert log + added == (log + added[..|added| - 1]) + [added[|added| - 1]];
      LatestAppend(log + added[..|added| - 1], added[|added| - 1], session, id);
    }
  }

  lemma LostJobFails(log: seq<Event>, added: seq<Event>, k: nat)
    requires Recovers(log, added) && k < |added|
    ensures Latest(log + added, added[k].job.session, added[k].job.id) == Some(added[k].job)
  {
    var session, id := added[k].job.session, added[k].job.id;
    assert LostFactOf(log, added[k]);
    LatestIs(log, session, id);
    var front, back := log + added[..k], added[k + 1..];
    LatestAppend(front, added[k], session, id);
    LatestUntouched(front + [added[k]], back, session, id);
    SplitAt(log, added, k);
  }

  lemma SplitAt(log: seq<Event>, added: seq<Event>, k: nat)
    requires k < |added|
    ensures log + added == log + added[..k] + [added[k]] + added[k + 1..]
  {
    assert added == added[..k] + [added[k]] + added[k + 1..];
  }

  lemma RecoveredLatest(log: seq<Event>, added: seq<Event>, session: string, id: string)
    requires Recovers(log, added)
    ensures Lost(log, session, id) ==> Latest(log + added, session, id) == Some(LostFact(Latest(log, session, id).value).job)
    ensures !Lost(log, session, id) ==> Latest(log + added, session, id) == Latest(log, session, id)
  {
    if Lost(log, session, id) {
      assert Touches(added, session, id);
      var k :| 0 <= k < |added| && Of(added[k], session, id);
      assert LostFactOf(log, added[k]);
      LostJobFails(log, added, k);
    } else {
      forall k | 0 <= k < |added| ensures !Of(added[k], session, id) { assert LostFactOf(log, added[k]); }
      LatestUntouched(log, added, session, id);
    }
  }

  /** What a recovery achieves: every lost job ends failed with the reason recorded, every
      other job is untouched, and nothing is lost afterwards. */
  lemma RecoveryIsComplete(log: seq<Event>, added: seq<Event>, session: string, id: string)
    requires Recovers(log, added)
    ensures !Lost(log + added, session, id)
    ensures Latest(log + added, session, id) ==
            if Lost(log, session, id) then Some(LostFact(Latest(log, session, id).value).job) else Latest(log, session, id)
  {
    RecoveredLatest(log, added, session, id);
  }

  /** A second recovery appends nothing. */
  lemma RecoveryIsIdempotent(log: seq<Event>, added: seq<Event>, again: seq<Event>)
    requires Recovers(log, added)
    ensures Recovers(log + added, again) <==> again == []
  {
    if again == [] {
      forall session, id ensures !Lost(log + added, session, id) { RecoveryIsComplete(log, added, session, id); }
    } else if Recovers(log + added, again) {
      assert LostFactOf(log + added, again[0]);
      RecoveryIsComplete(log, added, again[0].job.session, again[0].job.id);
    }
  }
}
