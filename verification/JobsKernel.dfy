/** The kernel's job methods. Each takes `jobMu`, looks the job up in the log, checks its
    guard and appends; all of them keep the log legal. */
module JobsKernel {
  import opened Wrappers
  import opened Jobs

  class Kernel {
    var log: seq<Event>

    ghost predicate Valid()
      reads this
    {
      Legal(log)
    }

    constructor ()
      ensures Valid() && log == []
    {
      log := [];
    }

    /** The last fact of the job, by a scan from the front. */
    method LookupSessionJob(session: string, id: string) returns (job: Option<Job>)
      ensures job == Latest(log, session, id)
    {
      job := None;
      if session == "" || id == "" { return; }
      for k := 0 to |log|
        invariant job == Latest(log[..k], session, id)
      {
        LatestAppend(log[..k], log[k], session, id);
        assert log[..k + 1] == log[..k] + [log[k]];
        if log[k].job.session == session && log[k].job.id == id { job := Some(log[k].job); }
      }
      assert log[..|log|] == log;
    }

    method LookupSessionJobByKey(session: string, tool: string, key: string) returns (job: Option<Job>)
      ensures job == LatestByKey(log, session, tool, key)
    {
      job := None;
      if session == "" || tool == "" || key == "" { return; }
      for k := 0 to |log|
        invariant job == LatestByKey(log[..k], session, tool, key)
      {
        assert log[..k + 1][..k] == log[..k];
        if WithKey(log[k], session, tool, key) { job := Some(log[k].job); }
      }
      assert log[..|log|] == log;
    }

    method Append(e: Event)
      requires Valid() && Allowed(log, e)
      modifies this
      ensures Valid() && log == old(log) + [e]
    {
      log := log + [e];
      assert log[..|log| - 1] == old(log);
    }

    /** A retried request gets the job of its idempotency key; otherwise a job with a new
        id starts. */
    method PrepareManagedShellJob(session: string, turn: string, key: string, cwd: string, command: string, timeout: int,
                                  executor: string, newId: string, receipt: string) returns (job: Job, created: bool)
      requires Valid() && Latest(log, session, newId).None?
      modifies this
      ensures Valid()
      ensures created <==> key == "" || LatestByKey(old(log), session, SHELL, key).None?
      ensures !created ==> log == old(log) && Some(job) == LatestByKey(log, session, SHELL, key)
      ensures created ==> log == old(log) + [Event(StartFact, job)]
      ensures created ==> job == Job(session, turn, newId, SHELL, key, "", executor, Running, cwd, command, timeout, receipt, "", "", "", "")
    {
      if key != "" {
        var found := LookupSessionJobByKey(session, SHELL, key);
        if found.Some? { return found.value, false; }
      }
      job := Job(session, turn, newId, SHELL, key, "", executor, Running, cwd, command, timeout, receipt, "", "", "", "");
      NoKeyNoJob(log, session, SHELL, key);
      Append(Event(StartFact, job));
      created := true;
    }

    /** The start of an attached job, unless its key or its id is known. */
    method AppendJobStartedIfAbsent(job: Job) returns (started: Job, created: bool)
      requires Valid() && job.status == Running
      modifies this
      ensures Valid()
      ensures created <==> LatestByKey(old(log), job.session, job.tool, job.key).None? && Latest(old(log), job.session, job.id).None?
      ensures created ==> started == job && log == old(log) + [Event(StartFact, job)]
      ensures !created ==> log == old(log)
      ensures !created ==> Some(started) in {LatestByKey(log, job.session, job.tool, job.key), Latest(log, job.session, job.id)}
    {
      NoKeyNoJob(log, job.session, job.tool, job.key);
      if job.key != "" {
        var found := LookupSessionJobByKey(job.session, job.tool, job.key);
        if found.Some? { return found.value, false; }
      }
      if job.id != "" {
        var found := LookupSessionJob(job.session, job.id);
        if found.Some? { return found.value, false; }
      }
      NoIdNoJob(log, job.session, job.id);
      Append(Event(StartFact, job));
      return job, true;
    }

    /** Late output keeps the recorded status and identity. */
    method AppendJobOutput(job: Job)
      requires Valid()
      modifies this
      ensures Valid()
      ensures var latest := Latest(old(log), job.session, job.id);
              log == old(log) + (if latest.None? || Terminal(latest.value.status) then []
                                 else [Event(OutputFact, MergeOutput(latest.value, job))])
    {
      var latest := LookupSessionJob(job.session, job.id);
      if latest.None? || Terminal(latest.value.status) { return; }
      LatestIs(log, job.session, job.id);
      var i := LatestWitness(log, job.session, job.id);
      StatusKnown(log, i);
      Append(Event(OutputFact, MergeOutput(latest.value, job)));
    }

    method AppendTerminal(job: Job)
      requires Valid()
      modifies this
      ensures Valid()
      ensures var latest := Latest(old(log), job.session, job.id);
              log == old(log) + (if latest.Some? && Terminal(latest.value.status) then []
                                 else [Event(TerminalKind(job.status), Ended(job))])
    {
      var latest := LookupSessionJob(job.session, job.id);
      if latest.Some? && Terminal(latest.value.status) { return; }
      Append(Event(TerminalKind(job.status), Ended(job)));
    }

    /** Records a cancel request once; the answer says whether the job could still be
        cancelled. */
    method CancelJob(session: string, turn: string, id: string, reason: string) returns (requested: bool)
      requires Valid()
      modifies this
      ensures Valid()
      ensures var latest := Latest(old(log), session, id);
              && (requested <==> latest.Some? && !Terminal(latest.value.status))
              && log == old(log) + (if !requested || latest.value.status == CancelRequested then []
                                    else [Event(CancelFact, latest.value.(turn := turn, status := CancelRequested, cancelReason := reason))])
    {
      var latest := LookupSessionJob(session, id);
      if latest.None? || Terminal(latest.value.status) { return false; }
      LatestIs(log, session, id);
      if latest.value.status != CancelRequested {
        Append(Event(CancelFact, latest.value.(turn := turn, status := CancelRequested, cancelReason := reason)));
      }
      return true;
    }

    /** The latest fact of every job. */
    method LatestByJob() returns (latest: map<(string, string), Job>)
      ensures forall session, id :: Latest(log, session, id) == if (session, id) in latest then Some(latest[(session, id)]) else None
    {
      latest := map[];
      for k := 0 to |log|
        invariant forall session, id ::
                    Latest(log[..k], session, id) == if (session, id) in latest then Some(latest[(session, id)]) else None
      {
        assert log[..k + 1][..k] == log[..k];
        var job := log[k].job;
        if job.session != "" && job.id != "" { latest := latest[(job.session, job.id) := job]; }
      }
      assert log[..|log|] == log;
    }

    /** Fails every local job without a terminal fact, in any order. */
    method RecoverLostLocalManagedJobs()
      requires Valid()
      modifies this
      ensures Valid() && |old(log)| <= |log| && log[..|old(log)|] == old(log)
      ensures Recovers(old(log), log[|old(log)|..])
    {
      ghost var before := log;
      ghost var added := [];
      var latest := LatestByJob();
      var pending := latest.Keys;
      StartOfRecovery(log, latest);
      while pending != {}
        invariant Valid() && log == before + added && pending <= latest.Keys && Pending(before, added, pending)
        decreases |pending|
      {
        var key :| key in pending;
        var job := latest[key];
        assert Latest(before, key.0, key.1) == Some(job);
        PendingStep(before, added, pending, key, job);
        pending := pending - {key};
        if job.executor == LOCAL && !Terminal(job.status) {
          AppendTerminal(job.(status := Failed, failureReason := LOST));
          added := added + [LostFact(job)];
          assert log == before + added;
        }
      }
      Appended(before, added);
    }
  }

  lemma Appended(before: seq<Event>, added: seq<Event>)
    ensures (before + added)[..|before|] == before && (before + added)[|before|..] == added
  {
  }

  /** Part of a recovery is done; the lost jobs left are among the pending ones. */
  ghost predicate Pending(before: seq<Event>, added: seq<Event>, pending: set<(string, string)>) {
    && (forall k | 0 <= k < |added| :: LostFactOf(before, added[k]) && (added[k].job.session, added[k].job.id) !in pending)
    && (forall k, m | 0 <= k < m < |added| :: !Of(added[m], added[k].job.session, added[k].job.id))
    && (forall session, id | Lost(before, session, id) && (session, id) !in pending :: Touches(added, session, id))
  }

  lemma StartOfRecovery(before: seq<Event>, latest: map<(string, string), Job>)
    requires forall session, id ::
               Latest(before, session, id) == if (session, id) in latest then Some(latest[(session, id)]) else None
    ensures Pending(before, [], latest.Keys) && before == before + []
  {
    forall session, id | Lost(before, session, id) ensures (session, id) in latest {
      assert Latest(before, session, id).Some?;
    }
  }

  lemma PendingStep(before: seq<Event>, added: seq<Event>, pending: set<(string, string)>, key: (string, string), job: Job)
    requires Pending(before, added, pending) && key in pending && Latest(before, key.0, key.1) == Some(job)
    ensures Latest(before + added, key.0, key.1) == Some(job) && job.session == key.0 && job.id == key.1
    ensures Pending(before, if Lost(before, key.0, key.1) then added + [LostFact(job)] else added, pending - {key})
  {
    LatestIs(before, key.0, key.1);
    forall k | 0 <= k < |added| ensures !Of(added[k], key.0, key.1) {
      assert (added[k].job.session, added[k].job.id) != key;
    }
    LatestUntouched(before, added, key.0, key.1);
    if Lost(before, key.0, key.1) { PendingAdd(before, added, pending, LostFact(job)); }
  }

  lemma PendingAdd(before: seq<Event>, added: seq<Event>, pending: set<(string, string)>, e: Event)
    requires Pending(before, added, pending) && LostFactOf(before, e)
    requires forall k | 0 <= k < |added| :: !Of(added[k], e.job.session, e.job.id)
    ensures Pending(before, added + [e], pending - {(e.job.session, e.job.id)})
  {
    TouchMore(added, e);
  }

  lemma TouchMore(added: seq<Event>, e: Event)
    ensures forall session, id | Touches(added, session, id) :: Touches(added + [e], session, id)
    ensures Touches(added + [e], e.job.session, e.job.id)
  {
    forall session, id | Touches(added, session, id) ensures Touches(added + [e], session, id) {
      var k :| 0 <= k < |added| && Of(added[k], session, id);
      assert Of((added + [e])[k], session, id);
    }
    assert Of((added + [e])[|added|], e.job.session, e.job.id);
  }

  lemma {:induction false} NoKeyNoJob(log: seq<Event>, session: string, tool: string, key: string)
    ensures key == "" ==> LatestByKey(log, session, tool, key).None?
  {
  }

  lemma {:induction false} NoIdNoJob(log: seq<Event>, session: string, id: string)
    ensures id == "" ==> Latest(log, session, id).None?
  {
  }
}
