/** The review methods of the kernel and the session projection builder. */
module MemoryKernel {
  import opened Wrappers
  import opened Memory
  import opened MemoryTheorems

  /** What a review returns. */
  datatype Reply = Done(candidate: Candidate) | Replacing(superseded: Candidate, replacement: Candidate) | NotFound | Refused

  class Kernel {
    var log: seq<Event>

    ghost predicate Valid()
      reads this
    {
      Legal(log)
    }

    /** The book of the log. */
    ghost function Current(): Book
      reads this
    {
      if Fold(log).Ok? then Fold(log).value else EMPTY
    }

    constructor ()
      ensures Valid() && log == []
    {
      log := [];
    }

    /** The global fold, by a loop over the events. */
    method MemoryCandidateList() returns (r: Result<Book>)
      ensures r == Fold(log)
    {
      var candidates: map<string, Candidate> := map[];
      var order: seq<string> := [];
      var k := 0;
      while k < |log|
        invariant 0 <= k <= |log| && Fold(log[..k]) == Ok(Book(candidates, order))
      {
        assert log[..k + 1][..k] == log[..k];
        var e := log[k];
        var error;
        error, candidates, order := RecordCandidate(e.candidate, candidates, order);
        if error.None? && e.Supersession? {
          error, candidates, order := RecordCandidate(e.replacement, candidates, order);
        }
        if error.Some? {
          ErrorStays(log, k + 1);
          return Err(error.value);
        }
        k := k + 1;
      }
      assert log[..k] == log;
      return Ok(Book(candidates, order));
    }

    method Append(e: Event)
      requires Valid() && Allowed(log, e)
      modifies this
      ensures Valid() && log == old(log) + [e]
    {
      log := log + [e];
      assert log[..|log| - 1] == old(log);
    }

    /** A new pending candidate. */
    method CreateMemoryCandidate(core: Core) returns (candidate: Candidate)
      requires Valid() && New(log, core.id)
      modifies this
      ensures Valid() && candidate == Created(core) && log == old(log) + [Reviewed(candidate)]
    {
      candidate := Created(core);
      Append(Reviewed(candidate));
    }

    /** Approves a pending candidate; a repeated approval changes nothing. */
    method ApproveMemoryCandidate(id: string, d: Decision) returns (r: Reply)
      requires Valid()
      modifies this
      ensures Valid()
      ensures var m := old(Current()).candidates;
              if id !in m then r == NotFound && log == old(log)
              else if m[id].status == Approved then r == Done(m[id]) && log == old(log)
              else if m[id].status != Pending then r == Refused && log == old(log)
              else r == Done(m[id].(status := Approved, approval := Some(d))) && log == old(log) + [Reviewed(r.candidate)]
    {
      LegalLogsReplay(log);
      var book := MemoryCandidateList();
      var candidates := book.value.candidates;
      if id == "" || id !in candidates { return NotFoundFor(book.value, id); }
      assert Sound(book.value, id);
      var candidate := candidates[id];
      if candidate.status == Approved { return Done(candidate); }
      if candidate.status == Rejected || candidate.status == Superseded || candidate.status == Forgotten { return Refused; }
      candidate := candidate.(status := Approved, approval := Some(d));
      Append(Reviewed(candidate));
      return Done(candidate);
    }

    /** Rejects a pending candidate; a repeated rejection changes nothing. */
    method RejectMemoryCandidate(id: string, d: Decision) returns (r: Reply)
      requires Valid()
      modifies this
      ensures Valid()
      ensures var m := old(Current()).candidates;
              if id !in m then r == NotFound && log == old(log)
              else if m[id].status == Rejected then r == Done(m[id]) && log == old(log)
              else if m[id].status != Pending then r == Refused && log == old(log)
              else r == Done(m[id].(status := Rejected, rejection := Some(d))) && log == old(log) + [Reviewed(r.candidate)]
    {
      LegalLogsReplay(log);
      var book := MemoryCandidateList();
      var candidates := book.value.candidates;
      if id == "" || id !in candidates { return NotFoundFor(book.value, id); }
      assert Sound(book.value, id);
      var candidate := candidates[id];
      if candidate.status == Rejected { return Done(candidate); }
      if candidate.status == Approved || candidate.status == Superseded || candidate.status == Forgotten { return Refused; }
      candidate := candidate.(status := Rejected, rejection := Some(d));
      Append(Reviewed(candidate));
      return Done(candidate);
    }

    /** Replaces a candidate by a new pending one; a repeated request finds the existing
        replacement. */
    method SupersedeMemoryCandidate(id: string, text: string, sourceRef: string, d: Decision, newId: string) returns (r: Reply)
      requires Valid() && New(log, newId)
      modifies this
      ensures Valid()
      ensures var m := old(Current()).candidates;
              if id !in m then r == NotFound && log == old(log)
              else if m[id].status == Superseded then
                m[id].replacement in m && r == Replacing(m[id], m[m[id].replacement]) && log == old(log)
              else if m[id].status == Forgotten then r == Refused && log == old(log)
              else
                && r == Replacing(m[id].(status := Superseded, supersession := Some(d), replacement := newId),
                                  Created(m[id].core.(id := newId, text := text, sourceRef := sourceRef, createdAt := d.at)))
                && log == old(log) + [Supersession(r.superseded, r.replacement)]
    {
      LegalLogsReplay(log);
      var book := MemoryCandidateList();
      var candidates := book.value.candidates;
      if id == "" || id !in candidates { return NotFoundFor(book.value, id); }
      assert Sound(book.value, id);
      NewNotInBook(log, newId);
      var candidate := candidates[id];
      if candidate.status == Superseded { return Replacing(candidate, candidates[candidate.replacement]); }
      if candidate.status == Forgotten { return Refused; }
      var replacement := Created(candidate.core.(id := newId, text := text, sourceRef := sourceRef, createdAt := d.at));
      candidate := candidate.(status := Superseded, supersession := Some(d), replacement := newId);
      Append(Supersession(candidate, replacement));
      return Replacing(candidate, replacement);
    }

    /** Forgets a candidate of any other status. */
    method ForgetMemoryCandidate(id: string, d: Decision) returns (r: Reply)
      requires Valid()
      modifies this
      ensures Valid()
      ensures var m := old(Current()).candidates;
              if id !in m then r == NotFound && log == old(log)
              else if m[id].status == Forgotten then r == Done(m[id]) && log == old(log)
              else r == Done(m[id].(status := Forgotten, forgetting := Some(d))) && log == old(log) + [Reviewed(r.candidate)]
    {
      LegalLogsReplay(log);
      var book := MemoryCandidateList();
      var candidates := book.value.candidates;
      if id == "" || id !in candidates { return NotFoundFor(book.value, id); }
      assert Sound(book.value, id);
      var candidate := candidates[id];
      if candidate.status == Forgotten { return Done(candidate); }
      candidate := candidate.(status := Forgotten, forgetting := Some(d));
      Append(Reviewed(candidate));
      return Done(candidate);
    }
  }

  /** No candidate has the empty id. */
  function NotFoundFor(b: Book, id: string): (r: Reply)
    requires BookInv(b) && (id == "" || id !in b.candidates)
    ensures r == NotFound && id !in b.candidates
  {
    assert id in b.candidates ==> Sound(b, id);
    NotFound
  }

  method RecordCandidate(c: Candidate, candidates: map<string, Candidate>, order: seq<string>)
    returns (error: Option<Error>, candidates': map<string, Candidate>, order': seq<string>)
    ensures Record(Book(candidates, order), c) == if error.Some? then Err(error.value) else Ok(Book(candidates', order'))
  {
    candidates', order' := candidates, order;
    var id := c.core.id;
    if id == "" { return Some(MissingId), candidates, order; }
    var merged := c;
    if id in candidates {
      var r := Merge(candidates[id], c);
      if r.Err? { return Some(r.error), candidates, order; }
      merged := r.value;
    } else {
      order' := order' + [id];
    }
    candidates' := candidates'[id := merged];
    return None, candidates', order';
  }

  lemma {:induction false} ErrorStays(log: seq<Event>, k: nat)
    requires k <= |log| && Fold(log[..k]).Err?
    ensures Fold(log) == Fold(log[..k])
  {
    if k < |log| {
      assert log[..|log| - 1][..k] == log[..k];
      ErrorStays(log[..|log| - 1], k);
    } else {
      assert log[..k] == log;
    }
  }

  /** The projection of one session, updated in place. */
  class SessionProjectionBuilder {
    var items: seq<Candidate>
    var byId: map<string, nat>

    ghost predicate Valid()
      reads this
    {
      WellIndexed(Builder(items, byId))
    }

    constructor ()
      ensures Valid() && Builder(items, byId) == NO_ITEMS
    {
      items, byId := [], map[];
    }

    method UpsertMemoryCandidate(c: Candidate) returns (error: Option<Error>)
      requires Valid()
      modifies this
      ensures Valid()
      ensures old(Upsert(Builder(items, byId), c)) == if error.Some? then Err(error.value) else Ok(Builder(items, byId))
    {
      var id := c.core.id;
      if id == "" { return Some(MissingId); }
      if id in byId {
        var r := Merge(items[byId[id]], c);
        if r.Err? { return Some(r.error); }
        items := items[byId[id] := r.value];
      } else {
        byId := byId[id := |items|];
        items := items + [c];
      }
      return None;
    }

    method ApplyMemoryCandidateEvent(e: Event) returns (error: Option<Error>)
      requires Valid()
      modifies this
      ensures Valid()
      ensures old(ApplyOwn(Builder(items, byId), e)) == if error.Some? then Err(error.value) else Ok(Builder(items, byId))
    {
      error := UpsertMemoryCandidate(e.candidate);
      if error.None? && e.Supersession? { error := UpsertMemoryCandidate(e.replacement); }
    }
  }

  /** Builds the candidates of a session. */
  method BuildSessionCandidates(log: seq<Event>, session: string) returns (r: Result<seq<Candidate>>)
    ensures match Build(log, session)
            case Ok(b) => r == Ok(b.items)
            case Err(error) => r == Err(error)
  {
    var builder := new SessionProjectionBuilder();
    for k := 0 to |log|
      invariant builder.Valid() && fresh(builder)
      invariant Build(log[..k], session) == Ok(Builder(builder.items, builder.byId))
    {
      assert log[..k + 1][..k] == log[..k];
      if log[k].candidate.core.session == session {
        var error := builder.ApplyMemoryCandidateEvent(log[k]);
        if error.Some? {
          BuildErrorStays(log, k + 1, session);
          return Err(error.value);
        }
      }
    }
    assert log[..|log|] == log;
    return Ok(builder.items);
  }

  lemma {:induction false} BuildErrorStays(log: seq<Event>, k: nat, session: string)
    requires k <= |log| && Build(log[..k], session).Err?
    ensures Build(log, session) == Build(log[..k], session)
  {
    if k < |log| {
      assert log[..|log| - 1][..k] == log[..k];
      BuildErrorStays(log[..|log| - 1], k, session);
    } else {
      assert log[..k] == log;
    }
  }
}
