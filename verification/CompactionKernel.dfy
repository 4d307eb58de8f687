/** The loops of context compaction and the session object whose compactions they
    drive. Each loop is proved to compute the function the theorems speak of. */
module CompactionKernel {
  import opened Wrappers
  import opened Compaction
  import opened CompactionTheorems

  lemma FoldPrefix(log: seq<Event>, k: nat)
    requires k < |log|
    ensures FoldAll(log[..k + 1]) == Fold(FoldAll(log[..k]), log[k])
  {
    assert log[..k + 1][..k] == log[..k];
  }

  /** The event at which a history fold for turn `before` stops. */
  predicate Stops(e: Event, before: TurnId) { before != "" && e.Submitted? && e.turn == before }

  lemma {:induction false} BeforeIs(log: seq<Event>, before: TurnId, k: nat)
    requires k <= |log| && (k < |log| ==> Stops(log[k], before)) && forall m | 0 <= m < k :: !Stops(log[m], before)
    ensures Before(log, before) == log[..k]
  {
    if k > 0 {
      BeforeIs(log[1..], before, k - 1);
      assert [log[0]] + log[1..][..k - 1] == log[..k];
    }
  }

  /** The entry that ends a turn, from the working maps. */
  method CloseTurn(inputs: map<TurnId, string>, calls: map<TurnId, seq<Call>>, results: map<TurnId, seq<Outcome>>,
                   t: TurnId, assistant: string, paused: bool) returns (entry: seq<Entry>)
    ensures forall turns :: entry == Closed(Folded(inputs, calls, results, turns), t, assistant, paused)
  {
    var userText := Get(inputs, t, "");
    var exchanges := PairedExchanges(Get(calls, t, []), Get(results, t, []));
    if Trim(userText) != "" || |exchanges| > 0 || (!paused && assistant != "") {
      return [Entry(t, userText, exchanges, assistant)];
    }
    return [];
  }

  /** Entries completed before turn `before` was submitted. */
  method CompletedTurns(log: seq<Event>, before: TurnId) returns (turns: seq<Entry>)
    ensures turns == Turns(Before(log, before))
  {
    var inputs: map<TurnId, string> := map[];
    var calls: map<TurnId, seq<Call>> := map[];
    var results: map<TurnId, seq<Outcome>> := map[];
    turns := [];
    var k := 0;
    while k < |log| && !Stops(log[k], before)
      invariant 0 <= k <= |log| && forall m | 0 <= m < k :: !Stops(log[m], before)
      invariant FoldAll(log[..k]) == Folded(inputs, calls, results, turns)
    {
      FoldPrefix(log, k);
      match log[k] {
        case Submitted(t, text) => inputs := inputs[t := text];
        case ToolCalled(t, c) => calls := calls[t := Get(calls, t, []) + [c]];
        case ToolReturned(t, o) => results := results[t := Get(results, t, []) + [o]];
        case Final(t, text, _) =>
          var entry := CloseTurn(inputs, calls, results, t, Trim(text), false);
          turns := turns + entry;
          inputs, calls, results := inputs - {t}, calls - {t}, results - {t};
        case Paused(t, text) =>
          var entry := CloseTurn(inputs, calls, results, t, text, true);
          turns := turns + entry;
          inputs, calls, results := inputs - {t}, calls - {t}, results - {t};
        case TurnFailed(t) => inputs, calls, results := inputs - {t}, calls - {t}, results - {t};
        case _ =>
      }
      k := k + 1;
    }
    BeforeIs(log, before, k);
  }

  /** Pairs calls with results through a map from call id to its last result. */
  method PairedExchanges(calls: seq<Call>, results: seq<Outcome>) returns (exchanges: seq<Exchange>)
    ensures exchanges == Exchanges(calls, results)
  {
    exchanges := [];
    if |calls| == 0 || |results| == 0 {
      NoResults(calls, results);
      return;
    }
    var byId: map<string, Outcome> := map[];
    for r := 0 to |results|
      invariant forall id :: ResultFor(id, results[..r]) == if id in byId then Some(byId[id]) else None
    {
      assert results[..r + 1][..r] == results[..r];
      byId := byId[Trim(results[r].forEventId) := results[r]];
    }
    assert results[..|results|] == results;
    for c := 0 to |calls|
      invariant exchanges == Exchanges(calls[..c], results)
    {
      assert calls[..c + 1][..c] == calls[..c];
      var id := Trim(calls[c].eventId);
      assert ResultFor(id, results) == if id in byId then Some(byId[id]) else None;
      if id in byId {
        var o := byId[id];
        exchanges := exchanges + [Exchange(Trim(calls[c].tool), Trim(calls[c].arguments), Trim(o.status), Trim(o.content))];
      }
    }
    assert calls[..|calls|] == calls;
  }

  lemma {:induction false} NoResults(calls: seq<Call>, results: seq<Outcome>)
    requires calls == [] || results == []
    ensures Exchanges(calls, results) == []
  {
    if calls != [] { NoResults(calls[..|calls| - 1], results); }
  }

  method LatestCompaction(log: seq<Event>, before: TurnId) returns (latest: Option<Compaction>)
    ensures latest == LatestCompleted(Before(log, before))
  {
    latest := None;
    var k := 0;
    while k < |log| && !Stops(log[k], before)
      invariant 0 <= k <= |log| && forall m | 0 <= m < k :: !Stops(log[m], before)
      invariant latest == LatestCompleted(log[..k])
    {
      assert log[..k + 1][..k] == log[..k];
      if log[k].Completed? { latest := Some(log[k].compaction); }
      k := k + 1;
    }
    BeforeIs(log, before, k);
  }

  /** Nothing before `n` is of turn `id`. */
  lemma {:induction false} CutNone(turns: seq<Entry>, id: TurnId)
    requires forall k | 0 <= k < |turns| :: turns[k].turn != id
    ensures Cut(turns, id) == 0
  {
    if turns != [] { CutNone(turns[..|turns| - 1], id); }
  }

  lemma CutFirst(turns: seq<Entry>, id: TurnId, k: nat)
    requires id != "" && k < |turns| && turns[k].turn == id && forall m | 0 <= m < k :: turns[m].turn != id
    ensures Cut(turns, id) == k + 1
  {
    CutAtMost(turns, k);
  }

  method TurnsAfterCompacted(turns: seq<Entry>, id: TurnId) returns (rest: seq<Entry>)
    ensures rest == turns[Cut(turns, id)..]
  {
    if id == "" { return turns; }
    for k := 0 to |turns|
      invariant forall m | 0 <= m < k :: turns[m].turn != id
    {
      if turns[k].turn == id {
        CutFirst(turns, id, k);
        return turns[k + 1..];
      }
    }
    CutNone(turns, id);
    return turns;
  }

  /** The history shown to the model: the cut and the verbatim entries. */
  method History(log: seq<Event>, before: TurnId) returns (through: TurnId, turns: seq<Entry>)
    ensures through == Through(Before(log, before)) && turns == Verbatim(Before(log, before))
  {
    var latest := LatestCompaction(log, before);
    through := if latest.Some? then latest.value.through else "";
    turns := CompletedTurns(log, before);
    turns := TurnsAfterCompacted(turns, through);
  }

  method AccountingByTurn(log: seq<Event>) returns (acc: map<TurnId, int>)
    ensures acc == Accounting(log)
  {
    acc := map[];
    for k := 0 to |log|
      invariant acc == Accounting(log[..k])
    {
      assert log[..k + 1][..k] == log[..k];
      if log[k].Accounted? { acc := acc[log[k].turn := log[k].tokens]; }
    }
    assert log[..|log|] == log;
  }

  method RegionEndByAccounting(turns: seq<Entry>, floor: nat, budget: int, acc: map<TurnId, int>) returns (regionEnd: int)
    requires 0 < floor < |turns| && budget > 0
    ensures regionEnd == WalkBack(turns, acc, floor, budget, |turns|, 0)
  {
    regionEnd := |turns| - floor;
    if budget <= 0 || |acc| == 0 {
      return;
    }
    var used, kept, n := 0, 0, |turns|;
    while n > 0
      invariant 0 <= n <= |turns| && kept == |turns| - n
      invariant regionEnd == if n == |turns| then |turns| - floor else n
      invariant WalkBack(turns, acc, floor, budget, |turns|, 0) == WalkBack(turns, acc, floor, budget, n, used)
    {
      var id := turns[n - 1].turn;
      if id !in acc || acc[id] <= 0 {
        if kept >= floor { break; }
        return;
      }
      if kept >= floor && used + acc[id] > budget { break; }
      used := used + acc[id];
      n := n - 1;
      regionEnd := n;
      kept := kept + 1;
    }
    if |turns| - regionEnd < floor {
      regionEnd := |turns| - floor;
    }
  }

  method CompactionRegion(turns: seq<Entry>, p: Policy, acc: map<TurnId, int>) returns (region: seq<Entry>)
    ensures region == turns[..RegionLength(turns, p, acc)]
  {
    if |turns| == 0 { return []; }
    var floor := p.recentTurns;
    if floor <= 0 { floor := DEFAULT_RECENT_TURNS; }
    if |turns| <= floor { return []; }
    var regionEnd := |turns| - floor;
    if p.tailTokens > 0 { regionEnd := RegionEndByAccounting(turns, floor, p.tailTokens, acc); }
    if regionEnd <= 0 { return []; }
    return turns[..regionEnd];
  }

  method LatestFailureAfterCompletion(log: seq<Event>) returns (failure: Option<TurnId>)
    ensures failure == LatestFailure(log)
  {
    var last := -1;
    for k := 0 to |log|
      invariant -1 <= last < k && (last >= 0 ==> log[last].Completed?)
      invariant forall m | last < m < k :: !log[m].Completed?
    {
      if log[k].Completed? { last := k; }
    }
    failure := None;
    for k := last + 1 to |log|
      invariant failure == LatestFailure(log[..k])
    {
      assert log[..k + 1][..k] == log[..k];
      if log[k].Failed? { failure := Some(log[k].turn); }
    }
    assert log[..|log|] == log;
  }

  method CompletedTurnsAfter(turns: seq<Entry>, id: TurnId) returns (n: nat)
    ensures n == TurnsAfter(turns, id)
  {
    if id == "" { return 0; }
    for k := 0 to |turns|
      invariant forall m | 0 <= m < k :: turns[m].turn != id
    {
      if turns[k].turn == id {
        CutFirst(turns, id, k);
        return |turns| - k - 1;
      }
    }
    CutNone(turns, id);
    return 0;
  }

  method ContextCompactionBackoff(p: Policy, log: seq<Event>) returns (deferred: bool)
    ensures deferred == Backoff(p, log)
  {
    if p.backoffTurns <= 0 { return false; }
    var failure := LatestFailureAfterCompletion(log);
    if failure.None? { return false; }
    var turns := CompletedTurns(log, "");
    BeforeAll(log);
    var after := CompletedTurnsAfter(turns, failure.value);
    return after <= p.backoffTurns;
  }

  lemma {:induction false} BeforeAll(log: seq<Event>)
    ensures Before(log, "") == log
  {
    if log != [] { BeforeAll(log[1..]); }
  }

  /** The last position of every turn. */
  method CompletedTurnIndexById(turns: seq<Entry>) returns (index: map<TurnId, nat>)
    ensures forall id :: IndexOf(turns, id) == if id in index then Some(index[id]) else None
  {
    index := map[];
    for k := 0 to |turns|
      invariant forall id :: IndexOf(turns[..k], id) == if id in index then Some(index[id]) else None
    {
      assert turns[..k + 1][..k] == turns[..k];
      if turns[k].turn != "" { index := index[turns[k].turn := k]; }
    }
    assert turns[..|turns|] == turns;
  }

  method ConsecutiveCompletedBefore(log: seq<Event>, current: int, limit: int, index: map<TurnId, nat>,
                                    ghost turns: seq<Entry>) returns (count: nat)
    requires forall id :: IndexOf(turns, id) == if id in index then Some(index[id]) else None
    ensures count == Consecutive(log, current - 1, limit, turns)
  {
    var expected := current - 1;
    count := 0;
    var i := |log|;
    assert log[..i] == log;
    while i > 0
      invariant 0 <= i <= |log|
      invariant Consecutive(log, current - 1, limit, turns) == count + Consecutive(log[..i], expected, limit, turns)
    {
      i := i - 1;
      assert log[..i + 1][..i] == log[..i];
      var e := log[i];
      if e.Completed? && e.compaction.auto && !(e.compaction.source < limit) {
        assert IndexOf(turns, e.turn) == if e.turn in index then Some(index[e.turn]) else None;
        if e.turn !in index || index[e.turn] != expected { return; }
        count := count + 1;
        expected := expected - 1;
      }
    }
  }

  method PreviousTurnDeferred(log: seq<Event>, current: int, index: map<TurnId, nat>, ghost turns: seq<Entry>)
    returns (stuck: bool)
    requires forall id :: IndexOf(turns, id) == if id in index then Some(index[id]) else None
    ensures stuck == DeferredAt(log, current - 1, turns)
  {
    var previous := current - 1;
    if previous < 0 { return false; }
    var i := |log|;
    assert log[..i] == log;
    while i > 0
      invariant 0 <= i <= |log|
      invariant DeferredAt(log, previous, turns) == DeferredAt(log[..i], previous, turns)
    {
      i := i - 1;
      assert log[..i + 1][..i] == log[..i];
      var e := log[i];
      if e.Deferred? && e.compaction.auto && e.compaction.stuck {
        assert IndexOf(turns, e.turn) == if e.turn in index then Some(index[e.turn]) else None;
        return e.turn in index && index[e.turn] == previous;
      }
    }
    return false;
  }

  method ContextCompactionStuckGuard(p: Policy, log: seq<Event>, turn: TurnId, auto: bool, source: int)
    returns (deferred: bool)
    ensures deferred == Stuck(p, log, turn, auto, source)
  {
    if !auto { return false; }
    var limit := AutoLimit(p);
    if limit <= 0 || source < limit { return false; }
    var turns := CompletedTurns(log, "");
    BeforeAll(log);
    var index := CompletedTurnIndexById(turns);
    assert IndexOf(turns, turn) == if turn in index then Some(index[turn]) else None;
    if turn !in index { return false; }
    var count := ConsecutiveCompletedBefore(log, index[turn], limit, index, turns);
    var previous := PreviousTurnDeferred(log, index[turn], index, turns);
    return !(count < 2 && !previous);
  }

  /** What the outside world does to a compaction that has started. */
  datatype Fate = ProviderFailed | Answered(text: string) | AnswerNotStored(text: string)

  /** Who has the session's active slot: nobody or a turn, or a compaction that started. */
  datatype Slot = Open | Compacting(turn: TurnId, started: Compaction)

  /** The events of one session under a fixed policy. No mutex is held over a compaction:
      its loads and appends are separate steps between which workers may write. */
  class Session {
    const policy: Policy
    var log: seq<Event>
    var slot: Slot

    ghost predicate Valid()
      reads this
    {
      && Legal(policy, log)
      && (slot.Compacting? ==> slot.started.summary == "" && LastSettled(log) == Some(Started(slot.turn, slot.started)))
    }

    constructor (policy: Policy)
      ensures Valid() && log == [] && slot == Open && this.policy == policy
    {
      this.policy := policy;
      log, slot := [], Open;
    }

    /** Any event of a turn, which has the slot; a final message has visible text. */
    method AppendTurnEvent(e: Event)
      requires Valid() && slot == Open && !e.Started? && !e.Completed? && !e.Failed? && !e.Deferred?
      requires e.Final? ==> Trim(e.text) != ""
      modifies this`log
      ensures Valid() && log == old(log) + [e]
    {
      Append(e);
    }

    /** A worker's tool event, at any time. */
    method AppendWorkerEvent(e: Event)
      requires Valid() && Tool(e)
      modifies this`log
      ensures Valid() && log == old(log) + [e]
    {
      LegalAppend(policy, log, e);
      SettledAppend(log, e);
      log := log + [e];
    }

    method Append(e: Event)
      requires Legal(policy, log) && Allowed(policy, log, e) && slot == Open
      modifies this`log
      ensures Valid() && log == old(log) + [e]
    {
      LegalAppend(policy, log, e);
      log := log + [e];
    }

    /** The first part of a compaction, decided on the events loaded a while ago: nothing
        when there is nothing to compact, a deferral by backoff or guard, or a start. */
    method StartCompaction(loaded: seq<Event>, turn: TurnId, auto: bool, source: int)
      requires Valid() && slot == Open && OnlyToolsSince(loaded, log) && Triggered(policy, loaded, turn, auto, source)
      modifies this
      ensures Valid()
      ensures var before := old(log);
              var blocked := Backoff(policy, before) || Stuck(policy, before, turn, auto, source);
              if Region(policy, before) == 0 then log == before && slot == Open
              else if blocked then
                slot == Open && log == before + [Deferred(turn, Compaction(auto, "", 0, source, !Backoff(policy, before), ""))]
              else
                var c := StartRecord(policy, before, auto, source);
                log == before + [Started(turn, c)] && slot == Compacting(turn, c)
    {
      DecisionsHold(policy, loaded, log, turn, auto, source);
      var through, eligible := History(loaded, "");
      BeforeAll(loaded);
      var acc := AccountingByTurn(loaded);
      var region := CompactionRegion(eligible, policy, acc);
      assert |region| == Region(policy, loaded);
      if |region| == 0 { return; }
      var backoff := ContextCompactionBackoff(policy, loaded);
      if backoff {
        Append(Deferred(turn, Compaction(auto, "", 0, source, false, "")));
        return;
      }
      var stuck := ContextCompactionStuckGuard(policy, loaded, turn, auto, source);
      if stuck {
        Append(Deferred(turn, Compaction(auto, "", 0, source, true, "")));
        return;
      }
      var started := Compaction(auto, region[|region| - 1].turn, |region|, source, false, "");
      assert started == StartRecord(policy, log, auto, source);
      Append(Started(turn, started));
      slot := Compacting(turn, started);
    }

    /** The second part, once the provider has answered: exactly one end. */
    method FinishCompaction(fate: Fate)
      requires Valid() && slot.Compacting?
      modifies this
      ensures Valid() && slot == Open
      ensures var turn, c := old(slot.turn), old(slot.started);
              log == old(log) + [if fate.Answered? && Trim(fate.text) != "" then Completed(turn, c.(summary := Trim(fate.text)))
                                 else Failed(turn, c)]
    {
      var Compacting(turn, started) := slot;
      slot := Open;
      if fate.Answered? && Trim(fate.text) != "" {
        Append(Completed(turn, started.(summary := Trim(fate.text))));
      } else {
        Append(Failed(turn, started));
      }
    }

    /** The process stops: the compaction in progress never ends. */
    method Restart()
      requires Valid()
      modifies this`slot
      ensures Valid() && slot == Open
    {
      slot := Open;
    }
  }

  lemma LegalAppend(p: Policy, log: seq<Event>, e: Event)
    requires Legal(p, log) && Allowed(p, log, e)
    ensures Legal(p, log + [e])
  {
    assert (log + [e])[..|log|] == log;
  }

  lemma SettledAppend(log: seq<Event>, e: Event)
    requires Tool(e)
    ensures LastSettled(log + [e]) == LastSettled(log)
  {
    assert (log + [e])[..|log|] == log;
  }
}
