/** What compaction keeps in every legal log: no entry of the completed-turn list is
    lost, distinct turns are compacted exactly once and in order, automatic compaction
    cannot run three turns in a row, and a failed manual compaction blocks all later
    ones. Worker tool events may stand anywhere. */
module CompactionTheorems {
  import opened Wrappers
  import opened Compaction

  lemma {:induction false} LegalPrefix(p: Policy, log: seq<Event>, n: nat)
    requires Legal(p, log) && n <= |log|
    ensures Legal(p, log[..n])
  {
    if n < |log| {
      LegalPrefix(p, log[..|log| - 1], n);
      assert log[..|log| - 1][..n] == log[..n];
    } else {
      assert log[..n] == log;
    }
  }

  lemma LegalAt(p: Policy, log: seq<Event>, j: nat)
    requires Legal(p, log) && j < |log|
    ensures Legal(p, log[..j]) && Allowed(p, log[..j], log[j])
  {
    LegalPrefix(p, log, j + 1);
    assert log[..j + 1][..j] == log[..j];
  }

  /** The turn list only ever grows at its end. */
  lemma {:induction false} TurnsGrow(log: seq<Event>, n: nat)
    requires n <= |log|
    ensures Turns(log[..n]) <= Turns(log)
  {
    if n < |log| {
      TurnsGrow(log[..|log| - 1], n);
      assert log[..|log| - 1][..n] == log[..n];
    } else {
      assert log[..n] == log;
    }
  }

  lemma TurnsBetween(log: seq<Event>, m: nat, n: nat)
    requires m <= n <= |log|
    ensures Turns(log[..m]) <= Turns(log[..n])
  {
    TurnsGrow(log[..n], m);
    assert log[..n][..m] == log[..m];
  }

  // ------------------------------------------------------------------ events that do not matter

  /** The two logs look the same to the turn list, the cut, the backoff and the region. */
  ghost predicate SameLook(a: seq<Event>, b: seq<Event>) {
    && Turns(a) == Turns(b) && LatestCompleted(a) == LatestCompleted(b)
    && LatestFailure(a) == LatestFailure(b) && Accounting(a) == Accounting(b)
  }

  /** Events between a start and its end: the start itself and tool events. */
  predicate Quiet(e: Event) { Tool(e) || e.Started? }

  lemma {:induction false} QuietKeepsLook(log: seq<Event>, m: nat, n: nat)
    requires m <= n <= |log| && forall k | m <= k < n :: Quiet(log[k])
    ensures SameLook(log[..m], log[..n])
  {
    if m < n {
      QuietKeepsLook(log, m, n - 1);
      assert log[..n][..n - 1] == log[..n - 1];
    }
  }

  lemma SameRegion(p: Policy, a: seq<Event>, b: seq<Event>)
    requires SameLook(a, b)
    ensures Through(a) == Through(b) && CutOf(a) == CutOf(b) && Region(p, a) == Region(p, b)
  {
  }

  /** Position of the last event before `n` that is no tool event, or -1. */
  ghost function SettledAt(log: seq<Event>, n: nat): (k: int)
    requires n <= |log|
    ensures -1 <= k < n && (k >= 0 ==> !Tool(log[k])) && forall m | k < m < n :: Tool(log[m])
  {
    if n > 0 && Tool(log[n - 1]) then SettledAt(log, n - 1) else n - 1
  }

  lemma {:induction false} LastSettledAt(log: seq<Event>, n: nat)
    requires n <= |log|
    ensures LastSettled(log[..n]) == if SettledAt(log, n) < 0 then None else Some(log[SettledAt(log, n)])
  {
    if n > 0 && Tool(log[n - 1]) {
      LastSettledAt(log, n - 1);
      assert log[..n][..n - 1] == log[..n - 1];
    }
  }

  // ------------------------------------------------------------------ a compaction that ended

  predicate Ends(e: Event) { e.Completed? || e.Failed? }

  /** The position of the start that belongs to the end at `j`. */
  ghost function StartAt(log: seq<Event>, j: nat): int
    requires j <= |log|
  {
    SettledAt(log, j)
  }

  lemma EndHasStart(p: Policy, log: seq<Event>, j: nat)
    requires Legal(p, log) && j < |log| && Ends(log[j])
    ensures 0 <= StartAt(log, j) < j
    ensures log[StartAt(log, j)].Started? && log[StartAt(log, j)].turn == log[j].turn
    ensures log[j].compaction == log[StartAt(log, j)].compaction.(summary := log[j].compaction.summary)
  {
    LegalAt(p, log, j);
    LastSettledAt(log, j);
  }

  lemma StartWasAllowed(p: Policy, log: seq<Event>, j: nat)
    requires Legal(p, log) && j < |log| && log[j].Started?
    ensures MayStart(p, log[..j], log[j].turn, log[j].compaction)
  {
    LegalAt(p, log, j);
  }

  /** Nothing the fold looks at happens between start and end. */
  lemma StartSawTheSame(p: Policy, log: seq<Event>, j: nat)
    requires Legal(p, log) && j < |log| && Ends(log[j])
    ensures 0 <= StartAt(log, j) < j && SameLook(log[..StartAt(log, j)], log[..j])
  {
    EndHasStart(p, log, j);
    QuietKeepsLook(log, StartAt(log, j), j);
  }

  lemma EndKeepsTurns(log: seq<Event>, j: nat)
    requires j < |log| && Ends(log[j])
    ensures Turns(log[..j + 1]) == Turns(log[..j])
    ensures log[j].Completed? ==> Through(log[..j + 1]) == log[j].compaction.through
  {
    assert log[..j + 1][..j] == log[..j];
  }

  /** What a completion compacted: the region its start found. */
  lemma CompletionRecord(p: Policy, log: seq<Event>, j: nat)
    requires Legal(p, log) && j < |log| && log[j].Completed?
    ensures 0 <= StartAt(log, j) < j
    ensures var at := log[..StartAt(log, j)];
            && Region(p, at) > 0 && CutOf(at) + Region(p, at) < |Turns(at)|
            && log[j].compaction.through == Turns(at)[CutOf(at) + Region(p, at) - 1].turn
  {
    EndHasStart(p, log, j);
    StartWasAllowed(p, log, StartAt(log, j));
  }

  /** The turn list and the cut around a completion, all in terms of its start. */
  lemma CompletionStep(p: Policy, log: seq<Event>, j: nat)
    requires Legal(p, log) && j < |log| && log[j].Completed?
    ensures 0 <= StartAt(log, j) < j
    ensures var at := log[..StartAt(log, j)];
            && Turns(log[..j]) == Turns(at) && Turns(log[..j + 1]) == Turns(at) && CutOf(log[..j]) == CutOf(at)
            && Region(p, at) > 0 && CutOf(at) + Region(p, at) < |Turns(at)|
            && Through(log[..j + 1]) == Turns(at)[CutOf(at) + Region(p, at) - 1].turn
  {
    StartSawTheSame(p, log, j);
    SameRegion(p, log[..StartAt(log, j)], log[..j]);
    EndKeepsTurns(log, j);
    CompletionRecord(p, log, j);
  }

  // ------------------------------------------------------------------ cuts

  lemma {:induction false} CutGrow(turns: seq<Entry>, more: seq<Entry>, id: TurnId)
    requires turns <= more && Cut(turns, id) > 0
    ensures Cut(more, id) == Cut(turns, id)
  {
    if |turns| < |more| { CutGrow(turns, more[..|more| - 1], id); } else { assert turns == more; }
  }

  /** The cut lies at or before every entry of the turn. */
  lemma {:induction false} CutAtMost(turns: seq<Entry>, k: nat)
    requires k < |turns| && turns[k].turn != ""
    ensures 0 < Cut(turns, turns[k].turn) <= k + 1
    ensures turns[Cut(turns, turns[k].turn) - 1].turn == turns[k].turn
  {
    if k < |turns| - 1 {
      CutAtMost(turns[..|turns| - 1], k);
    } else if Cut(turns[..|turns| - 1], turns[k].turn) > 0 {
      CutFound(turns[..|turns| - 1], turns[k].turn);
    }
  }

  lemma {:induction false} CutFound(turns: seq<Entry>, id: TurnId)
    requires Cut(turns, id) > 0
    ensures turns[Cut(turns, id) - 1].turn == id
  {
    if Cut(turns[..|turns| - 1], id) > 0 { CutFound(turns[..|turns| - 1], id); }
  }

  // ------------------------------------------------------------------ nothing is lost

  /** The completion at position `j` had entry `i` in its source region, which was fixed
      when it started. */
  ghost predicate Summarised(p: Policy, log: seq<Event>, j: nat, i: nat) {
    && j < |log| && log[j].Completed? && StartAt(log, j) >= 0
    && var at := log[..StartAt(log, j)];
       CutOf(at) <= i < CutOf(at) + Region(p, at)
  }

  ghost predicate AnySummary(p: Policy, log: seq<Event>, i: nat) {
    exists j: nat :: Summarised(p, log, j, i)
  }

  ghost predicate CutIsCovered(p: Policy, log: seq<Event>) {
    forall i: nat | i < CutOf(log) :: AnySummary(p, log, i)
  }

  ghost predicate ThroughKnown(log: seq<Event>) { Through(log) == "" || CutOf(log) > 0 }

  lemma {:induction false} SettledAtPrefix(log: seq<Event>, n: nat, j: nat)
    requires j <= n <= |log|
    ensures SettledAt(log[..n], j) == SettledAt(log, j)
  {
    if j > 0 && Tool(log[j - 1]) { SettledAtPrefix(log, n, j - 1); }
  }

  lemma SummaryKept(p: Policy, log: seq<Event>, n: nat, i: nat)
    requires n <= |log| && AnySummary(p, log[..n], i)
    ensures AnySummary(p, log, i)
  {
    var j: nat :| Summarised(p, log[..n], j, i);
    SettledAtPrefix(log, n, j);
    assert log[..n][..StartAt(log, j)] == log[..StartAt(log, j)];
    assert Summarised(p, log, j, i);
  }

  /** The compacted-through turn is the one at `last`; its first entry is no later. */
  lemma CutAfter(turns: seq<Entry>, last: nat)
    requires last < |turns|
    ensures Cut(turns, turns[last].turn) <= last + 1
    ensures turns[last].turn == "" || Cut(turns, turns[last].turn) > 0
  {
    if turns[last].turn != "" { CutAtMost(turns, last); }
  }

  lemma CompletionCovers(p: Policy, log: seq<Event>, j: nat)
    requires Legal(p, log) && j < |log| && log[j].Completed? && CutIsCovered(p, log[..j])
    ensures ThroughKnown(log[..j + 1])
    ensures forall i: nat | i < CutOf(log[..j + 1]) :: AnySummary(p, log, i)
  {
    CompletionStep(p, log, j);
    var at := log[..StartAt(log, j)];
    CutAfter(Turns(at), CutOf(at) + Region(p, at) - 1);
    forall i: nat | i < CutOf(log[..j + 1]) ensures AnySummary(p, log, i) {
      if i < CutOf(at) {
        SummaryKept(p, log, j, i);
      } else {
        assert Summarised(p, log, j, i);
      }
    }
  }

  /** Any other event leaves the cut where it is. */
  lemma OtherKeepsCut(log: seq<Event>)
    requires log != [] && !log[|log| - 1].Completed? && ThroughKnown(log[..|log| - 1])
    ensures ThroughKnown(log) && CutOf(log) == CutOf(log[..|log| - 1])
  {
    var before := log[..|log| - 1];
    TurnsGrow(log, |log| - 1);
    assert Through(log) == Through(before);
    if Through(log) != "" { CutGrow(Turns(before), Turns(log), Through(log)); }
  }

  lemma {:induction false} CutCovered(p: Policy, log: seq<Event>)
    requires Legal(p, log)
    ensures ThroughKnown(log) && CutIsCovered(p, log)
  {
    if log == [] { return; }
    var n := |log|;
    CutCovered(p, log[..n - 1]);
    if log[n - 1].Completed? {
      CompletionCovers(p, log, n - 1);
      assert log[..n] == log;
    } else {
      OtherKeepsCut(log);
      forall i: nat | i < CutOf(log) ensures AnySummary(p, log, i) { SummaryKept(p, log, n - 1, i); }
    }
  }

  lemma {:induction false} BeforeIsPrefix(log: seq<Event>, turn: TurnId)
    ensures Before(log, turn) == log[..|Before(log, turn)|]
  {
  }

  lemma InTail(turns: seq<Entry>, cut: nat, i: nat)
    requires cut <= i < |turns|
    ensures turns[i] in turns[cut..]
  {
    assert turns[cut..][i - cut] == turns[i];
  }

  lemma VerbatimOrSummarised(p: Policy, log: seq<Event>, i: nat)
    requires Legal(p, log) && i < |Turns(log)|
    ensures (i >= CutOf(log) && Turns(log)[i] in Verbatim(log)) || AnySummary(p, log, i)
  {
    CutCovered(p, log);
    if i >= CutOf(log) {
      InTail(Turns(log), CutOf(log), i);
    } else {
      assert AnySummary(p, log, i);
    }
  }

  /** In every legal log, whatever turn the history is prepared for, every entry of the
      completed-turn list stays verbatim or was in the source region of a completed
      compaction. Turn ids may repeat, and workers may run throughout. */
  lemma NothingLost(p: Policy, log: seq<Event>, turn: TurnId, i: nat)
    requires Legal(p, log) && i < |Turns(Before(log, turn))|
    ensures var seen := Before(log, turn);
            (i >= CutOf(seen) && Turns(seen)[i] in Verbatim(seen)) || AnySummary(p, seen, i)
  {
    BeforeIsPrefix(log, turn);
    LegalPrefix(p, log, |Before(log, turn)|);
    VerbatimOrSummarised(p, Before(log, turn), i);
  }

  // ------------------------------------------------------------------ distinct turns

  ghost predicate DistinctTurns(turns: seq<Entry>) {
    && (forall i | 0 <= i < |turns| :: turns[i].turn != "")
    && (forall i, j | 0 <= i < j < |turns| :: turns[i].turn != turns[j].turn)
  }

  lemma CutOfDistinct(turns: seq<Entry>, k: nat)
    requires DistinctTurns(turns) && k < |turns|
    ensures Cut(turns, turns[k].turn) == k + 1
  {
    CutAtMost(turns, k);
  }

  /** Each completion strictly raises the compacted-through position, to the end of its
      region. */
  lemma CompletionRaisesCut(p: Policy, log: seq<Event>, j: nat)
    requires Legal(p, log) && j < |log| && log[j].Completed? && DistinctTurns(Turns(log))
    ensures 0 <= StartAt(log, j) < j && CutOf(log[..j]) == CutOf(log[..StartAt(log, j)])
    ensures var at := log[..StartAt(log, j)]; CutOf(log[..j + 1]) == CutOf(at) + Region(p, at) > CutOf(log[..j])
  {
    CompletionStep(p, log, j);
    var at := log[..StartAt(log, j)];
    TurnsGrow(log, StartAt(log, j));
    CutOfDistinct(Turns(at), CutOf(at) + Region(p, at) - 1);
  }

  lemma StepRaisesCut(p: Policy, log: seq<Event>, j: nat)
    requires Legal(p, log) && j < |log| && DistinctTurns(Turns(log))
    ensures CutOf(log[..j]) <= CutOf(log[..j + 1])
  {
    if log[j].Completed? {
      CompletionRaisesCut(p, log, j);
    } else {
      LegalPrefix(p, log, j);
      CutCovered(p, log[..j]);
      assert log[..j + 1][..j] == log[..j];
      OtherKeepsCut(log[..j + 1]);
    }
  }

  lemma {:induction false} CutBetween(p: Policy, log: seq<Event>, a: nat, b: nat)
    requires Legal(p, log) && a <= b <= |log| && DistinctTurns(Turns(log))
    ensures CutOf(log[..a]) <= CutOf(log[..b])
  {
    if a < b {
      CutBetween(p, log, a, b - 1);
      StepRaisesCut(p, log, b - 1);
    }
  }

  lemma SummarisedHere(p: Policy, log: seq<Event>, j: nat, i: nat)
    requires Legal(p, log) && DistinctTurns(Turns(log)) && Summarised(p, log, j, i)
    ensures i < CutOf(log[..j + 1])
  {
    CompletionRaisesCut(p, log, j);
  }

  lemma SummarisedBelowCut(p: Policy, log: seq<Event>, j: nat, i: nat)
    requires Legal(p, log) && DistinctTurns(Turns(log)) && Summarised(p, log, j, i)
    ensures i < CutOf(log[..j + 1]) <= CutOf(log)
  {
    SummarisedHere(p, log, j, i);
    CutBetween(p, log, j + 1, |log|);
    assert log[..|log|] == log;
  }

  /** A later completion starts above the cut of an earlier one. */
  lemma LaterAbove(p: Policy, log: seq<Event>, j: nat, k: nat)
    requires Legal(p, log) && DistinctTurns(Turns(log)) && j < k < |log| && log[k].Completed?
    ensures 0 <= StartAt(log, k) && CutOf(log[..j + 1]) <= CutOf(log[..StartAt(log, k)])
  {
    CompletionRaisesCut(p, log, k);
    CutBetween(p, log, j + 1, k);
  }

  lemma NotLaterAgain(p: Policy, log: seq<Event>, j: nat, k: nat, i: nat)
    requires Legal(p, log) && DistinctTurns(Turns(log)) && Summarised(p, log, j, i) && j < k < |log| && log[k].Completed?
    ensures !Summarised(p, log, k, i)
  {
    SummarisedHere(p, log, j, i);
    LaterAbove(p, log, j, k);
  }

  lemma SummarisedOnce(p: Policy, log: seq<Event>, j: nat, k: nat, i: nat)
    requires Legal(p, log) && DistinctTurns(Turns(log)) && Summarised(p, log, j, i) && Summarised(p, log, k, i)
    ensures j == k
  {
    if j < k { NotLaterAgain(p, log, j, k, i); }
    if k < j { NotLaterAgain(p, log, k, j, i); }
  }

  /** With distinct turns an entry is no longer verbatim exactly when it was in the
      region of a completed compaction, and then of one only. */
  lemma CompactedExactlyOnce(p: Policy, log: seq<Event>, i: nat)
    requires Legal(p, log) && DistinctTurns(Turns(log))
    ensures i < CutOf(log) <==> AnySummary(p, log, i)
    ensures forall j: nat, k: nat | Summarised(p, log, j, i) && Summarised(p, log, k, i) :: j == k
  {
    CutCovered(p, log);
    if AnySummary(p, log, i) {
      var j: nat :| Summarised(p, log, j, i);
      SummarisedBelowCut(p, log, j, i);
    }
    forall j: nat, k: nat | Summarised(p, log, j, i) && Summarised(p, log, k, i) ensures j == k {
      SummarisedOnce(p, log, j, k, i);
    }
  }

  // ------------------------------------------------------------------ three in a row

  /** A final message always adds an entry, because it has visible text. */
  lemma FinalAddsEntry(p: Policy, log: seq<Event>, k: nat)
    requires Legal(p, log) && k < |log| && log[k].Final?
    ensures |Turns(log[..k + 1])| == |Turns(log[..k])| + 1
    ensures Turns(log[..k + 1])[|Turns(log[..k])|].turn == log[k].turn
  {
    LegalAt(p, log, k);
    assert log[..k + 1][..k] == log[..k];
  }

  /** Position of the final message that triggered the automatic compaction that ended
      at `j`. */
  ghost function FinalAt(log: seq<Event>, j: nat): int
    requires j <= |log|
  {
    if StartAt(log, j) < 0 then -1 else SettledAt(log, StartAt(log, j))
  }

  ghost predicate AutoEnd(e: Event) { Ends(e) && e.compaction.auto }

  lemma AutoHasFinal(p: Policy, log: seq<Event>, j: nat)
    requires Legal(p, log) && j < |log| && AutoEnd(log[j])
    ensures 0 <= FinalAt(log, j) < StartAt(log, j) < j && log[StartAt(log, j)].Started?
    ensures log[FinalAt(log, j)].Final? && log[FinalAt(log, j)].turn == log[j].turn
    ensures AutoLimit(p) > 0 && log[j].compaction.source >= AutoLimit(p)
  {
    EndHasStart(p, log, j);
    var s := StartAt(log, j);
    StartWasAllowed(p, log, s);
    LastSettledAt(log, s);
  }

  lemma AutoPassedGuard(p: Policy, log: seq<Event>, j: nat)
    requires Legal(p, log) && j < |log| && AutoEnd(log[j])
    ensures 0 <= StartAt(log, j) && !Stuck(p, log[..StartAt(log, j)], log[j].turn, true, log[j].compaction.source)
  {
    EndHasStart(p, log, j);
    StartWasAllowed(p, log, StartAt(log, j));
  }

  /** An automatic compaction that ended was triggered by the entry that was the newest
      from its final message to its end. */
  lemma AutoTrigger(p: Policy, log: seq<Event>, j: nat)
    requires Legal(p, log) && j < |log| && AutoEnd(log[j])
    ensures 0 <= FinalAt(log, j) < StartAt(log, j) < j
    ensures var turns := Turns(log[..StartAt(log, j)]);
            && |turns| == |Turns(log[..FinalAt(log, j)])| + 1 && turns[|turns| - 1].turn == log[j].turn
            && Turns(log[..j + 1]) == turns
  {
    AutoHasFinal(p, log, j);
    var f, s := FinalAt(log, j), StartAt(log, j);
    FinalAddsEntry(p, log, f);
    QuietKeepsLook(log, f + 1, s);
    StartSawTheSame(p, log, j);
    EndKeepsTurns(log, j);
  }

  /** Position in the final turn list of the entry that triggered completion `j`. */
  ghost predicate AutoAt(log: seq<Event>, j: nat, i: nat) {
    && j < |log| && log[j].Completed? && log[j].compaction.auto
    && i < |Turns(log)| && Turns(log)[i].turn == log[j].turn
  }

  /** The triggering entry was the newest when the compaction started and when it ended. */
  lemma AutoAtCounts(p: Policy, log: seq<Event>, j: nat, i: nat)
    requires Legal(p, log) && DistinctTurns(Turns(log)) && AutoAt(log, j, i)
    ensures 0 <= StartAt(log, j) < j && |Turns(log[..StartAt(log, j)])| == i + 1 == |Turns(log[..j + 1])|
  {
    AutoTrigger(p, log, j);
    TurnsGrow(log, StartAt(log, j));
  }

  lemma AutoAtFinal(p: Policy, log: seq<Event>, j: nat, i: nat)
    requires Legal(p, log) && DistinctTurns(Turns(log)) && AutoAt(log, j, i)
    ensures 0 <= FinalAt(log, j) < j && |Turns(log[..FinalAt(log, j)])| == i
  {
    AutoTrigger(p, log, j);
    AutoAtCounts(p, log, j, i);
  }

  /** Only tool events, and the start, stand between final message and end. */
  lemma NothingInside(p: Policy, log: seq<Event>, j: nat, k: nat)
    requires Legal(p, log) && k < |log| && AutoEnd(log[k]) && j < k && Ends(log[j])
    ensures j < FinalAt(log, k)
  {
    AutoHasFinal(p, log, k);
  }

  lemma LaterIsNewer(p: Policy, log: seq<Event>, j: nat, i: nat, k: nat, m: nat)
    requires Legal(p, log) && DistinctTurns(Turns(log)) && AutoAt(log, j, i) && AutoAt(log, k, m) && j < k
    ensures i < m
  {
    AutoAtCounts(p, log, j, i);
    AutoAtFinal(p, log, k, m);
    EndedBefore(p, log, j, k);
  }

  lemma EndedBefore(p: Policy, log: seq<Event>, j: nat, k: nat)
    requires Legal(p, log) && k < |log| && AutoEnd(log[k]) && j < k && Ends(log[j])
    ensures 0 <= FinalAt(log, k) < k && |Turns(log[..j + 1])| <= |Turns(log[..FinalAt(log, k)])|
  {
    AutoHasFinal(p, log, k);
    NothingInside(p, log, j, k);
    TurnsBetween(log, j + 1, FinalAt(log, k));
  }

  lemma AutoOrder(p: Policy, log: seq<Event>, j: nat, i: nat, k: nat, m: nat)
    requires Legal(p, log) && DistinctTurns(Turns(log)) && AutoAt(log, j, i) && AutoAt(log, k, m)
    ensures j < k <==> i < m
  {
    if j < k {
      LaterIsNewer(p, log, j, i, k, m);
    } else if k < j {
      LaterIsNewer(p, log, k, m, j, i);
    }
  }

  lemma {:induction false} IndexOfDistinct(turns: seq<Entry>, i: nat)
    requires DistinctTurns(turns) && i < |turns|
    ensures IndexOf(turns, turns[i].turn) == Some(i)
  {
    if i < |turns| - 1 {
      assert DistinctTurns(turns[..|turns| - 1]);
      IndexOfDistinct(turns[..|turns| - 1], i);
    }
  }

  /** Events that are no automatic completions do not matter to the backward walk. */
  lemma {:induction false} ConsecutiveSkips(log: seq<Event>, a: nat, b: nat, expected: int, limit: int, turns: seq<Entry>)
    requires a <= b <= |log| && forall k | a <= k < b :: !AutoCompletion(log[k], limit)
    ensures Consecutive(log[..b], expected, limit, turns) == Consecutive(log[..a], expected, limit, turns)
  {
    if a < b {
      ConsecutiveSkips(log, a, b - 1, expected, limit, turns);
      assert log[..b][..b - 1] == log[..b - 1];
    }
  }

  lemma ConsecutiveCounts(log: seq<Event>, j: nat, b: nat, expected: nat, limit: int, turns: seq<Entry>)
    requires j < b <= |log| && AutoCompletion(log[j], limit) && IndexOf(turns, log[j].turn) == Some(expected)
    requires forall k | j < k < b :: !AutoCompletion(log[k], limit)
    ensures Consecutive(log[..b], expected, limit, turns) == 1 + Consecutive(log[..j], expected - 1, limit, turns)
  {
    ConsecutiveSkips(log, j + 1, b, expected, limit, turns);
    assert log[..j + 1][..j] == log[..j];
  }

  lemma Triggerer(p: Policy, log: seq<Event>, m: nat) returns (h: nat)
    requires Legal(p, log) && m < |log| && AutoCompletion(log[m], AutoLimit(p))
    ensures AutoAt(log, m, h) && |Turns(log[..m + 1])| == h + 1
  {
    AutoTrigger(p, log, m);
    TurnsGrow(log, StartAt(log, m));
    h := |Turns(log[..m + 1])| - 1;
  }

  /** Between the completions of two neighbouring entries there is no other one. */
  lemma NoneBetween(p: Policy, log: seq<Event>, j: nat, k: nat, i: nat, m: nat)
    requires Legal(p, log) && DistinctTurns(Turns(log)) && AutoAt(log, j, i) && AutoAt(log, k, i + 1) && j < m < k
    ensures !AutoCompletion(log[m], AutoLimit(p))
  {
    if AutoCompletion(log[m], AutoLimit(p)) {
      var h := Triggerer(p, log, m);
      AutoOrder(p, log, j, i, m, h);
      AutoOrder(p, log, m, h, k, i + 1);
    }
  }

  /** The log ends, tool events aside, in a final message. */
  ghost predicate FinalLast(log: seq<Event>) {
    var f := SettledAt(log, |log|);
    f >= 0 && log[f].Final?
  }

  /** After a final message no completion has been triggered by its entry yet. */
  lemma NoneAfter(p: Policy, log: seq<Event>, j: nat, i: nat, m: nat)
    requires Legal(p, log) && DistinctTurns(Turns(log)) && FinalLast(log)
    requires AutoAt(log, j, i) && i + 2 == |Turns(log)| && j < m < |log|
    ensures !AutoCompletion(log[m], AutoLimit(p))
  {
    var f := SettledAt(log, |log|);
    if m < f && AutoCompletion(log[m], AutoLimit(p)) {
      TurnsBeforeFinal(p, log, m);
      var h := Triggerer(p, log, m);
      AutoOrder(p, log, j, i, m, h);
    }
  }

  lemma TurnsBeforeFinal(p: Policy, log: seq<Event>, m: nat)
    requires Legal(p, log) && FinalLast(log) && m < SettledAt(log, |log|)
    ensures |Turns(log[..m + 1])| < |Turns(log)|
  {
    var f := SettledAt(log, |log|);
    QuietKeepsLook(log, f + 1, |log|);
    assert log[..|log|] == log;
    FinalAddsEntry(p, log, f);
    TurnsBetween(log, m + 1, f);
  }

  lemma NewestIsFinal(p: Policy, log: seq<Event>)
    requires Legal(p, log) && FinalLast(log)
    ensures Turns(log) != [] && Turns(log)[|Turns(log)| - 1].turn == log[SettledAt(log, |log|)].turn
  {
    var f := SettledAt(log, |log|);
    QuietKeepsLook(log, f + 1, |log|);
    assert log[..|log|] == log;
    FinalAddsEntry(p, log, f);
  }

  lemma CountsTwo(p: Policy, log: seq<Event>, i: nat, j0: nat, j1: nat)
    requires Legal(p, log) && DistinctTurns(Turns(log)) && FinalLast(log)
    requires AutoAt(log, j0, i) && AutoAt(log, j1, i + 1) && i + 3 == |Turns(log)|
    ensures Consecutive(log, i + 1, AutoLimit(p), Turns(log)) >= 2
  {
    var limit, turns := AutoLimit(p), Turns(log);
    AutoOrder(p, log, j0, i, j1, i + 1);
    AutoHasFinal(p, log, j0);
    AutoHasFinal(p, log, j1);
    IndexOfDistinct(turns, i);
    IndexOfDistinct(turns, i + 1);
    forall m | j1 < m < |log| ensures !AutoCompletion(log[m], limit) { NoneAfter(p, log, j1, i + 1, m); }
    forall m | j0 < m < j1 ensures !AutoCompletion(log[m], limit) { NoneBetween(p, log, j0, j1, i, m); }
    ConsecutiveCounts(log, j1, |log|, i + 1, limit, turns);
    ConsecutiveCounts(log, j0, j1, i, limit, turns);
    assert log[..|log|] == log;
  }

  /** After two neighbouring entries with completed automatic compactions, the guard
      stops the one that the next entry asks for. */
  lemma TwoBeforeIsStuck(p: Policy, log: seq<Event>, i: nat, j0: nat, j1: nat, source: int)
    requires Legal(p, log) && DistinctTurns(Turns(log)) && FinalLast(log)
    requires AutoAt(log, j0, i) && AutoAt(log, j1, i + 1) && i + 3 == |Turns(log)|
    requires source >= AutoLimit(p)
    ensures Stuck(p, log, log[SettledAt(log, |log|)].turn, true, source)
  {
    AutoHasFinal(p, log, j0);
    NewestIsFinal(p, log);
    IndexOfDistinct(Turns(log), i + 2);
    CountsTwo(p, log, i, j0, j1);
  }

  /** The log in which the guard let completion `j` pass. */
  lemma TriggerState(p: Policy, log: seq<Event>, j: nat, i: nat)
    requires Legal(p, log) && DistinctTurns(Turns(log)) && AutoAt(log, j, i)
    ensures 0 <= FinalAt(log, j) < StartAt(log, j) < j
    ensures var at := log[..StartAt(log, j)];
            && Legal(p, at) && DistinctTurns(Turns(at)) && |Turns(at)| == i + 1
            && FinalLast(at) && at[SettledAt(at, |at|)].turn == log[j].turn
    ensures log[j].compaction.source >= AutoLimit(p)
  {
    AutoAtCounts(p, log, j, i);
    AutoHasFinal(p, log, j);
    var s := StartAt(log, j);
    LegalPrefix(p, log, s);
    TurnsGrow(log, s);
    SettledAtPrefix(log, s, s);
  }

  lemma AutoAtBefore(log: seq<Event>, j: nat, i: nat, n: nat)
    requires AutoAt(log, j, i) && j < n <= |log| && i < |Turns(log[..n])|
    ensures AutoAt(log[..n], j, i)
  {
    TurnsGrow(log, n);
  }

  /** The same at an earlier point of a longer log. */
  lemma StuckAt(p: Policy, log: seq<Event>, i: nat, j0: nat, j1: nat, n: nat, source: int)
    requires AutoAt(log, j0, i) && AutoAt(log, j1, i + 1) && j0 < n && j1 < n <= |log| && source >= AutoLimit(p)
    requires Legal(p, log[..n]) && DistinctTurns(Turns(log[..n])) && FinalLast(log[..n]) && |Turns(log[..n])| == i + 3
    ensures Stuck(p, log[..n], log[..n][SettledAt(log[..n], n)].turn, true, source)
  {
    AutoAtBefore(log, j0, i, n);
    AutoAtBefore(log, j1, i + 1, n);
    TwoBeforeIsStuck(p, log[..n], i, j0, j1, source);
  }

  lemma ThirdIsStuck(p: Policy, log: seq<Event>, i: nat, j0: nat, j1: nat, n: nat, j2: nat, source: int)
    requires Legal(p, log) && AutoAt(log, j0, i) && AutoAt(log, j1, i + 1) && source >= AutoLimit(p)
    requires j0 < j1 < j2 < |log| && Ends(log[j1]) && AutoEnd(log[j2]) && n == StartAt(log, j2)
    requires Legal(p, log[..n]) && DistinctTurns(Turns(log[..n])) && FinalLast(log[..n]) && |Turns(log[..n])| == i + 3
    ensures Stuck(p, log[..n], log[..n][SettledAt(log[..n], n)].turn, true, source)
  {
    NothingInside(p, log, j1, j2);
    AutoHasFinal(p, log, j2);
    StuckAt(p, log, i, j0, j1, n, source);
  }

  /** No three neighbouring entries of the turn list all trigger a completed automatic
      compaction. */
  lemma NeverThreeInARow(p: Policy, log: seq<Event>, i: nat, j0: nat, j1: nat, j2: nat)
    requires Legal(p, log) && DistinctTurns(Turns(log))
    ensures !(AutoAt(log, j0, i) && AutoAt(log, j1, i + 1) && AutoAt(log, j2, i + 2))
  {
    if AutoAt(log, j0, i) && AutoAt(log, j1, i + 1) && AutoAt(log, j2, i + 2) {
      AutoOrder(p, log, j1, i + 1, j2, i + 2);
      AutoOrder(p, log, j0, i, j1, i + 1);
      TriggerState(p, log, j2, i + 2);
      ThirdIsStuck(p, log, i, j0, j1, StartAt(log, j2), j2, log[j2].compaction.source);
      AutoPassedGuard(p, log, j2);
    }
  }

  // ------------------------------------------------------------------ deciding on an older log

  /** Nothing but tool events was appended since `loaded` was read. */
  ghost predicate OnlyToolsSince(loaded: seq<Event>, log: seq<Event>) {
    loaded <= log && forall k | |loaded| <= k < |log| :: Tool(log[k])
  }

  lemma {:induction false} SameSettled(log: seq<Event>, m: nat)
    requires m <= |log| && forall k | m <= k < |log| :: Tool(log[k])
    ensures Settled(log) == Settled(log[..m])
  {
    if m < |log| {
      SameSettled(log[..|log| - 1], m);
      assert log[..|log| - 1][..m] == log[..m];
    } else {
      assert log[..m] == log;
    }
  }

  lemma {:induction false} DeferredSkips(log: seq<Event>, a: nat, b: nat, previous: int, turns: seq<Entry>)
    requires a <= b <= |log| && forall k | a <= k < b :: !StuckDeferral(log[k])
    ensures DeferredAt(log[..b], previous, turns) == DeferredAt(log[..a], previous, turns)
  {
    if a < b {
      DeferredSkips(log, a, b - 1, previous, turns);
      assert log[..b][..b - 1] == log[..b - 1];
    }
  }

  lemma SameStuck(p: Policy, loaded: seq<Event>, log: seq<Event>, turn: TurnId, auto: bool, source: int)
    requires OnlyToolsSince(loaded, log) && Turns(loaded) == Turns(log)
    ensures Stuck(p, loaded, turn, auto, source) == Stuck(p, log, turn, auto, source)
  {
    assert log[..|loaded|] == loaded && log[..|log|] == log;
    var i := IndexOf(Turns(log), turn);
    if i.Some? {
      ConsecutiveSkips(log, |loaded|, |log|, i.value - 1, AutoLimit(p), Turns(log));
      DeferredSkips(log, |loaded|, |log|, i.value - 1, Turns(log));
    }
  }

  /** The kernel decides on the events it loaded; tool events that arrive meanwhile would
      not have changed the decision. */
  lemma DecisionsHold(p: Policy, loaded: seq<Event>, log: seq<Event>, turn: TurnId, auto: bool, source: int)
    requires OnlyToolsSince(loaded, log)
    ensures Turns(loaded) == Turns(log) && CutOf(loaded) == CutOf(log) && Region(p, loaded) == Region(p, log)
    ensures Backoff(p, loaded) == Backoff(p, log)
    ensures Stuck(p, loaded, turn, auto, source) == Stuck(p, log, turn, auto, source)
    ensures Triggered(p, loaded, turn, auto, source) == Triggered(p, log, turn, auto, source)
  {
    assert log[..|loaded|] == loaded && log[..|log|] == log;
    QuietKeepsLook(log, |loaded|, |log|);
    SameRegion(p, loaded, log);
    SameSettled(log, |loaded|);
    SameStuck(p, loaded, log, turn, auto, source);
  }

  // ------------------------------------------------------------------ backoff

  /** An end belongs to a start, which comes after everything that is no tool event. */
  lemma EndAfter(p: Policy, log: seq<Event>, i: nat, j: nat)
    requires Legal(p, log) && i < j < |log| && Ends(log[j]) && Ends(log[i])
    ensures i < StartAt(log, j) && log[StartAt(log, j)].Started?
  {
    EndHasStart(p, log, j);
  }

  /** A manual compaction names no turn, so the backoff after its failure never counts a
      completed turn: with a backoff configured, no compaction of the session ever starts
      again. */
  lemma {:induction false} ManualFailureIsFinal(p: Policy, log: seq<Event>, i: nat)
    requires Legal(p, log) && p.backoffTurns > 0 && i < |log| && log[i].Failed? && log[i].turn == ""
    ensures LatestFailure(log) == Some("") && forall j | i < j < |log| :: !log[j].Started?
  {
    var n := |log|;
    if i < n - 1 {
      ManualFailureIsFinal(p, log[..n - 1], i);
      if Ends(log[n - 1]) { EndAfter(p, log, i, n - 1); }
      assert !log[n - 1].Started? by { if log[n - 1].Started? { NoStartInBackoff(p, log); } }
    }
  }

  lemma NoStartInBackoff(p: Policy, log: seq<Event>)
    requires log != [] && Legal(p, log) && p.backoffTurns > 0 && LatestFailure(log[..|log| - 1]) == Some("")
    ensures !log[|log| - 1].Started?
  {
  }

  /** The turn of an automatic failure has an entry. */
  lemma FailureListed(p: Policy, log: seq<Event>, j: nat)
    requires Legal(p, log) && j < |log| && log[j].Failed? && log[j].turn != ""
    ensures Cut(Turns(log[..j + 1]), log[j].turn) > 0
  {
    FailureIsAuto(p, log, j);
    AutoTrigger(p, log, j);
    var turns := Turns(log[..j + 1]);
    CutAtMost(turns, |turns| - 1);
  }

  lemma FailureIsAuto(p: Policy, log: seq<Event>, j: nat)
    requires Legal(p, log) && j < |log| && log[j].Failed? && log[j].turn != ""
    ensures log[j].compaction.auto
  {
    EndHasStart(p, log, j);
    StartWasAllowed(p, log, StartAt(log, j));
  }

  lemma {:induction false} FailedTurnListed(p: Policy, log: seq<Event>, turn: TurnId)
    requires Legal(p, log) && LatestFailure(log) == Some(turn) && turn != ""
    ensures Cut(Turns(log), turn) > 0
  {
    var n := |log|;
    if log[n - 1].Failed? {
      FailureListed(p, log, n - 1);
      assert log[..n] == log;
    } else {
      FailedTurnListed(p, log[..n - 1], turn);
      TurnsGrow(log, n - 1);
      CutGrow(Turns(log[..n - 1]), Turns(log), turn);
    }
  }

  /** After an automatic failure the backoff ends, exactly when more than `backoffTurns`
      entries follow the first entry of the failed turn; after a manual one it never
      does. */
  lemma BackoffOver(p: Policy, log: seq<Event>, turn: TurnId)
    requires Legal(p, log) && LatestFailure(log) == Some(turn) && p.backoffTurns > 0
    ensures turn != "" ==> Cut(Turns(log), turn) > 0
    ensures !Backoff(p, log) <==> turn != "" && |Turns(log)| - Cut(Turns(log), turn) > p.backoffTurns
  {
    if turn != "" { FailedTurnListed(p, log, turn); }
  }
}
