/** Legal logs that reach the limits of context compaction: a compaction that keeps fewer
    turns than the floor, and a failed manual compaction. */
module CompactionExamples {
  import opened Wrappers
  import opened Compaction
  import opened CompactionTheorems

  lemma LegalStep(p: Policy, log: seq<Event>, e: Event)
    requires Legal(p, log) && Allowed(p, log, e)
    ensures Legal(p, log + [e]) && FoldAll(log + [e]) == Fold(FoldAll(log), e)
    ensures LatestCompleted(log + [e]) == if e.Completed? then Some(e.compaction) else LatestCompleted(log)
    ensures LatestFailure(log + [e]) ==
            if e.Completed? then None else if e.Failed? then Some(e.turn) else LatestFailure(log)
    ensures Accounting(log + [e]) == if e.Accounted? then Accounting(log)[e.turn := e.tokens] else Accounting(log)
  {
    assert (log + [e])[..|log|] == log;
  }

  /** What the examples look at in a log. */
  ghost predicate Shows(p: Policy, log: seq<Event>, ids: seq<TurnId>, acc: map<TurnId, int>) {
    && Legal(p, log) && LatestCompleted(log) == None && LatestFailure(log) == None && Accounting(log) == acc
    && |Turns(log)| == |ids| && forall i | 0 <= i < |ids| :: Turns(log)[i].turn == ids[i]
  }

  lemma ShowsNothing(p: Policy)
    ensures Shows(p, [], [], map[])
  {
  }

  lemma AddTurn(p: Policy, log: seq<Event>, ids: seq<TurnId>, acc: map<TurnId, int>, t: TurnId)
    requires Shows(p, log, ids, acc)
    ensures Shows(p, log + [Final(t, "x", None)], ids + [t], acc)
  {
    assert Trim("x") == "x";
    LegalStep(p, log, Final(t, "x", None));
  }

  lemma AddAccounting(p: Policy, log: seq<Event>, ids: seq<TurnId>, acc: map<TurnId, int>, t: TurnId, n: int)
    requires Shows(p, log, ids, acc)
    ensures Shows(p, log + [Accounted(t, n)], ids, acc[t := n])
  {
    LegalStep(p, log, Accounted(t, n));
  }

  /** A manual compaction starts in such a log whenever there is a region. */
  lemma StartManual(p: Policy, log: seq<Event>, ids: seq<TurnId>, acc: map<TurnId, int>) returns (c: Compaction)
    requires Shows(p, log, ids, acc) && RegionLength(Turns(log), p, acc) > 0
    ensures c == StartRecord(p, log, false, 0) && Region(p, log) == RegionLength(Turns(log), p, acc)
    ensures CutOf(log) == 0 && Legal(p, log + [Started("", c)]) && Turns(log + [Started("", c)]) == Turns(log)
  {
    assert Through(log) == "" && CutOf(log) == 0 && Verbatim(log) == Turns(log);
    c := StartRecord(p, log, false, 0);
    LegalStep(p, log, Started("", c));
  }

  const KEEP_TWO := Policy(0, 0.0, 2, 10, 0)

  lemma ThreeTurns() returns (log: seq<Event>)
    ensures Shows(KEEP_TWO, log, ["a", "b", "c"], map["c" := 1])
  {
    ShowsNothing(KEEP_TWO);
    AddTurn(KEEP_TWO, [], [], map[], "a");
    log := [] + [Final("a", "x", None)];
    AddTurn(KEEP_TWO, log, ["a"], map[], "b");
    log := log + [Final("b", "x", None)];
    AddAccounting(KEEP_TWO, log, ["a", "b"], map[], "c", 1);
    log := log + [Accounted("c", 1)];
    AddTurn(KEEP_TWO, log, ["a", "b"], map["c" := 1], "c");
    log := log + [Final("c", "x", None)];
    assert ["a", "b"] + ["c"] == ["a", "b", "c"];
  }

  lemma OnlyNewestAccounted(turns: seq<Entry>)
    requires |turns| == 3 && turns[0].turn == "a" && turns[1].turn == "b" && turns[2].turn == "c"
    ensures RegionLength(turns, KEEP_TWO, map["c" := 1]) == 2 && Cut(turns, "b") == 2
  {
    var acc: map<TurnId, int> := map["c" := 1];
    assert WalkBack(turns, acc, 2, 10, 2, 1) == 2;
    assert WalkBack(turns, acc, 2, 10, 3, 0) == 2;
    CutAtMost(turns, 1);
    CutFound(turns, "b");
  }

  /** Three turns, a floor of two, accounting for the newest one only: after a completed
      compaction a single turn is verbatim. */
  lemma FloorIsBroken() returns (log: seq<Event>)
    ensures Legal(KEEP_TWO, log) && Floor(KEEP_TWO) == 2 && |Turns(log)| == 3 && |Verbatim(log)| == 1
  {
    var before := ThreeTurns();
    OnlyNewestAccounted(Turns(before));
    var c := StartManual(KEEP_TWO, before, ["a", "b", "c"], map["c" := 1]);
    var started := before + [Started("", c)];
    var done := c.(summary := "s");
    LegalStep(KEEP_TWO, started, Completed("", done));
    log := started + [Completed("", done)];
    assert Through(log) == "b";
  }

  /** A worker writes while the summary is being made, and the compaction still ends. */
  lemma WorkerWritesMeanwhile(p: Policy, log: seq<Event>, turn: TurnId, c: Compaction, e: Event, summary: string)
    requires Legal(p, log) && LastSettled(log) == Some(Started(turn, c)) && c.summary == "" && Tool(e) && summary != ""
    ensures Legal(p, log + [e] + [Completed(turn, c.(summary := summary))])
  {
    LegalStep(p, log, e);
    assert (log + [e])[..|log|] == log;
    LegalStep(p, log + [e], Completed(turn, c.(summary := summary)));
  }

  const BACK_OFF := Policy(0, 0.0, 1, 0, 1)

  /** Two turns and a manual compaction that fails: from here on none starts, by
      `ManualFailureIsFinal`. */
  lemma ManualFailureHappens() returns (log: seq<Event>)
    ensures Legal(BACK_OFF, log) && BACK_OFF.backoffTurns > 0
    ensures |log| == 4 && log[3].Failed? && log[3].turn == ""
  {
    ShowsNothing(BACK_OFF);
    AddTurn(BACK_OFF, [], [], map[], "a");
    log := [] + [Final("a", "x", None)];
    AddTurn(BACK_OFF, log, ["a"], map[], "b");
    log := log + [Final("b", "x", None)];
    var c := StartManual(BACK_OFF, log, ["a"] + ["b"], map[]);
    LegalStep(BACK_OFF, log + [Started("", c)], Failed("", c));
    log := log + [Started("", c)] + [Failed("", c)];
  }
}
