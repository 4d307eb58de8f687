/** The ledger object: append, rebuild and load over the event files and their index
    (internal/kernel/sqlite_ledger.go). */
module Ledger {
  import opened Wrappers
  import opened LedgerFrames
  import opened LedgerIndex
  import opened LedgerRebuild
  import opened LedgerLimits

  /** The events behind the rows, read in load order; `None` when a frame is corrupt. */
  function ReadAll(env: Env, files: map<string, Bytes>, rows: seq<Entry>): Option<seq<StoredEvent>> {
    if rows == [] then Some([])
    else
      match ReadEvent(env, files, rows[0].row)
      case None => None
      case Some(e) =>
        match ReadAll(env, files, rows[1..])
        case None => None
        case Some(rest) => Some([e] + rest)
  }

  lemma {:induction false} ReadAllEvents(env: Env, files: map<string, Bytes>, rows: seq<Entry>, es: seq<StoredEvent>)
    requires |rows| == |es| && forall i | 0 <= i < |rows| :: ReadEvent(env, files, rows[i].row) == Some(es[i])
    ensures ReadAll(env, files, rows) == Some(es)
  {
    if rows != [] {
      ReadAllEvents(env, files, rows[1..], es[1..]);
      assert [es[0]] + es[1..] == es;
    }
  }

  /** The index after all frames of a scan are reconciled. */
  function Reconciled(env: Env, ix: Index, scan: Option<seq<Located>>): Option<Index> {
    match scan
    case None => None
    case Some(ls) => Replay(env, ix, ls)
  }

  lemma ReplayFirst(env: Env, ix: Index, l: Located, scan: Option<seq<Located>>)
    ensures Reconcile(env, ix, l).None? ==> Reconciled(env, ix, Prepend([l], scan)) == None
    ensures Reconcile(env, ix, l).Some? ==>
              Reconciled(env, ix, Prepend([l], scan)) == Reconciled(env, Reconcile(env, ix, l).value, scan)
  {
    if scan.Some? {
      ReplaySplit(env, ix, [l], scan.value);
      assert [l][..0] == [];
      assert Replay(env, ix, [l]) == Reconcile(env, ix, l);
    }
  }

  /** The scan from `offset` in terms of the frame there. */
  lemma ScanNext(env: Env, ref: string, bytes: Bytes, offset: nat, read: Option<Located>)
    requires offset < |bytes| && read == ReadNext(env, ref, bytes, offset)
    ensures read.None? ==> Scan(env, ref, bytes, offset) == None
    ensures read.Some? ==> offset + read.value.row.frameBytes <= |bytes|
    ensures read.Some? ==>
              Scan(env, ref, bytes, offset) == Prepend([read.value], Scan(env, ref, bytes, offset + read.value.row.frameBytes))
  {
  }

  /** One frame of the loop: what remains to be reconciled gives the same index. */
  lemma ReconcileNext(env: Env, goal: Option<Index>, ix: Index, ref: string, bytes: Bytes, offset: nat, read: Option<Located>)
    requires offset < |bytes| && read == ReadNext(env, ref, bytes, offset)
    requires goal == Reconciled(env, ix, Scan(env, ref, bytes, offset))
    ensures read.None? || Reconcile(env, ix, read.value).None? ==> goal == None
    ensures read.Some? ==> offset + read.value.row.frameBytes <= |bytes|
    ensures read.Some? && Reconcile(env, ix, read.value).Some? ==>
              goal == Reconciled(env, Reconcile(env, ix, read.value).value,
                                 Scan(env, ref, bytes, offset + read.value.row.frameBytes))
  {
    ScanNext(env, ref, bytes, offset, read);
    if read.Some? { ReplayFirst(env, ix, read.value, Scan(env, ref, bytes, offset + read.value.row.frameBytes)); }
  }

  /** The scan loop over one file, reconciling each frame as it is read. */
  method ReconcileEventFile(env: Env, before: Index, ref: string, bytes: Bytes) returns (r: Option<Index>)
    ensures r == ReconcileFile(env, before, ref, bytes)
  {
    var ix, offset: nat := before, 0;
    ghost var goal := ReconcileFile(env, before, ref, bytes);
    while offset < |bytes|
      invariant offset <= |bytes| && goal == Reconciled(env, ix, Scan(env, ref, bytes, offset))
      decreases |bytes| - offset
    {
      var read := ReadNext(env, ref, bytes, offset);
      ReconcileNext(env, goal, ix, ref, bytes, offset, read);
      if read.None? { return None; }
      var next := Reconcile(env, ix, read.value);
      if next.None? { return None; }
      offset, ix := offset + read.value.row.frameBytes, next.value;
    }
    r := Some(ix);
  }

  method WalkFiles(env: Env, files: map<string, Bytes>, refs: seq<string>, before: Index) returns (r: Option<Index>)
    requires forall ref | ref in refs :: ref in files
    ensures r == Rebuild(env, files, refs, before)
  {
    var ix := before;
    for i := 0 to |refs|
      invariant forall ref | ref in refs[i..] :: ref in files
      invariant Rebuild(env, files, refs, before) == Rebuild(env, files, refs[i..], ix)
    {
      assert refs[i..] == [refs[i]] + refs[i + 1..];
      var next := ReconcileEventFile(env, ix, refs[i], files[refs[i]]);
      if next.None? { return None; }
      ix := next.value;
    }
    r := Some(ix);
  }

  class SQLiteLedger {
    const env: Env
    var files: map<string, Bytes>
    var index: Index
    /** Every event whose frame was written. */
    ghost var history: seq<StoredEvent>
    /** Every event indexed, by an append or by a rebuild, in order. */
    ghost var journal: seq<Located>

    ghost predicate Valid() reads this {
      Holds(env, files, history) && Indexed(env, history, journal) && index == Stale(env, journal)
    }

    constructor (env: Env)
      ensures Valid() && this.env == env && history == [] && journal == []
    {
      this.env := env;
      files, index, history, journal := map[], EMPTY, [], [];
      new;
      assert Entries(Dedupe([])) == [];
    }

    /** Writes the frame, then tries the index transaction, which fails on a known event
        id or for a reason of its own (`commits` false). The frame stays either way. */
    method Append(e: StoredEvent, commits: bool) returns (ok: bool)
      requires Valid()
      modifies this
      ensures Valid() && history == old(history) + [e]
      ensures ok <==> commits && forall l | l in old(journal) :: l.row.eventId != e.eventId
      ensures journal == if ok then old(journal) + [Locate(env, e, |Frames(env, OfFile(env, old(history), env.FileRef(e.sessionId)))|)]
                         else old(journal)
      ensures ok && Complete(env, old(history), old(journal)) ==> Complete(env, history, journal)
      ensures !ok && HoldsPrefixes(env, old(history), Dedupe(old(journal))) ==> HoldsPrefixes(env, history, Dedupe(journal))
      ensures ok && AllIndexed(env, old(history), old(journal)) ==> AllIndexed(env, history, journal)
    {
      var body := env.encode(e);
      var ref := env.FileRef(e.sessionId);
      var bytes := if ref in files then files[ref] else [];
      var l := Locate(env, e, |bytes|);
      FileGrows(env, files, history, e);
      files := files[ref := bytes + Frame(body)];
      history := history + [e];
      JournalGrows(env, old(history), e, journal);
      var known := FindRow(index.rows, e.eventId);
      KnownIds(env, journal, e.eventId);
      AppendKeepsPrefixes(env, old(history), e, journal);
      if !commits || known.Some? { return false; }
      AppendCompletes(env, old(history), e, journal, l);
      StaleGrows(env, journal, l);
      index := Index(index.rows + [Entry(l.row, e.createdAt)], UpsertSession(env, index.sessions, l));
      journal := journal + [l];
      ok := true;
    }

    /** The rebuild made when the ledger is opened: one transaction over all files. */
    method RebuildIndex(refs: seq<string>) returns (ok: bool)
      requires Valid() && ListsFiles(env, history, refs)
      modifies this`index, this`journal
      ensures ok <==> Rebuild(env, files, refs, old(index)).Some?
      ensures index == if ok then Rebuild(env, files, refs, old(index)).value else old(index)
      ensures WellFormed(env, history) ==> Valid() && ok && journal == old(journal) + Walked(env, history, refs)
      ensures WellFormed(env, history) ==> AllIndexed(env, history, journal)
      ensures WellFormed(env, history) && HoldsPrefixes(env, history, Dedupe(old(journal))) ==>
                Restored(env, history, index) && Complete(env, history, journal)
    {
      var rebuilt := WalkFiles(env, files, refs, index);
      if WellFormed(env, history) {
        RebuildMeans(env, history, files, refs, journal);
        WalkedMembers(env, history, refs);
      }
      if WellFormed(env, history) && HoldsPrefixes(env, history, Dedupe(journal)) {
        ReopenRestores(env, history, files, refs, journal);
      }
      if rebuilt.None? { return false; }
      index := rebuilt.value;
      journal := journal + Walked(env, history, refs);
      ok := true;
    }

    /** Loading a well-formed ledger returns, in load order, exactly the events whose
        rows the index holds. */
    method Load() returns (r: Option<seq<StoredEvent>>)
      requires Valid()
      ensures r == ReadAll(env, files, LoadOrder(index.rows))
      ensures WellFormed(env, history) ==> r.Some? && EventsBehind(env, history, LoadOrder(index.rows), r.value)
      ensures WellFormed(env, history) && ClockNeverGoesBack(history) && journal == Journal(env, history) ==> r == Some(history)
      ensures WellFormed(env, history) && ClockAdvances(history) && AllIndexed(env, history, journal) ==> r == Some(history)
    {
      var rows := LoadOrder(index.rows);
      LoadsHistory(env, history, files, journal);
      if WellFormed(env, history) { LoadSucceeds(env, history, files, journal); }
      var events: seq<StoredEvent> := [];
      ReadStarts(env, files, rows);
      for i := 0 to |rows|
        invariant ReadTo(env, files, rows, i, events)
      {
        ReadContinues(env, files, rows, i, events);
        var e := ReadEvent(env, files, rows[i].row);
        if e.None? { return None; }
        events := events + [e.value];
      }
      assert rows[|rows|..] == [] && events + [] == events;
      r := Some(events);
    }
  }

  lemma FileJournalGrows(env: Env, h: seq<StoredEvent>, e: StoredEvent, ref: string)
    ensures var l := Locate(env, e, |Frames(env, OfFile(env, h, env.FileRef(e.sessionId)))|);
            FileJournal(env, h + [e], ref) == FileJournal(env, h, ref) + (if l.row.fileRef == ref then [l] else [])
  {
    assert (h + [e])[..|h|] == h;
    JournalByFile(env, h, ref);
    JournalByFile(env, h + [e], ref);
    var j := Journal(env, h);
    var l := Locate(env, e, |Frames(env, OfFile(env, h, env.FileRef(e.sessionId)))|);
    assert Journal(env, h + [e]) == j + [l] && (j + [l])[..|j|] == j;
  }

  /** A frame without a row leaves the index with the beginning of every file. */
  lemma AppendKeepsPrefixes(env: Env, h: seq<StoredEvent>, e: StoredEvent, js: seq<Located>)
    ensures HoldsPrefixes(env, h, Dedupe(js)) ==> HoldsPrefixes(env, h + [e], Dedupe(js))
  {
    forall ref ensures FileJournal(env, h, ref) <= FileJournal(env, h + [e], ref) { FileJournalGrows(env, h, e, ref); }
  }

  lemma JournalGrows(env: Env, h: seq<StoredEvent>, e: StoredEvent, js: seq<Located>)
    ensures var l := Locate(env, e, |Frames(env, OfFile(env, h, env.FileRef(e.sessionId)))|);
            && (Indexed(env, h, js) ==> Indexed(env, h + [e], js) && Indexed(env, h + [e], js + [l]))
            && (AllIndexed(env, h, js) ==> AllIndexed(env, h + [e], js + [l]))
  {
    var l := Locate(env, e, |Frames(env, OfFile(env, h, env.FileRef(e.sessionId)))|);
    assert (h + [e])[..|h|] == h;
    assert Journal(env, h + [e]) == Journal(env, h) + [l];
  }

  /** An indexed append to a complete index leaves it complete. */
  lemma AppendCompletes(env: Env, h: seq<StoredEvent>, e: StoredEvent, js: seq<Located>, l: Located)
    requires l == Locate(env, e, |Frames(env, OfFile(env, h, env.FileRef(e.sessionId)))|) && l !in js
    ensures Complete(env, h, js) ==> Complete(env, h + [e], js + [l])
  {
    DedupeMembers(js);
    assert (js + [l])[..|js|] == js;
    var d := Dedupe(js);
    assert Dedupe(js + [l]) == d + [l] && (d + [l])[..|d|] == d;
    forall ref ensures Complete(env, h, js) ==> Filter(d + [l], InFile(ref)) == FileJournal(env, h + [e], ref) {
      FileJournalGrows(env, h, e, ref);
    }
  }

  /** The two ways to be sure of loading exactly the history. */
  lemma LoadsHistory(env: Env, h: seq<StoredEvent>, files: map<string, Bytes>, journal: seq<Located>)
    requires Holds(env, files, h)
    ensures WellFormed(env, h) && ClockNeverGoesBack(h) && journal == Journal(env, h) ==>
              ReadAll(env, files, LoadOrder(Stale(env, journal).rows)) == Some(h)
    ensures WellFormed(env, h) && ClockAdvances(h) && AllIndexed(env, h, journal) ==>
              ReadAll(env, files, LoadOrder(Stale(env, journal).rows)) == Some(h)
  {
    if WellFormed(env, h) && ClockNeverGoesBack(h) {
      LoadReturnsHistory(env, h, files);
      JournalConsistent(env, h);
      DedupeDistinct(Journal(env, h));
      if ClockAdvances(h) && AllIndexed(env, h, journal) { AnyOrderLoadsTheSame(env, h, journal); }
    }
  }

  ghost predicate ReadTo(env: Env, files: map<string, Bytes>, rows: seq<Entry>, i: nat, events: seq<StoredEvent>) {
    && i <= |rows|
    && var rest := ReadAll(env, files, rows[i..]);
       ReadAll(env, files, rows) == if rest.None? then None else Some(events + rest.value)
  }

  lemma ReadStarts(env: Env, files: map<string, Bytes>, rows: seq<Entry>)
    ensures ReadTo(env, files, rows, 0, [])
  {
    assert rows[0..] == rows;
    var all := ReadAll(env, files, rows);
    if all.Some? { assert [] + all.value == all.value; }
  }

  lemma ReadContinues(env: Env, files: map<string, Bytes>, rows: seq<Entry>, i: nat, events: seq<StoredEvent>)
    requires i < |rows| && ReadTo(env, files, rows, i, events)
    ensures var e := ReadEvent(env, files, rows[i].row);
            if e.None? then ReadAll(env, files, rows).None? else ReadTo(env, files, rows, i + 1, events + [e.value])
  {
    assert rows[i..][0] == rows[i] && rows[i..][1..] == rows[i + 1..];
    var e, rest := ReadEvent(env, files, rows[i].row), ReadAll(env, files, rows[i + 1..]);
    if e.Some? && rest.Some? { assert events + ([e.value] + rest.value) == events + [e.value] + rest.value; }
  }

  /** Each loaded event is the one its row was made for. */
  ghost predicate EventsBehind(env: Env, h: seq<StoredEvent>, rows: seq<Entry>, es: seq<StoredEvent>) {
    |es| == |rows| && forall i | 0 <= i < |rows| :: Located(rows[i].row, es[i]) in Journal(env, h)
  }

  lemma LoadSucceeds(env: Env, h: seq<StoredEvent>, files: map<string, Bytes>, journal: seq<Located>)
    requires WellFormed(env, h) && Holds(env, files, h) && Indexed(env, h, journal)
    ensures var rows := LoadOrder(Stale(env, journal).rows);
            var r := ReadAll(env, files, rows);
            r.Some? && EventsBehind(env, h, rows, r.value)
  {
    var rows := LoadOrder(Stale(env, journal).rows);
    var es := EventsOf(env, h, files, journal, rows);
    ReadAllEvents(env, files, rows, es);
  }

  lemma StaleGrows(env: Env, journal: seq<Located>, l: Located)
    requires l !in journal
    ensures Stale(env, journal + [l]) ==
            Index(Stale(env, journal).rows + [Entry(l.row, l.event.createdAt)],
                  UpsertSession(env, Stale(env, journal).sessions, l))
  {
    DedupeMembers(journal);
    assert (journal + [l])[..|journal|] == journal;
    assert Entries(Dedupe(journal) + [l]) == Entries(Dedupe(journal)) + [Entry(l.row, l.event.createdAt)];
  }

  lemma FileGrows(env: Env, files: map<string, Bytes>, h: seq<StoredEvent>, e: StoredEvent)
    requires Holds(env, files, h)
    ensures var ref := env.FileRef(e.sessionId);
            var bytes := if ref in files then files[ref] else [];
            && bytes == Frames(env, OfFile(env, h, ref))
            && Holds(env, files[ref := bytes + Frame(env.encode(e))], h + [e])
  {
    var ref := env.FileRef(e.sessionId);
    var all := h + [e];
    var bytes := if ref in files then files[ref] else [];
    if ref !in files {
      assert !HasFile(env, h, ref);
      FilterNone(h, StoredIn(env, ref));
    }
    var grown := files[ref := bytes + Frame(env.encode(e))];
    forall r ensures r in grown <==> HasFile(env, all, r) {
      assert e in all;
      if HasFile(env, h, r) {
        var x :| x in h && env.FileRef(x.sessionId) == r;
        assert x in all;
      }
    }
    forall r | r in grown ensures grown[r] == Frames(env, OfFile(env, all, r)) { OneFileGrows(env, h, e, r); }
  }

  lemma OneFileGrows(env: Env, h: seq<StoredEvent>, e: StoredEvent, r: string)
    ensures Frames(env, OfFile(env, h + [e], r)) ==
            if r == env.FileRef(e.sessionId) then Frames(env, OfFile(env, h, r)) + Frame(env.encode(e))
            else Frames(env, OfFile(env, h, r))
  {
    assert (h + [e])[..|h|] == h;
    FramesSplit(env, OfFile(env, h, r), [e]);
    FramesOne(env, e);
  }

  lemma KnownIds(env: Env, journal: seq<Located>, id: string)
    ensures FindRow(Stale(env, journal).rows, id).Some? <==> exists l :: l in journal && l.row.eventId == id
  {
    var d := Dedupe(journal);
    DedupeMembers(journal);
    var r := FindRow(Entries(d), id);
    if r.Some? {
      var x :| x in Entries(d) && x.row == r.value;
      var i :| 0 <= i < |d| && Entries(d)[i] == x;
      assert d[i] in journal;
    }
    forall l | l in journal && l.row.eventId == id ensures exists x :: x in Entries(d) && x.row.eventId == id {
      var i :| 0 <= i < |d| && d[i] == l;
      assert Entries(d)[i] in Entries(d);
    }
  }

  lemma {:induction false} InsertSize(s: seq<Entry>, x: Entry)
    ensures |InsertByTime(s, x)| == |s| + 1
  {
    if !(s == [] || s[|s| - 1].createdAt <= x.createdAt) { InsertSize(s[..|s| - 1], x); }
  }

  lemma {:induction false} LoadSize(rows: seq<Entry>)
    ensures |LoadOrder(rows)| == |rows|
  {
    if rows != [] {
      LoadSize(rows[..|rows| - 1]);
      InsertSize(LoadOrder(rows[..|rows| - 1]), rows[|rows| - 1]);
    }
  }

  /** The event each loaded row stands for. */
  ghost function EventsOf(env: Env, h: seq<StoredEvent>, files: map<string, Bytes>, journal: seq<Located>, rows: seq<Entry>): (es: seq<StoredEvent>)
    requires WellFormed(env, h) && Holds(env, files, h) && Indexed(env, h, journal)
    requires rows == LoadOrder(Stale(env, journal).rows)
    ensures |es| == |rows|
    ensures forall i | 0 <= i < |rows| :: ReadEvent(env, files, rows[i].row) == Some(es[i])
    ensures forall i | 0 <= i < |rows| :: Located(rows[i].row, es[i]) in Journal(env, h)
  {
    LoadSize(Stale(env, journal).rows);
    assert forall i | 0 <= i < |rows| :: Readable(env, h, files, rows[i]) by {
      forall i | 0 <= i < |rows| ensures Readable(env, h, files, rows[i]) { RowsAreReadable(env, h, files, journal, rows[i]); }
    }
    seq(|rows|, i requires 0 <= i < |rows| && Readable(env, h, files, rows[i]) => ReadEvent(env, files, rows[i].row).value)
  }

  ghost predicate Readable(env: Env, h: seq<StoredEvent>, files: map<string, Bytes>, x: Entry) {
    var r := ReadEvent(env, files, x.row);
    r.Some? && Located(x.row, r.value) in Journal(env, h)
  }

  lemma RowsAreReadable(env: Env, h: seq<StoredEvent>, files: map<string, Bytes>, journal: seq<Located>, x: Entry)
    requires WellFormed(env, h) && Holds(env, files, h) && Indexed(env, h, journal)
    requires x in LoadOrder(Stale(env, journal).rows)
    ensures Readable(env, h, files, x)
  {
    LoadMembers(Stale(env, journal).rows);
    DedupeMembers(journal);
    var d := Dedupe(journal);
    var i :| 0 <= i < |d| && Entries(d)[i] == x;
    assert d[i] in journal;
    IndexedEventsReadBack(env, h, files, d[i]);
  }

  ghost predicate ClockNeverGoesBack(h: seq<StoredEvent>) {
    forall i, j | 0 <= i < j < |h| :: h[i].createdAt <= h[j].createdAt
  }

  /** With a clock that never goes back, a complete index loads exactly the history, in
      the order it was appended. */
  lemma LoadReturnsHistory(env: Env, h: seq<StoredEvent>, files: map<string, Bytes>)
    requires WellFormed(env, h) && Holds(env, files, h) && ClockNeverGoesBack(h)
    ensures ReadAll(env, files, LoadOrder(NeverLost(env, h).rows)) == Some(h)
  {
    var js := Journal(env, h);
    var rows := Entries(js);
    JournalEvents(env, h);
    SortedIsLoadOrder(rows);
    forall i | 0 <= i < |rows| ensures ReadEvent(env, files, rows[i].row) == Some(h[i]) {
      assert js[i] in js;
      IndexedEventsReadBack(env, h, files, js[i]);
    }
    ReadAllEvents(env, files, rows, h);
  }
}
