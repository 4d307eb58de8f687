/** What a rebuild cannot restore, and exactly when: duplicate event ids, an index with
    gaps, and events of a session that share a time. */
module LedgerLimits {
  import opened Wrappers
  import opened LedgerFrames
  import opened LedgerIndex
  import opened LedgerRebuild

  // ------------------------------------------------------------------ duplicate ids

  lemma EarlierOffset(env: Env, h: seq<StoredEvent>, l: Located)
    requires l in Journal(env, h)
    ensures l.row.offset < |Frames(env, OfFile(env, h, l.row.fileRef))|
  {
    var k := JournalPosition(env, h, l);
    FramesAround(env, OfFile(env, h, l.row.fileRef), k);
  }

  /** No two events of a history have the same row, whatever their ids: each frame has its
      own place. */
  lemma {:induction false} RowsDiffer(env: Env, h: seq<StoredEvent>, i: nat, j: nat)
    requires i < j < |h|
    ensures |Journal(env, h)| == |h| && Journal(env, h)[i].row != Journal(env, h)[j].row
  {
    var before, e := h[..|h| - 1], h[|h| - 1];
    JournalEvents(env, h);
    JournalEvents(env, before);
    if j < |h| - 1 {
      RowsDiffer(env, before, i, j);
    } else {
      var l := Journal(env, before)[i];
      assert l in Journal(env, before);
      if l.row.fileRef == env.FileRef(e.sessionId) { EarlierOffset(env, before, l); }
    }
  }

  /** The frame of a duplicate id is written before the index refuses it, and from then on
      no rebuild succeeds, whatever is appended later and whatever the index holds. */
  lemma DuplicateIdCorruptsLedger(env: Env, h: seq<StoredEvent>, files: map<string, Bytes>, refs: seq<string>, ix: Index)
    requires Framable(env, h) && Holds(env, files, h) && ListsFiles(env, h, refs) && !UniqueIds(h)
    ensures Rebuild(env, files, refs, ix) == None
  {
    var i, j :| 0 <= i < j < |h| && h[i].eventId == h[j].eventId;
    var js := Journal(env, h);
    JournalEvents(env, h);
    RowsDiffer(env, h, i, j);
    RebuildIsReplay(env, h, files, refs, ix);
    WalkedMembers(env, h, refs);
    var w := Walked(env, h, refs);
    assert js[i] in w && js[j] in w;
    if Replay(env, ix, w).Some? {
      ReplayedRowsAreFound(env, ix, w, js[i]);
      ReplayedRowsAreFound(env, ix, w, js[j]);
    }
  }

  /** Over any index built from the history, a rebuild succeeds if and only if event ids
      are unique. */
  lemma RebuildSucceedsIff(env: Env, h: seq<StoredEvent>, files: map<string, Bytes>, refs: seq<string>, sub: seq<Located>)
    requires Framable(env, h) && Holds(env, files, h) && ListsFiles(env, h, refs) && Indexed(env, h, sub)
    ensures Rebuild(env, files, refs, Stale(env, sub)).Some? <==> UniqueIds(h)
  {
    if UniqueIds(h) {
      RebuildMeans(env, h, files, refs, sub);
    } else {
      DuplicateIdCorruptsLedger(env, h, files, refs, Stale(env, sub));
    }
  }

  // ------------------------------------------------------------------ load order

  ghost predicate StrictByTime(s: seq<Entry>) {
    forall i, j | 0 <= i < j < |s| :: s[i].createdAt < s[j].createdAt
  }

  /** A set of entries with different times has one order. */
  lemma {:induction false} OneStrictOrder(a: seq<Entry>, b: seq<Entry>)
    requires StrictByTime(a) && StrictByTime(b) && forall x :: x in a <==> x in b
    ensures a == b
  {
    assert a != [] ==> a[0] in b;
    assert b != [] ==> b[0] in a;
    if a != [] {
      var x, y := a[|a| - 1], b[|b| - 1];
      assert x in b && y in a;
      assert x == y;
      var a', b' := a[..|a| - 1], b[..|b| - 1];
      forall z ensures z in a' <==> z in b' {
        if z in a' { assert z in b && z != x; assert z in b'; }
        if z in b' { assert z in a && z != y; assert z in a'; }
      }
      OneStrictOrder(a', b');
    }
  }

  /** Entries sorted by time are strictly sorted when no two share a time. */
  lemma SortedStrict(s: seq<Entry>)
    requires ByTime(s) && Distinct(s) && forall x, y | x in s && y in s && x != y :: x.createdAt != y.createdAt
    ensures StrictByTime(s)
  {
    forall i, j | 0 <= i < j < |s| ensures s[i].createdAt < s[j].createdAt {
      assert s[i] in s && s[j] in s && s[i] != s[j];
    }
  }

  lemma {:induction false} InsertDistinct(s: seq<Entry>, x: Entry)
    requires Distinct(s) && x !in s
    ensures Distinct(InsertByTime(s, x))
  {
    if !(s == [] || s[|s| - 1].createdAt <= x.createdAt) {
      var front, last := s[..|s| - 1], s[|s| - 1];
      InsertDistinct(front, x);
      InsertMembers(front, x);
      var inner := InsertByTime(front, x);
      forall i | 0 <= i < |inner| ensures inner[i] != last { assert inner[i] in inner; }
    }
  }

  lemma {:induction false} LoadDistinct(rows: seq<Entry>)
    requires Distinct(rows)
    ensures Distinct(LoadOrder(rows))
  {
    if rows != [] {
      var front := rows[..|rows| - 1];
      LoadDistinct(front);
      LoadMembers(front);
      assert rows[|rows| - 1] !in front;
      InsertDistinct(LoadOrder(front), rows[|rows| - 1]);
    }
  }

  lemma {:induction false} FilterByTime(s: seq<Entry>, p: Entry -> bool)
    requires ByTime(s)
    ensures ByTime(Filter(s, p))
  {
    if s != [] {
      var front := s[..|s| - 1];
      FilterByTime(front, p);
      FilterMembers(front, p);
      var f := Filter(front, p);
      forall i | 0 <= i < |f| ensures f[i].createdAt <= s[|s| - 1].createdAt { assert f[i] in front; }
    }
  }

  /** No two of the session's rows share a time. */
  ghost predicate RowTimesDiffer(rows: seq<Entry>, sid: string) {
    forall x, y | x in rows && y in rows && x != y && x.row.sessionId == sid && y.row.sessionId == sid :: x.createdAt != y.createdAt
  }

  /** No two events of the session share a time. */
  ghost predicate TimesDiffer(h: seq<StoredEvent>, sid: string) {
    forall i, j | 0 <= i < j < |h| && h[i].sessionId == sid && h[j].sessionId == sid :: h[i].createdAt != h[j].createdAt
  }

  lemma EntryAt(env: Env, h: seq<StoredEvent>, i: nat)
    requires i < |h|
    ensures |Entries(Journal(env, h))| == |h|
    ensures Entries(Journal(env, h))[i].row.sessionId == h[i].sessionId && Entries(Journal(env, h))[i].createdAt == h[i].createdAt
  {
    JournalEvents(env, h);
  }

  lemma RowEvent(env: Env, h: seq<StoredEvent>, x: Entry) returns (i: nat)
    requires x in NeverLost(env, h).rows
    ensures i < |h| == |NeverLost(env, h).rows| && NeverLost(env, h).rows[i] == x
    ensures x.row.sessionId == h[i].sessionId && x.createdAt == h[i].createdAt
  {
    var rows := Entries(Journal(env, h));
    i :| 0 <= i < |rows| && rows[i] == x;
    JournalEvents(env, h);
    EntryAt(env, h, i);
  }

  lemma EventTimesDiffer(env: Env, h: seq<StoredEvent>, sid: string)
    requires TimesDiffer(h, sid)
    ensures RowTimesDiffer(NeverLost(env, h).rows, sid)
  {
    var rows := NeverLost(env, h).rows;
    forall x, y | x in rows && y in rows && x != y && x.row.sessionId == sid && y.row.sessionId == sid
      ensures x.createdAt != y.createdAt
    {
      var i := RowEvent(env, h, x);
      var j := RowEvent(env, h, y);
      assert i != j;
    }
  }

  lemma OrderIsForced(a: seq<Entry>, b: seq<Entry>, sid: string)
    requires Distinct(a) && Distinct(b) && RowTimesDiffer(b, sid) && forall x :: x in a <==> x in b
    ensures Filter(LoadOrder(a), RowInSession(sid)) == Filter(LoadOrder(b), RowInSession(sid))
  {
    SessionStrict(a, sid);
    SessionStrict(b, sid);
    OneStrictOrder(Filter(LoadOrder(a), RowInSession(sid)), Filter(LoadOrder(b), RowInSession(sid)));
  }

  lemma SessionStrict(rows: seq<Entry>, sid: string)
    requires Distinct(rows) && RowTimesDiffer(rows, sid)
    ensures StrictByTime(Filter(LoadOrder(rows), RowInSession(sid)))
    ensures forall x :: x in Filter(LoadOrder(rows), RowInSession(sid)) <==> x in rows && x.row.sessionId == sid
  {
    var p := RowInSession(sid);
    LoadMembers(rows);
    LoadDistinct(rows);
    FilterByTime(LoadOrder(rows), p);
    FilterDistinct(LoadOrder(rows), p);
    FilterMembers(LoadOrder(rows), p);
    SortedStrict(Filter(LoadOrder(rows), p));
  }

  lemma EntriesDistinct(ls: seq<Located>)
    requires Distinct(ls) && Consistent(ls)
    ensures Distinct(Entries(ls))
  {
    forall i, j | 0 <= i < j < |ls| ensures Entries(ls)[i] != Entries(ls)[j] { assert ls[i] in ls && ls[j] in ls; }
  }

  /** The session loads as if nothing had ever been lost. */
  ghost predicate OrderRestored(env: Env, h: seq<StoredEvent>, files: map<string, Bytes>, refs: seq<string>, sub: seq<Located>, sid: string)
    requires forall ref | ref in refs :: ref in files
  {
    var r := Rebuild(env, files, refs, Stale(env, sub));
    r.Some? && Filter(LoadOrder(r.value.rows), RowInSession(sid)) == Filter(LoadOrder(NeverLost(env, h).rows), RowInSession(sid))
  }

  lemma DifferentTimesRestoreOrder(env: Env, h: seq<StoredEvent>, files: map<string, Bytes>, refs: seq<string>, sub: seq<Located>, sid: string)
    requires WellFormed(env, h) && Holds(env, files, h) && ListsFiles(env, h, refs) && Indexed(env, h, sub)
    requires TimesDiffer(h, sid)
    ensures OrderRestored(env, h, files, refs, sub, sid)
  {
    RebuildRestoresRows(env, h, files, refs, sub);
    RebuildMeans(env, h, files, refs, sub);
    var js := sub + Walked(env, h, refs);
    DedupeMembers(js);
    SubConsistent(env, h, js);
    EntriesDistinct(Dedupe(js));
    JournalConsistent(env, h);
    EntriesDistinct(Journal(env, h));
    EventTimesDiffer(env, h, sid);
    OrderIsForced(Entries(Dedupe(js)), Entries(Journal(env, h)), sid);
  }

  ghost predicate Precedes(s: seq<Entry>, x: Entry, y: Entry) {
    exists i, j :: 0 <= i < j < |s| && s[i] == x && s[j] == y
  }

  lemma PrecedesAt(s: seq<Entry>, i: nat, j: nat)
    requires i < j < |s|
    ensures Precedes(s, s[i], s[j])
  {
  }

  lemma {:induction false} InsertKeepsOrder(s: seq<Entry>, z: Entry, x: Entry, y: Entry)
    requires Precedes(s, x, y)
    ensures Precedes(InsertByTime(s, z), x, y)
  {
    var i, j :| 0 <= i < j < |s| && s[i] == x && s[j] == y;
    var r := InsertByTime(s, z);
    if s[|s| - 1].createdAt <= z.createdAt {
      PrecedesAt(r, i, j);
    } else {
      var front := s[..|s| - 1];
      if j < |front| {
        PrecedesAt(front, i, j);
        InsertKeepsOrder(front, z, x, y);
        var k, m :| 0 <= k < m < |InsertByTime(front, z)| && InsertByTime(front, z)[k] == x && InsertByTime(front, z)[m] == y;
        PrecedesAt(r, k, m);
      } else {
        InsertMembers(front, z);
        assert x == front[i] && x in InsertByTime(front, z);
        var k :| 0 <= k < |InsertByTime(front, z)| && InsertByTime(front, z)[k] == x;
        PrecedesAt(r, k, |r| - 1);
      }
    }
  }

  /** A new row goes after every row that is not later. */
  lemma {:induction false} InsertAfter(s: seq<Entry>, x: Entry, y: Entry)
    requires ByTime(s) && x in s && x.createdAt <= y.createdAt
    ensures Precedes(InsertByTime(s, y), x, y)
  {
    var r := InsertByTime(s, y);
    var i :| 0 <= i < |s| && s[i] == x;
    if s[|s| - 1].createdAt <= y.createdAt {
      PrecedesAt(r, i, |s|);
    } else {
      var front := s[..|s| - 1];
      assert front[i] == x;
      InsertAfter(front, x, y);
      var k, m :| 0 <= k < m < |InsertByTime(front, y)| && InsertByTime(front, y)[k] == x && InsertByTime(front, y)[m] == y;
      PrecedesAt(r, k, m);
    }
  }

  /** Loading is stable: rows of one time keep the order of the table. */
  lemma {:induction false} LoadKeepsOrder(rows: seq<Entry>, i: nat, j: nat)
    requires i < j < |rows| && rows[i].createdAt <= rows[j].createdAt
    ensures Precedes(LoadOrder(rows), rows[i], rows[j])
  {
    var front, last := rows[..|rows| - 1], rows[|rows| - 1];
    if j < |front| {
      LoadKeepsOrder(front, i, j);
      InsertKeepsOrder(LoadOrder(front), last, rows[i], rows[j]);
    } else {
      LoadMembers(front);
      assert front[i] in front;
      InsertAfter(LoadOrder(front), rows[i], rows[j]);
    }
  }

  lemma PrecedesAcross(a: seq<Entry>, b: seq<Entry>, x: Entry, y: Entry)
    requires x in a && y in b
    ensures Precedes(a + b, x, y)
  {
    var k :| 0 <= k < |a| && a[k] == x;
    var m :| 0 <= m < |b| && b[m] == y;
    PrecedesAt(a + b, k, |a| + m);
  }

  lemma Chosen(s: seq<Entry>, p: Entry -> bool, x: Entry)
    requires x in s && p(x)
    ensures x in Filter(s, p)
  {
    FilterMembers(s, p);
  }

  lemma FilterKeepsOrder(s: seq<Entry>, p: Entry -> bool, x: Entry, y: Entry)
    requires Precedes(s, x, y) && p(x) && p(y)
    ensures Precedes(Filter(s, p), x, y)
  {
    var i, j :| 0 <= i < j < |s| && s[i] == x && s[j] == y;
    assert s == s[..j] + s[j..] && s[..j][i] == x && s[j..][0] == y;
    FilterSplit(s[..j], s[j..], p);
    Chosen(s[..j], p, x);
    Chosen(s[j..], p, y);
    PrecedesAcross(Filter(s[..j], p), Filter(s[j..], p), x, y);
  }

  lemma OneOrder(s: seq<Entry>, x: Entry, y: Entry)
    requires Distinct(s) && Precedes(s, x, y)
    ensures !Precedes(s, y, x)
  {
  }

  lemma SessionOrder(rows: seq<Entry>, sid: string, x: Entry, y: Entry)
    requires Precedes(rows, x, y) && x.createdAt <= y.createdAt && x.row.sessionId == sid && y.row.sessionId == sid
    ensures Precedes(Filter(LoadOrder(rows), RowInSession(sid)), x, y)
  {
    var i, j :| 0 <= i < j < |rows| && rows[i] == x && rows[j] == y;
    LoadKeepsOrder(rows, i, j);
    FilterKeepsOrder(LoadOrder(rows), RowInSession(sid), x, y);
  }

  lemma {:induction false} DedupeHead<T(!new)>(s: seq<T>)
    requires s != []
    ensures Dedupe(s) != [] && Dedupe(s)[0] == s[0]
  {
    if |s| > 1 { DedupeHead(s[..|s| - 1]); }
  }

  /** Indexed out of order, `y` comes before `x`. */
  lemma IndexedFirst(ls: seq<Located>, y: Located, x: Located)
    requires ls != [] && ls[0] == y && x in ls && x != y
    ensures Precedes(Entries(Dedupe(ls)), Entry(y.row, y.event.createdAt), Entry(x.row, x.event.createdAt))
  {
    DedupeHead(ls);
    DedupeMembers(ls);
    var d := Dedupe(ls);
    var k :| 0 <= k < |d| && d[k] == x;
    PrecedesAt(Entries(d), 0, k);
  }

  /** If two events of a session share a time, an index that holds only the later one is
      rebuilt with the two in the wrong order. */
  lemma SharedTimeLosesOrder(env: Env, h: seq<StoredEvent>, files: map<string, Bytes>, refs: seq<string>, i: nat, j: nat)
    requires WellFormed(env, h) && Holds(env, files, h) && ListsFiles(env, h, refs)
    requires i < j < |h| && h[i].sessionId == h[j].sessionId && h[i].createdAt == h[j].createdAt
    ensures |Journal(env, h)| == |h| && Indexed(env, h, [Journal(env, h)[j]])
    ensures !OrderRestored(env, h, files, refs, [Journal(env, h)[j]], h[j].sessionId)
  {
    JournalEvents(env, h);
    JournalConsistent(env, h);
    var js, sid := Journal(env, h), h[j].sessionId;
    var x, y := Entries(js)[i], Entries(js)[j];
    assert js[i] in js && js[j] in js;
    RebuildMeans(env, h, files, refs, [js[j]]);
    WalkedMembers(env, h, refs);
    var all := [js[j]] + Walked(env, h, refs);
    IndexedFirst(all, js[j], js[i]);
    SessionOrder(Entries(Dedupe(all)), sid, y, x);
    PrecedesAt(Entries(js), i, j);
    SessionOrder(Entries(js), sid, x, y);
    LoadedDistinct(env, h, sid);
    OneOrder(Filter(LoadOrder(Entries(js)), RowInSession(sid)), x, y);
  }

  lemma LoadedDistinct(env: Env, h: seq<StoredEvent>, sid: string)
    requires WellFormed(env, h)
    ensures Distinct(Filter(LoadOrder(NeverLost(env, h).rows), RowInSession(sid)))
  {
    JournalConsistent(env, h);
    EntriesDistinct(Journal(env, h));
    LoadDistinct(NeverLost(env, h).rows);
    FilterDistinct(LoadOrder(NeverLost(env, h).rows), RowInSession(sid));
  }

  /** Whatever part of the rows the index holds, a rebuild restores the load order of a
      session if and only if no two of the session's events share a time. */
  lemma RebuildRestoresOrderIff(env: Env, h: seq<StoredEvent>, files: map<string, Bytes>, refs: seq<string>, sid: string)
    requires WellFormed(env, h) && Holds(env, files, h) && ListsFiles(env, h, refs)
    ensures (forall sub | Indexed(env, h, sub) :: OrderRestored(env, h, files, refs, sub, sid))
            <==> TimesDiffer(h, sid)
  {
    if TimesDiffer(h, sid) {
      forall sub | Indexed(env, h, sub) ensures OrderRestored(env, h, files, refs, sub, sid) {
        DifferentTimesRestoreOrder(env, h, files, refs, sub, sid);
      }
    } else {
      var i, j :| 0 <= i < j < |h| && h[i].sessionId == sid && h[j].sessionId == sid && h[i].createdAt == h[j].createdAt;
      SharedTimeLosesOrder(env, h, files, refs, i, j);
    }
  }

  /** Every event of the history has been indexed, in whatever order. */
  ghost predicate AllIndexed(env: Env, h: seq<StoredEvent>, js: seq<Located>) {
    Indexed(env, h, js) && forall l | l in Journal(env, h) :: l in js
  }

  /** The clock advances between any two events. */
  ghost predicate ClockAdvances(h: seq<StoredEvent>) {
    forall i, j | 0 <= i < j < |h| :: h[i].createdAt < h[j].createdAt
  }

  lemma LoadOrderIsStrict(rows: seq<Entry>)
    requires Distinct(rows) && forall x, y | x in rows && y in rows && x != y :: x.createdAt != y.createdAt
    ensures StrictByTime(LoadOrder(rows)) && forall x :: x in LoadOrder(rows) <==> x in rows
  {
    LoadMembers(rows);
    LoadDistinct(rows);
    SortedStrict(LoadOrder(rows));
  }

  lemma RowTimesAdvance(env: Env, h: seq<StoredEvent>)
    requires ClockAdvances(h)
    ensures forall x, y | x in NeverLost(env, h).rows && y in NeverLost(env, h).rows && x != y :: x.createdAt != y.createdAt
  {
    var rows := NeverLost(env, h).rows;
    forall x, y | x in rows && y in rows && x != y ensures x.createdAt != y.createdAt {
      var i := RowEvent(env, h, x);
      var j := RowEvent(env, h, y);
      assert i != j;
    }
  }

  /** When the clock advances, the order in which events were indexed does not matter: the
      whole index loads as the one that was never lost. */
  lemma AnyOrderLoadsTheSame(env: Env, h: seq<StoredEvent>, js: seq<Located>)
    requires WellFormed(env, h) && ClockAdvances(h) && AllIndexed(env, h, js)
    ensures LoadOrder(Stale(env, js).rows) == LoadOrder(NeverLost(env, h).rows)
  {
    DedupeMembers(js);
    SubConsistent(env, h, js);
    EntriesDistinct(Dedupe(js));
    JournalConsistent(env, h);
    EntriesDistinct(Journal(env, h));
    EntriesMembers(Dedupe(js), Journal(env, h));
    RowTimesAdvance(env, h);
    LoadOrderIsStrict(Entries(Dedupe(js)));
    LoadOrderIsStrict(Entries(Journal(env, h)));
    OneStrictOrder(LoadOrder(Entries(Dedupe(js))), LoadOrder(Entries(Journal(env, h))));
  }

  // ------------------------------------------------------------------ a gap in the index

  /** Two titled events of a session, of which only the second was indexed: the rebuilt
      sessions table shows the second title. */
  lemma GapKeepsLaterTitle(env: Env, a: StoredEvent, b: StoredEvent, files: map<string, Bytes>)
    requires WellFormed(env, [a, b]) && Holds(env, files, [a, b])
    requires a.sessionId == b.sessionId && env.trim(a.sessionId) != ""
    requires env.title(a) != "" && env.title(b) != "" && env.title(a) != env.title(b)
    ensures var h, refs := [a, b], [env.FileRef(a.sessionId)];
            && |Journal(env, h)| == 2 && Indexed(env, h, [Journal(env, h)[1]]) && ListsFiles(env, h, refs)
            && var r := Rebuild(env, files, refs, Stale(env, [Journal(env, h)[1]]));
               r.Some? && r.value.sessions != NeverLost(env, h).sessions
  {
    var h, ref, key := [a, b], env.FileRef(a.sessionId), env.trim(a.sessionId);
    OneFileListed(env, h, ref);
    var js := GapTitles(env, a, b, key);
    RebuildRestoresSessionsIff(env, h, files, [ref], [js[1]]);
    assert key != "" && FirstTitle(env, Filter([js[1]], HasKey(env, key))) != FirstTitle(env, Filter(js, HasKey(env, key)));
  }

  lemma OneFileListed(env: Env, h: seq<StoredEvent>, ref: string)
    requires h != [] && forall e | e in h :: env.FileRef(e.sessionId) == ref
    ensures ListsFiles(env, h, [ref])
  {
    assert h[0] in h;
    assert HasFile(env, h, ref);
  }

  lemma GapTitles(env: Env, a: StoredEvent, b: StoredEvent, key: string) returns (js: seq<Located>)
    requires env.trim(a.sessionId) == key == env.trim(b.sessionId) && env.title(a) != ""
    ensures js == Journal(env, [a, b]) && |js| == 2 && Indexed(env, [a, b], [js[1]])
    ensures FirstTitle(env, Filter([js[1]], HasKey(env, key))) == env.title(b)
    ensures FirstTitle(env, Filter(js, HasKey(env, key))) == env.title(a)
  {
    JournalEvents(env, [a, b]);
    js := Journal(env, [a, b]);
    assert js[0].event == [a, b][0] == a && js[1].event == [a, b][1] == b;
    assert js[1] in js && js == [js[0], js[1]];
    TitleOfOne(env, js[1], key);
    TitleOfTwo(env, js[0], js[1], key);
  }

  lemma TitleOfOne(env: Env, l: Located, key: string)
    requires SessionKey(env, l) == key
    ensures Filter([l], HasKey(env, key)) == [l] && FirstTitle(env, [l]) == env.title(l.event)
  {
    assert [l][..0] == [];
    assert Filter([l][..0], HasKey(env, key)) == [] && FirstTitle(env, [l][..0]) == "";
  }

  lemma TitleOfTwo(env: Env, l: Located, m: Located, key: string)
    requires SessionKey(env, l) == key == SessionKey(env, m) && env.title(l.event) != ""
    ensures FirstTitle(env, Filter([l, m], HasKey(env, key))) == env.title(l.event)
  {
    TitleOfOne(env, l, key);
    assert [l, m][..1] == [l] && [l] + [m] == [l, m];
    assert Filter([l, m], HasKey(env, key)) == [l, m];
  }
}
