/** Rebuilding the index from the event files: what it restores, and when. */
module LedgerRebuild {
  import opened Wrappers
  import opened LedgerFrames
  import opened LedgerIndex

  // ------------------------------------------------------ histories and journals

  /** The predicates rows, events and files are filtered by. */
  function InFile(ref: string): Located -> bool { (l: Located) => l.row.fileRef == ref }

  function RowInFile(ref: string): Entry -> bool { (x: Entry) => x.row.fileRef == ref }

  function RowInSession(sid: string): Entry -> bool { (x: Entry) => x.row.sessionId == sid }

  function HasKey(env: Env, key: string): Located -> bool { (l: Located) => SessionKey(env, l) == key }

  function StoredIn(env: Env, ref: string): StoredEvent -> bool { (e: StoredEvent) => env.FileRef(e.sessionId) == ref }

  /** The events whose frames file `ref` holds, in append order. */
  ghost function OfFile(env: Env, h: seq<StoredEvent>, ref: string): seq<StoredEvent> {
    Filter(h, StoredIn(env, ref))
  }

  /** Every event can be framed and scanned. */
  ghost predicate Framable(env: Env, h: seq<StoredEvent>) {
    env.Lawful() && forall e | e in h :: Storable(env, env.FileRef(e.sessionId), e)
  }

  ghost predicate UniqueIds(h: seq<StoredEvent>) {
    forall i, j | 0 <= i < j < |h| :: h[i].eventId != h[j].eventId
  }

  ghost predicate WellFormed(env: Env, h: seq<StoredEvent>) { Framable(env, h) && UniqueIds(h) }

  ghost predicate HasFile(env: Env, h: seq<StoredEvent>, ref: string) {
    exists e :: e in h && env.FileRef(e.sessionId) == ref
  }

  /** The files hold exactly the frames of the history. */
  ghost predicate Holds(env: Env, files: map<string, Bytes>, h: seq<StoredEvent>) {
    && (forall ref :: ref in files <==> HasFile(env, h, ref))
    && (forall ref | ref in files :: files[ref] == Frames(env, OfFile(env, h, ref)))
  }

  /** The rows an index that never lost a transaction receives, in append order. */
  ghost function Journal(env: Env, h: seq<StoredEvent>): seq<Located> {
    if h == [] then []
    else
      var before, e := h[..|h| - 1], h[|h| - 1];
      Journal(env, before) + [Locate(env, e, |Frames(env, OfFile(env, before, env.FileRef(e.sessionId)))|)]
  }

  ghost function FileJournal(env: Env, h: seq<StoredEvent>, ref: string): seq<Located> {
    LocateAll(env, OfFile(env, h, ref), 0)
  }

  /** What the scans of the files in `refs` give, one after the other. */
  ghost function Walked(env: Env, h: seq<StoredEvent>, refs: seq<string>): seq<Located> {
    if refs == [] then [] else FileJournal(env, h, refs[0]) + Walked(env, h, refs[1..])
  }

  lemma {:induction false} JournalByFile(env: Env, h: seq<StoredEvent>, ref: string)
    ensures Filter(Journal(env, h), InFile(ref)) == FileJournal(env, h, ref)
  {
    if h != [] {
      var before, e := h[..|h| - 1], h[|h| - 1];
      JournalByFile(env, before, ref);
      var l := Locate(env, e, |Frames(env, OfFile(env, before, env.FileRef(e.sessionId)))|);
      var j := Journal(env, before);
      assert (j + [l])[..|j|] == j;
      if env.FileRef(e.sessionId) == ref { LocateSnoc(env, OfFile(env, before, ref), e, 0); }
    }
  }

  lemma {:induction false} JournalEvents(env: Env, h: seq<StoredEvent>)
    ensures |Journal(env, h)| == |h|
    ensures forall i | 0 <= i < |h| :: Journal(env, h)[i].event == h[i] && Journal(env, h)[i].row.eventId == h[i].eventId
    ensures forall i | 0 <= i < |h| :: Journal(env, h)[i].row.sessionId == h[i].sessionId
                                       && Journal(env, h)[i].row.fileRef == env.FileRef(h[i].sessionId)
  {
    if h != [] { JournalEvents(env, h[..|h| - 1]); }
  }

  /** Equal ids mean equal rows. */
  ghost predicate Consistent(js: seq<Located>) {
    forall x, y | x in js && y in js && x.row.eventId == y.row.eventId :: x == y
  }

  lemma JournalConsistent(env: Env, h: seq<StoredEvent>)
    requires WellFormed(env, h)
    ensures Consistent(Journal(env, h)) && Distinct(Journal(env, h))
  {
    JournalEvents(env, h);
    var js := Journal(env, h);
    forall i, j | 0 <= i < j < |js| ensures js[i].row.eventId != js[j].row.eventId { assert h[i].eventId != h[j].eventId; }
  }

  lemma JournalSound(env: Env, h: seq<StoredEvent>, l: Located)
    requires l in Journal(env, h)
    ensures l.event in h && l.row.fileRef == env.FileRef(l.event.sessionId) && l.row.sessionId == l.event.sessionId
  {
    JournalEvents(env, h);
    var i :| 0 <= i < |h| && Journal(env, h)[i] == l;
  }

  // ------------------------------------------------------------- what a replay is

  ghost function Entries(ls: seq<Located>): seq<Entry> {
    seq(|ls|, i requires 0 <= i < |ls| => Entry(ls[i].row, ls[i].event.createdAt))
  }

  ghost function SessionsOf(env: Env, js: seq<Located>): map<string, Session> {
    if js == [] then map[] else UpsertSession(env, SessionsOf(env, js[..|js| - 1]), js[|js| - 1])
  }

  lemma EntriesFind(ls: seq<Located>, l: Located)
    requires forall x | x in ls && x.row.eventId == l.row.eventId :: x == l
    ensures FindRow(Entries(ls), l.row.eventId) == if l in ls then Some(l.row) else None
  {
    var r := FindRow(Entries(ls), l.row.eventId);
    if l in ls {
      var i :| 0 <= i < |ls| && ls[i] == l;
      assert Entries(ls)[i] in Entries(ls);
    }
    if r.Some? {
      var e :| e in Entries(ls) && e.row == r.value;
      var i :| 0 <= i < |ls| && Entries(ls)[i] == e;
      assert ls[i] in ls;
    }
  }

  /** A consistent journal replays without a mismatch into its rows in order of first
      occurrence. */
  lemma {:induction false} ReplayMeans(env: Env, js: seq<Located>)
    requires Consistent(js)
    ensures Replay(env, EMPTY, js) == Some(Index(Entries(Dedupe(js)), SessionsOf(env, js)))
  {
    if js == [] {
      assert Entries([]) == [];
    } else {
      var before, last := js[..|js| - 1], js[|js| - 1];
      ReplayMeans(env, before);
      DedupeMembers(before);
      EntriesFind(Dedupe(before), last);
      assert Entries(Dedupe(before) + [last]) == Entries(Dedupe(before)) + [Entry(last.row, last.event.createdAt)];
    }
  }

  lemma {:induction false} ReplaySplit(env: Env, ix: Index, a: seq<Located>, b: seq<Located>)
    ensures Replay(env, ix, a + b) ==
              if Replay(env, ix, a).None? then None else Replay(env, Replay(env, ix, a).value, b)
  {
    if b == [] {
      assert a + b == a;
    } else {
      ReplaySplit(env, ix, a, b[..|b| - 1]);
      assert (a + b)[..|a + b| - 1] == a + b[..|b| - 1];
    }
  }

  /** Rebuilding is replaying the scans of the files. */
  lemma {:induction false} RebuildIsReplay(env: Env, h: seq<StoredEvent>, files: map<string, Bytes>, refs: seq<string>, ix: Index)
    requires Framable(env, h) && Holds(env, files, h) && forall r | r in refs :: r in files
    ensures Rebuild(env, files, refs, ix) == Replay(env, ix, Walked(env, h, refs))
    decreases |refs|
  {
    if refs != [] {
      var ref := refs[0];
      var es := OfFile(env, h, ref);
      FilterMembers(h, StoredIn(env, ref));
      assert files[ref] == Frames(env, es);
      ScanWholeFile(env, ref, es);
      ReplaySplit(env, ix, FileJournal(env, h, ref), Walked(env, h, refs[1..]));
      var next := Replay(env, ix, FileJournal(env, h, ref));
      if next.Some? { RebuildIsReplay(env, h, files, refs[1..], next.value); }
    }
  }

  // ------------------------------------------------------------ the sessions table

  ghost function FirstTitle(env: Env, ls: seq<Located>): string {
    if ls == [] then ""
    else if FirstTitle(env, ls[..|ls| - 1]) != "" then FirstTitle(env, ls[..|ls| - 1])
    else env.title(ls[|ls| - 1].event)
  }

  ghost function LatestTime(ls: seq<Located>): int
    requires ls != []
  {
    if |ls| == 1 then ls[0].event.createdAt
    else
      var t := LatestTime(ls[..|ls| - 1]);
      if ls[|ls| - 1].event.createdAt > t then ls[|ls| - 1].event.createdAt else t
  }

  /** The row of a session, from the journal restricted to that session. */
  ghost predicate SessionIs(env: Env, sessions: map<string, Session>, key: string, mine: seq<Located>) {
    && (key in sessions <==> key != "" && mine != [])
    && (key in sessions ==> sessions[key] == Session(FirstTitle(env, mine), LatestTime(mine)))
  }

  /** Each session's row holds the first non-empty title and the latest time among the
      session's own events. */
  lemma {:induction false} SessionsMean(env: Env, js: seq<Located>, key: string)
    ensures SessionIs(env, SessionsOf(env, js), key, Filter(js, HasKey(env, key)))
  {
    if js != [] {
      var before, last := js[..|js| - 1], js[|js| - 1];
      SessionsMean(env, before, key);
      var mine := Filter(before, HasKey(env, key));
      assert (mine + [last])[..|mine|] == mine;
    }
  }

  lemma {:induction false} TitleOfPrefix(env: Env, p: seq<Located>, w: seq<Located>)
    requires p <= w
    ensures FirstTitle(env, p) == "" || FirstTitle(env, p) == FirstTitle(env, w)
    decreases |w|
  {
    if |p| < |w| {
      TitleOfPrefix(env, p, w[..|w| - 1]);
    } else {
      assert p == w;
    }
  }

  lemma {:induction false} TitleOfConcat(env: Env, p: seq<Located>, w: seq<Located>)
    ensures FirstTitle(env, p + w) == if FirstTitle(env, p) != "" then FirstTitle(env, p) else FirstTitle(env, w)
  {
    if w == [] {
      assert p + w == p;
    } else {
      TitleOfConcat(env, p, w[..|w| - 1]);
      assert (p + w)[..|p + w| - 1] == p + w[..|w| - 1];
    }
  }

  lemma {:induction false} TimeBounds(ls: seq<Located>)
    requires ls != []
    ensures forall l | l in ls :: l.event.createdAt <= LatestTime(ls)
    ensures exists l :: l in ls && l.event.createdAt == LatestTime(ls)
  {
    var last := ls[|ls| - 1];
    assert ls == ls[..|ls| - 1] + [last] && last in ls;
    if |ls| > 1 { TimeBounds(ls[..|ls| - 1]); }
  }

  lemma SameTime(a: seq<Located>, b: seq<Located>)
    requires a != [] && b != [] && forall l :: l in a <==> l in b
    ensures LatestTime(a) == LatestTime(b)
  {
    TimeBounds(a);
    TimeBounds(b);
  }

  // ------------------------------------------------------------------ load order

  ghost predicate ByTime(s: seq<Entry>) {
    forall i, j | 0 <= i < j < |s| :: s[i].createdAt <= s[j].createdAt
  }

  lemma {:induction false} InsertMembers(s: seq<Entry>, x: Entry)
    ensures forall y :: y in InsertByTime(s, x) <==> y == x || y in s
    ensures ByTime(s) ==> ByTime(InsertByTime(s, x))
  {
    if !(s == [] || s[|s| - 1].createdAt <= x.createdAt) {
      InsertMembers(s[..|s| - 1], x);
      assert s == s[..|s| - 1] + [s[|s| - 1]];
      if ByTime(s) {
        var inner := InsertByTime(s[..|s| - 1], x);
        forall i | 0 <= i < |inner| ensures inner[i].createdAt <= s[|s| - 1].createdAt {
          assert inner[i] in inner;
        }
      }
    }
  }

  lemma {:induction false} LoadMembers(rows: seq<Entry>)
    ensures forall y :: y in LoadOrder(rows) <==> y in rows
    ensures ByTime(LoadOrder(rows))
  {
    if rows != [] {
      LoadMembers(rows[..|rows| - 1]);
      InsertMembers(LoadOrder(rows[..|rows| - 1]), rows[|rows| - 1]);
      assert rows == rows[..|rows| - 1] + [rows[|rows| - 1]];
    }
  }

  lemma {:induction false} FilterInsert(s: seq<Entry>, x: Entry, p: Entry -> bool)
    requires ByTime(s)
    ensures Filter(InsertByTime(s, x), p) == if p(x) then InsertByTime(Filter(s, p), x) else Filter(s, p)
  {
    if s == [] || s[|s| - 1].createdAt <= x.createdAt {
      assert (s + [x])[..|s|] == s;
      FilterMembers(s, p);
      var f := Filter(s, p);
      if f != [] { assert f[|f| - 1] in s; }
    } else {
      var front, last := s[..|s| - 1], s[|s| - 1];
      FilterInsert(front, x, p);
      var inner := InsertByTime(front, x);
      assert (inner + [last])[..|inner|] == inner;
      var f := Filter(front, p);
      assert (f + [last])[..|f|] == f;
    }
  }

  /** The load order of some of the rows does not depend on the others. */
  lemma {:induction false} FilterLoadOrder(rows: seq<Entry>, p: Entry -> bool)
    ensures Filter(LoadOrder(rows), p) == LoadOrder(Filter(rows, p))
  {
    if rows != [] {
      var front, last := rows[..|rows| - 1], rows[|rows| - 1];
      FilterLoadOrder(front, p);
      LoadMembers(front);
      FilterInsert(LoadOrder(front), last, p);
      var f := Filter(front, p);
      assert (f + [last])[..|f|] == f;
    }
  }

  lemma {:induction false} SortedIsLoadOrder(rows: seq<Entry>)
    requires ByTime(rows)
    ensures LoadOrder(rows) == rows
  {
    if rows != [] {
      SortedIsLoadOrder(rows[..|rows| - 1]);
    }
  }

  // ----------------------------------------------------------- files and sessions

  /** `refs` lists every event file once, in any order. */
  ghost predicate ListsFiles(env: Env, h: seq<StoredEvent>, refs: seq<string>) {
    Distinct(refs) && forall ref :: ref in refs <==> HasFile(env, h, ref)
  }

  /** The index was built from events of the history, in whatever order and however
      often: it may have lost any of them. */
  ghost predicate Indexed(env: Env, h: seq<StoredEvent>, sub: seq<Located>) {
    forall l | l in sub :: l in Journal(env, h)
  }

  /** What the index holds of each file is the beginning of that file. */
  ghost predicate HoldsPrefixes(env: Env, h: seq<StoredEvent>, sub: seq<Located>) {
    forall ref :: Filter(sub, InFile(ref)) <= FileJournal(env, h, ref)
  }

  lemma PrefixesAreIndexed(env: Env, h: seq<StoredEvent>, sub: seq<Located>)
    requires HoldsPrefixes(env, h, sub)
    ensures Indexed(env, h, sub)
  {
    forall l | l in sub ensures l in Journal(env, h) {
      var ref := l.row.fileRef;
      FilterMembers(sub, InFile(ref));
      assert l in Filter(sub, InFile(ref));
      JournalByFile(env, h, ref);
      FilterMembers(Journal(env, h), InFile(ref));
    }
  }

  lemma {:induction false} WalkedByFile(env: Env, h: seq<StoredEvent>, refs: seq<string>, ref: string)
    requires Distinct(refs)
    ensures Filter(Walked(env, h, refs), InFile(ref)) == if ref in refs then FileJournal(env, h, ref) else []
    decreases |refs|
  {
    if refs != [] {
      var first := FileJournal(env, h, refs[0]);
      assert refs == [refs[0]] + refs[1..];
      WalkedByFile(env, h, refs[1..], ref);
      FilterSplit(first, Walked(env, h, refs[1..]), InFile(ref));
      FileOfOne(env, h, refs[0], ref);
      if refs[0] == ref {
        assert ref !in refs[1..];
        assert first + [] == first;
      }
    }
  }

  /** The scan of one file has events of that file only. */
  lemma FileOfOne(env: Env, h: seq<StoredEvent>, r: string, ref: string)
    ensures Filter(FileJournal(env, h, r), InFile(ref)) == if r == ref then FileJournal(env, h, r) else []
  {
    JournalByFile(env, h, r);
    FilterMembers(Journal(env, h), InFile(r));
    if r == ref { FilterAll(FileJournal(env, h, r), InFile(ref)); } else { FilterNone(FileJournal(env, h, r), InFile(ref)); }
  }

  lemma WalkedFile(env: Env, h: seq<StoredEvent>, refs: seq<string>, ref: string)
    requires ListsFiles(env, h, refs)
    ensures Filter(Walked(env, h, refs), InFile(ref)) == FileJournal(env, h, ref)
  {
    WalkedByFile(env, h, refs, ref);
    FilterMembers(h, StoredIn(env, ref));
    if ref !in refs { FilterNone(h, StoredIn(env, ref)); }
  }

  lemma WalkedMembers(env: Env, h: seq<StoredEvent>, refs: seq<string>)
    requires ListsFiles(env, h, refs)
    ensures forall l :: l in Walked(env, h, refs) <==> l in Journal(env, h)
  {
    forall l ensures l in Walked(env, h, refs) <==> l in Journal(env, h) {
      var ref := l.row.fileRef;
      WalkedFile(env, h, refs, ref);
      JournalByFile(env, h, ref);
      FilterMembers(Walked(env, h, refs), InFile(ref));
      FilterMembers(Journal(env, h), InFile(ref));
      assert l in Walked(env, h, refs) <==> l in FileJournal(env, h, ref);
    }
  }

  /** All events of a session are in one file. */
  lemma SessionInFile(env: Env, h: seq<StoredEvent>, js: seq<Located>, key: string)
    requires Indexed(env, h, js) && key != ""
    ensures Filter(Filter(js, InFile(env.fileName(key))), HasKey(env, key)) == Filter(js, HasKey(env, key))
  {
    forall l | l in js && HasKey(env, key)(l) ensures InFile(env.fileName(key))(l) { JournalSound(env, h, l); }
    FilterTwice(js, HasKey(env, key), InFile(env.fileName(key)));
  }

  lemma WalkedByKey(env: Env, h: seq<StoredEvent>, refs: seq<string>, key: string)
    requires ListsFiles(env, h, refs) && key != ""
    ensures Filter(Walked(env, h, refs), HasKey(env, key)) == Filter(Journal(env, h), HasKey(env, key))
  {
    WalkedMembers(env, h, refs);
    SessionInFile(env, h, Walked(env, h, refs), key);
    SessionInFile(env, h, Journal(env, h), key);
    WalkedFile(env, h, refs, env.fileName(key));
    JournalByFile(env, h, env.fileName(key));
  }

  /** Two journals with the same events give the same sessions table exactly when
      every session's first title agrees. */
  lemma SessionsAgree(env: Env, a: seq<Located>, b: seq<Located>)
    requires forall l :: l in a <==> l in b
    ensures SessionsOf(env, a) == SessionsOf(env, b) <==>
            forall key: string | key != "" :: FirstTitle(env, Filter(a, HasKey(env, key))) == FirstTitle(env, Filter(b, HasKey(env, key)))
  {
    var sa, sb := SessionsOf(env, a), SessionsOf(env, b);
    forall key: string
      ensures (key in sa <==> key in sb) && (key in sa ==> sa[key].updatedAt == sb[key].updatedAt)
      ensures key != "" ==> ((key in sa ==> sa[key] == sb[key]) <==>
                             FirstTitle(env, Filter(a, HasKey(env, key))) == FirstTitle(env, Filter(b, HasKey(env, key))))
    {
      var fa, fb := Filter(a, HasKey(env, key)), Filter(b, HasKey(env, key));
      SessionsMean(env, a, key);
      SessionsMean(env, b, key);
      FilterMembers(a, HasKey(env, key));
      FilterMembers(b, HasKey(env, key));
      assert fa == [] <==> fb == [] by {
        if fa != [] { assert fa[0] in fb; }
        if fb != [] { assert fb[0] in fa; }
      }
      if fa != [] { SameTime(fa, fb); }
    }
    if forall key: string | key != "" :: FirstTitle(env, Filter(a, HasKey(env, key))) == FirstTitle(env, Filter(b, HasKey(env, key))) {
      forall key | key in sa ensures sa[key] == sb[key] { SessionsMean(env, a, key); }
      assert sa == sb;
    }
  }

  // --------------------------------------------------------------- the theorems

  /** The index no transaction of which was lost. */
  ghost function NeverLost(env: Env, h: seq<StoredEvent>): Index {
    Index(Entries(Journal(env, h)), SessionsOf(env, Journal(env, h)))
  }

  /** The index after the events in `sub` were indexed. */
  ghost function Stale(env: Env, sub: seq<Located>): Index {
    Index(Entries(Dedupe(sub)), SessionsOf(env, sub))
  }

  lemma {:induction false} DedupeAbsorbs<T(!new)>(a: seq<T>, b: seq<T>)
    requires forall x | x in b :: x in a
    ensures Dedupe(a + b) == Dedupe(a)
  {
    if b == [] {
      assert a + b == a;
    } else {
      DedupeAbsorbs(a, b[..|b| - 1]);
      DedupeMembers(a);
      assert (a + b)[..|a + b| - 1] == a + b[..|b| - 1];
    }
  }

  /** Appending every event, with every index transaction committed, gives the index
      that was never lost. */
  lemma AppendsGiveNeverLost(env: Env, h: seq<StoredEvent>)
    requires WellFormed(env, h)
    ensures Replay(env, EMPTY, Journal(env, h)) == Some(NeverLost(env, h))
  {
    JournalConsistent(env, h);
    ReplayMeans(env, Journal(env, h));
    DedupeDistinct(Journal(env, h));
  }

  lemma SubConsistent(env: Env, h: seq<StoredEvent>, js: seq<Located>)
    requires WellFormed(env, h) && Indexed(env, h, js)
    ensures Consistent(js)
  {
    JournalConsistent(env, h);
  }

  lemma {:induction false} DedupeTitle(env: Env, ls: seq<Located>)
    ensures FirstTitle(env, Dedupe(ls)) == FirstTitle(env, ls)
  {
    if ls != [] {
      var before, last := ls[..|ls| - 1], ls[|ls| - 1];
      DedupeTitle(env, before);
      var d := Dedupe(before);
      if last in d {
        DedupeMembers(before);
        if env.title(last.event) != "" { TitleOfMember(env, before, last); }
      } else {
        assert (d + [last])[..|d|] == d;
      }
    }
  }

  lemma {:induction false} TitleOfMember(env: Env, ls: seq<Located>, l: Located)
    requires l in ls && env.title(l.event) != ""
    ensures FirstTitle(env, ls) != ""
  {
    if l in ls[..|ls| - 1] { TitleOfMember(env, ls[..|ls| - 1], l); }
  }

  /** Indexing an event again changes nothing. */
  lemma StaleDedupe(env: Env, ls: seq<Located>)
    ensures Stale(env, Dedupe(ls)) == Stale(env, ls)
  {
    DedupeMembers(ls);
    DedupeDistinct(Dedupe(ls));
    forall key: string
      ensures FirstTitle(env, Filter(Dedupe(ls), HasKey(env, key))) == FirstTitle(env, Filter(ls, HasKey(env, key)))
    {
      FilterDedupe(ls, HasKey(env, key));
      DedupeTitle(env, Filter(ls, HasKey(env, key)));
    }
    SessionsAgree(env, Dedupe(ls), ls);
  }

  /** A rebuild over any stale index replays what was indexed and then the files. */
  lemma RebuildMeans(env: Env, h: seq<StoredEvent>, files: map<string, Bytes>, refs: seq<string>, sub: seq<Located>)
    requires WellFormed(env, h) && Holds(env, files, h) && ListsFiles(env, h, refs) && Indexed(env, h, sub)
    ensures Rebuild(env, files, refs, Stale(env, sub)) == Some(Stale(env, sub + Walked(env, h, refs)))
    ensures Indexed(env, h, sub + Walked(env, h, refs))
  {
    var w := Walked(env, h, refs);
    WalkedMembers(env, h, refs);
    SubConsistent(env, h, sub);
    ReplayMeans(env, sub);
    RebuildIsReplay(env, h, files, refs, Stale(env, sub));
    ReplaySplit(env, EMPTY, sub, w);
    SubConsistent(env, h, sub + w);
    ReplayMeans(env, sub + w);
  }

  /** Whatever the index had lost, a rebuild restores exactly the rows of the history,
      and a second rebuild changes nothing. */
  lemma RebuildRestoresRows(env: Env, h: seq<StoredEvent>, files: map<string, Bytes>, refs: seq<string>, sub: seq<Located>)
    requires WellFormed(env, h) && Holds(env, files, h) && ListsFiles(env, h, refs) && Indexed(env, h, sub)
    ensures var r := Rebuild(env, files, refs, Stale(env, sub));
            && r.Some?
            && |r.value.rows| == |NeverLost(env, h).rows|
            && (forall x :: x in r.value.rows <==> x in NeverLost(env, h).rows)
            && Rebuild(env, files, refs, r.value) == r
  {
    var w := Walked(env, h, refs);
    RebuildMeans(env, h, files, refs, sub);
    RebuildMeans(env, h, files, refs, sub + w);
    WalkedMembers(env, h, refs);
    DedupeAbsorbs(sub + w, w);
    DedupeMembers(sub + w);
    JournalConsistent(env, h);
    SameSize(Dedupe(sub + w), Journal(env, h));
    EntriesMembers(Dedupe(sub + w), Journal(env, h));
    RepeatKeepsSessions(env, sub, w);
  }

  lemma RepeatKeepsSessions(env: Env, sub: seq<Located>, w: seq<Located>)
    ensures SessionsOf(env, sub + w + w) == SessionsOf(env, sub + w)
  {
    forall key: string
      ensures FirstTitle(env, Filter(sub + w + w, HasKey(env, key))) == FirstTitle(env, Filter(sub + w, HasKey(env, key)))
    {
      var p := HasKey(env, key);
      FilterSplit(sub + w, w, p);
      FilterSplit(sub, w, p);
      TitleOfConcat(env, Filter(sub + w, p), Filter(w, p));
      TitleOfConcat(env, Filter(sub, p), Filter(w, p));
    }
    SessionsAgree(env, sub + w + w, sub + w);
  }

  lemma {:induction false} SameSize<T(!new)>(a: seq<T>, b: seq<T>)
    requires Distinct(a) && Distinct(b) && forall x :: x in a <==> x in b
    ensures |a| == |b|
  {
    SetSize(a);
    SetSize(b);
    assert (set x | x in a) == (set x | x in b);
  }

  lemma {:induction false} SetSize<T(!new)>(a: seq<T>)
    requires Distinct(a)
    ensures |set x | x in a| == |a|
  {
    if a != [] {
      var front, last := a[..|a| - 1], a[|a| - 1];
      SetSize(front);
      assert last !in front;
      assert (set x | x in a) == (set x | x in front) + {last};
    }
  }

  lemma EntriesMembers(a: seq<Located>, b: seq<Located>)
    requires forall l :: l in a <==> l in b
    ensures forall x :: x in Entries(a) <==> x in Entries(b)
  {
    forall x ensures x in Entries(a) <==> x in Entries(b) {
      if i :| 0 <= i < |a| && Entries(a)[i] == x {
        assert a[i] in b;
        var j :| 0 <= j < |b| && b[j] == a[i];
        assert Entries(b)[j] == x;
      }
      if i :| 0 <= i < |b| && Entries(b)[i] == x {
        assert b[i] in a;
        var j :| 0 <= j < |a| && a[j] == b[i];
        assert Entries(a)[j] == x;
      }
    }
  }

  /** The sessions table comes back exactly when, for every session, the first title
      the index had seen, if any, is the first title of the session. */
  lemma RebuildRestoresSessionsIff(env: Env, h: seq<StoredEvent>, files: map<string, Bytes>, refs: seq<string>, sub: seq<Located>)
    requires WellFormed(env, h) && Holds(env, files, h) && ListsFiles(env, h, refs) && Indexed(env, h, sub)
    ensures var r := Rebuild(env, files, refs, Stale(env, sub));
            r.Some? &&
            (r.value.sessions == NeverLost(env, h).sessions <==>
             forall key: string | key != "" ::
               var had := FirstTitle(env, Filter(sub, HasKey(env, key)));
               had == "" || had == FirstTitle(env, Filter(Journal(env, h), HasKey(env, key))))
  {
    var w := Walked(env, h, refs);
    RebuildMeans(env, h, files, refs, sub);
    WalkedMembers(env, h, refs);
    SessionsAgree(env, sub + w, Journal(env, h));
    forall key: string | key != ""
      ensures var had := FirstTitle(env, Filter(sub, HasKey(env, key)));
              var all := FirstTitle(env, Filter(Journal(env, h), HasKey(env, key)));
              FirstTitle(env, Filter(sub + w, HasKey(env, key))) == if had != "" then had else all
    {
      FilterSplit(sub, w, HasKey(env, key));
      WalkedByKey(env, h, refs, key);
      TitleOfConcat(env, Filter(sub, HasKey(env, key)), Filter(w, HasKey(env, key)));
    }
  }

  lemma PrefixTitle(env: Env, h: seq<StoredEvent>, sub: seq<Located>, key: string)
    requires HoldsPrefixes(env, h, sub) && key != ""
    ensures var had := FirstTitle(env, Filter(sub, HasKey(env, key)));
            had == "" || had == FirstTitle(env, Filter(Journal(env, h), HasKey(env, key)))
  {
    var ref := env.fileName(key);
    PrefixesAreIndexed(env, h, sub);
    SessionInFile(env, h, sub, key);
    SessionInFile(env, h, Journal(env, h), key);
    JournalByFile(env, h, ref);
    FilterPrefix(Filter(sub, InFile(ref)), FileJournal(env, h, ref), HasKey(env, key));
    TitleOfPrefix(env, Filter(sub, HasKey(env, key)), Filter(Journal(env, h), HasKey(env, key)));
  }

  lemma {:induction false} FilterEntries(ls: seq<Located>, ref: string)
    ensures Filter(Entries(ls), RowInFile(ref)) == Entries(Filter(ls, InFile(ref)))
  {
    if ls == [] {
      assert Entries([]) == [];
    } else {
      var front, last := ls[..|ls| - 1], ls[|ls| - 1];
      FilterEntries(front, ref);
      assert Entries(ls)[..|ls| - 1] == Entries(front);
      var f := Filter(front, InFile(ref));
      assert Entries(f + [last]) == Entries(f) + [Entry(last.row, last.event.createdAt)];
    }
  }

  /** The index agrees with the one that was never lost: the same rows in the same order
      file by file, the same sessions table, and every session loads in the same order. */
  ghost predicate Restored(env: Env, h: seq<StoredEvent>, ix: Index) {
    && (forall ref :: Filter(ix.rows, RowInFile(ref)) == Filter(NeverLost(env, h).rows, RowInFile(ref)))
    && ix.sessions == NeverLost(env, h).sessions
    && (forall sid :: Filter(LoadOrder(ix.rows), RowInSession(sid)) == Filter(LoadOrder(NeverLost(env, h).rows), RowInSession(sid)))
  }

  /** When the index holds the beginning of each file, empty included, a rebuild restores
      it completely. */
  lemma RebuildRestoresPrefixIndex(env: Env, h: seq<StoredEvent>, files: map<string, Bytes>, refs: seq<string>, sub: seq<Located>)
    requires WellFormed(env, h) && Holds(env, files, h) && ListsFiles(env, h, refs) && HoldsPrefixes(env, h, sub)
    ensures var r := Rebuild(env, files, refs, Stale(env, sub)); r.Some? && Restored(env, h, r.value)
  {
    PrefixesAreIndexed(env, h, sub);
    RebuildMeans(env, h, files, refs, sub);
    RebuildRestoresSessionsIff(env, h, files, refs, sub);
    forall key: string | key != ""
      ensures var had := FirstTitle(env, Filter(sub, HasKey(env, key)));
              had == "" || had == FirstTitle(env, Filter(Journal(env, h), HasKey(env, key)))
    {
      PrefixTitle(env, h, sub, key);
    }
    var js := sub + Walked(env, h, refs);
    forall ref ensures Filter(Entries(Dedupe(js)), RowInFile(ref)) == Filter(NeverLost(env, h).rows, RowInFile(ref)) {
      SameRowsPerFile(env, h, refs, sub, ref);
    }
    forall sid
      ensures Filter(LoadOrder(Entries(Dedupe(js))), RowInSession(sid))
           == Filter(LoadOrder(NeverLost(env, h).rows), RowInSession(sid))
    {
      DedupeMembers(js);
      SameSessionOrder(env, h, Dedupe(js), sid);
    }
  }

  lemma DedupedFile(env: Env, h: seq<StoredEvent>, refs: seq<string>, sub: seq<Located>, ref: string)
    requires WellFormed(env, h) && ListsFiles(env, h, refs) && HoldsPrefixes(env, h, sub)
    ensures Filter(Dedupe(sub + Walked(env, h, refs)), InFile(ref)) == FileJournal(env, h, ref)
  {
    var w := FileJournal(env, h, ref);
    FilterDedupe(sub + Walked(env, h, refs), InFile(ref));
    FilterSplit(sub, Walked(env, h, refs), InFile(ref));
    WalkedFile(env, h, refs, ref);
    assert Distinct(w) by {
      JournalByFile(env, h, ref);
      JournalConsistent(env, h);
      FilterDistinct(Journal(env, h), InFile(ref));
    }
    DedupePrefix(Filter(sub, InFile(ref)), w, |w|);
    assert w[..|w|] == w;
  }

  lemma {:induction false} DedupeConcat<T(!new)>(a: seq<T>, b: seq<T>)
    ensures Dedupe(Dedupe(a) + b) == Dedupe(a + b)
  {
    if b == [] {
      assert Dedupe(a) + b == Dedupe(a) && a + b == a;
      DedupeMembers(a);
      DedupeDistinct(Dedupe(a));
    } else {
      DedupeConcat(a, b[..|b| - 1]);
      assert (Dedupe(a) + b)[..|Dedupe(a) + b| - 1] == Dedupe(a) + b[..|b| - 1];
      assert (a + b)[..|a + b| - 1] == a + b[..|b| - 1];
    }
  }

  /** The index has every event of every file, in file order. */
  ghost predicate Complete(env: Env, h: seq<StoredEvent>, js: seq<Located>) {
    forall ref :: Filter(Dedupe(js), InFile(ref)) == FileJournal(env, h, ref)
  }

  /** The same for an index that was rebuilt and appended to any number of times: `js` is
      all it ever met, in order. The rebuilt index is complete. */
  lemma ReopenRestores(env: Env, h: seq<StoredEvent>, files: map<string, Bytes>, refs: seq<string>, js: seq<Located>)
    requires WellFormed(env, h) && Holds(env, files, h) && ListsFiles(env, h, refs) && HoldsPrefixes(env, h, Dedupe(js))
    ensures var r := Rebuild(env, files, refs, Stale(env, js)); r.Some? && Restored(env, h, r.value)
    ensures Complete(env, h, js + Walked(env, h, refs))
  {
    StaleDedupe(env, js);
    RebuildRestoresPrefixIndex(env, h, files, refs, Dedupe(js));
    DedupeConcat(js, Walked(env, h, refs));
    forall ref ensures Filter(Dedupe(js + Walked(env, h, refs)), InFile(ref)) == FileJournal(env, h, ref) {
      DedupedFile(env, h, refs, Dedupe(js), ref);
    }
  }

  lemma SameRowsPerFile(env: Env, h: seq<StoredEvent>, refs: seq<string>, sub: seq<Located>, ref: string)
    requires WellFormed(env, h) && ListsFiles(env, h, refs) && HoldsPrefixes(env, h, sub)
    ensures var js := sub + Walked(env, h, refs);
            Filter(Entries(Dedupe(js)), RowInFile(ref)) == Filter(NeverLost(env, h).rows, RowInFile(ref))
  {
    FilterEntries(Dedupe(sub + Walked(env, h, refs)), ref);
    FilterEntries(Journal(env, h), ref);
    DedupedFile(env, h, refs, sub, ref);
    JournalByFile(env, h, ref);
  }

  lemma {:induction false} FilterDistinct<T(!new)>(s: seq<T>, p: T -> bool)
    requires Distinct(s)
    ensures Distinct(Filter(s, p))
  {
    if s != [] {
      FilterDistinct(s[..|s| - 1], p);
      FilterMembers(s[..|s| - 1], p);
    }
  }

  lemma SameSessionOrder(env: Env, h: seq<StoredEvent>, ls: seq<Located>, sid: string)
    requires Indexed(env, h, ls)
    requires forall ref :: Filter(Entries(ls), RowInFile(ref)) == Filter(NeverLost(env, h).rows, RowInFile(ref))
    ensures Filter(LoadOrder(Entries(ls)), RowInSession(sid)) == Filter(LoadOrder(NeverLost(env, h).rows), RowInSession(sid))
  {
    var ref := env.FileRef(sid);
    SessionRowsInFile(env, h, ls, sid);
    SessionRowsInFile(env, h, Journal(env, h), sid);
    FilterTwice(Entries(ls), RowInSession(sid), RowInFile(ref));
    FilterTwice(NeverLost(env, h).rows, RowInSession(sid), RowInFile(ref));
    FilterLoadOrder(Entries(ls), RowInSession(sid));
    FilterLoadOrder(NeverLost(env, h).rows, RowInSession(sid));
  }

  lemma SessionRowsInFile(env: Env, h: seq<StoredEvent>, ls: seq<Located>, sid: string)
    requires Indexed(env, h, ls)
    ensures forall x | x in Entries(ls) && RowInSession(sid)(x) :: RowInFile(env.FileRef(sid))(x)
  {
    forall x | x in Entries(ls) && RowInSession(sid)(x) ensures RowInFile(env.FileRef(sid))(x) {
      var i :| 0 <= i < |ls| && Entries(ls)[i] == x;
      assert ls[i] in ls;
      JournalSound(env, h, ls[i]);
    }
  }

  // ------------------------------------------------------------- duplicate ids

  lemma {:induction false} ReplayedRowsAreFound(env: Env, ix: Index, js: seq<Located>, l: Located)
    requires Replay(env, ix, js).Some? && l in js
    ensures FindRow(Replay(env, ix, js).value.rows, l.row.eventId) == Some(l.row)
  {
    var before, last := js[..|js| - 1], js[|js| - 1];
    assert js == before + [last];
    if l in before { ReplayedRowsAreFound(env, ix, before, l); }
    ReconcileFinds(env, Replay(env, ix, before).value, last, l.row);
  }

  lemma ReconcileFinds(env: Env, ix: Index, l: Located, row: Row)
    requires Reconcile(env, ix, l).Some? && (l.row == row || FindRow(ix.rows, row.eventId) == Some(row))
    ensures FindRow(Reconcile(env, ix, l).value.rows, row.eventId) == Some(row)
  {
    FindRowAppend(ix.rows, Entry(l.row, l.event.createdAt), row.eventId);
  }

  lemma {:induction false} FindRowAppend(rows: seq<Entry>, x: Entry, id: string)
    ensures FindRow(rows + [x], id) ==
              if FindRow(rows, id).Some? then FindRow(rows, id) else if x.row.eventId == id then Some(x.row) else None
  {
    if rows != [] {
      FindRowAppend(rows[1..], x, id);
      assert (rows + [x])[1..] == rows[1..] + [x];
    }
  }

  /** Where each frame of a file starts. */
  lemma {:induction false} LocateAt(env: Env, es: seq<StoredEvent>, k: nat)
    requires k < |es|
    ensures |LocateAll(env, es, 0)| == |es| && LocateAll(env, es, 0)[k] == Locate(env, es[k], |Frames(env, es[..k])|)
  {
    var front := es[..|es| - 1];
    LocateSnoc(env, front, es[|es| - 1], 0);
    assert es == front + [es[|es| - 1]];
    if front != [] { LocateAt(env, front, if k < |front| then k else 0); }
    if k < |front| {
      assert front[..k] == es[..k];
    } else {
      assert front == es[..k];
    }
  }

  lemma JournalPosition(env: Env, h: seq<StoredEvent>, l: Located) returns (k: nat)
    requires l in Journal(env, h)
    ensures var es := OfFile(env, h, l.row.fileRef); k < |es| && l == Locate(env, es[k], |Frames(env, es[..k])|)
  {
    var ref := l.row.fileRef;
    JournalByFile(env, h, ref);
    FilterMembers(Journal(env, h), InFile(ref));
    assert l in FileJournal(env, h, ref);
    var es := OfFile(env, h, ref);
    k :| 0 <= k < |FileJournal(env, h, ref)| && FileJournal(env, h, ref)[k] == l;
    if es != [] { LocateAt(env, es, 0); }
    LocateAt(env, es, k);
  }

  lemma FramesOne(env: Env, e: StoredEvent)
    ensures Frames(env, [e]) == Frame(env.encode(e))
  {
    var f := Framer(env);
    assert Concat(f, [e]) == f(e) + Concat(f, [e][1..]) && Concat(f, [e][1..]) == [];
    assert f(e) + [] == f(e);
  }

  lemma FramesAround(env: Env, es: seq<StoredEvent>, k: nat)
    requires k < |es|
    ensures Frames(env, es) == Frames(env, es[..k]) + Frame(env.encode(es[k])) + Frames(env, es[k + 1..])
  {
    assert es == es[..k] + [es[k]] + es[k + 1..];
    FramesSplit(env, es[..k] + [es[k]], es[k + 1..]);
    FramesSplit(env, es[..k], [es[k]]);
    FramesOne(env, es[k]);
  }

  /** Every indexed event is read back from the files as it was appended. */
  lemma IndexedEventsReadBack(env: Env, h: seq<StoredEvent>, files: map<string, Bytes>, l: Located)
    requires Framable(env, h) && Holds(env, files, h) && l in Journal(env, h)
    ensures ReadEvent(env, files, l.row) == Some(l.event)
  {
    JournalSound(env, h, l);
    var ref := l.row.fileRef;
    var es := OfFile(env, h, ref);
    var k := JournalPosition(env, h, l);
    FramesAround(env, es, k);
    ReadsBack(env, files, ref, es[..k], es[k], Frames(env, es[k + 1..]));
  }
}
