/** The rebuildable index over the event files: its rows, its sessions table, the load
    order, and the reconciliation of a possibly stale index with the files
    (internal/kernel/sqlite_ledger.go). */
module LedgerIndex {
  import opened Wrappers
  import opened LedgerFrames

  datatype Session = Session(title: string, updatedAt: int)

  /** A row of session_events; its position in the table is its sequence number. */
  datatype Entry = Entry(row: Row, createdAt: int)

  datatype Index = Index(rows: seq<Entry>, sessions: map<string, Session>)

  const EMPTY: Index := Index([], map[])

  // --------------------------------------------------------- what the code does

  function SessionKey(env: Env, l: Located): string { env.trim(l.event.sessionId) }

  /** First non-empty title wins; the latest time wins. */
  function UpsertSession(env: Env, sessions: map<string, Session>, l: Located): map<string, Session> {
    var key := SessionKey(env, l);
    var title := env.title(l.event);
    if key == "" then sessions
    else if key !in sessions then sessions[key := Session(title, l.event.createdAt)]
    else
      var seen := sessions[key];
      sessions[key := Session(if seen.title == "" && title != "" then title else seen.title,
                              if l.event.createdAt > seen.updatedAt then l.event.createdAt else seen.updatedAt)]
  }

  function FindRow(rows: seq<Entry>, id: string): (r: Option<Row>)
    ensures r.Some? ==> r.value.eventId == id && exists e :: e in rows && e.row == r.value
    ensures r.None? ==> forall e | e in rows :: e.row.eventId != id
  {
    if rows == [] then None
    else if rows[0].row.eventId == id then Some(rows[0].row)
    else FindRow(rows[1..], id)
  }

  /** One event met in a file, or appended: `None` is "indexed metadata mismatch". */
  function Reconcile(env: Env, ix: Index, l: Located): Option<Index> {
    match FindRow(ix.rows, l.row.eventId)
    case Some(row) => if row != l.row then None else Some(ix.(sessions := UpsertSession(env, ix.sessions, l)))
    case None => Some(Index(ix.rows + [Entry(l.row, l.event.createdAt)], UpsertSession(env, ix.sessions, l)))
  }

  function Replay(env: Env, ix: Index, ls: seq<Located>): Option<Index> {
    if ls == [] then Some(ix)
    else
      match Replay(env, ix, ls[..|ls| - 1])
      case None => None
      case Some(before) => Reconcile(env, before, ls[|ls| - 1])
  }

  function ReconcileFile(env: Env, ix: Index, ref: string, bytes: Bytes): Option<Index> {
    match Scan(env, ref, bytes, 0)
    case None => None
    case Some(ls) => Replay(env, ix, ls)
  }

  /** The rebuild: the files in the order the directory walk gives them. */
  function Rebuild(env: Env, files: map<string, Bytes>, refs: seq<string>, ix: Index): Option<Index>
    requires forall r | r in refs :: r in files
  {
    if refs == [] then Some(ix)
    else
      match ReconcileFile(env, ix, refs[0], files[refs[0]])
      case None => None
      case Some(next) => Rebuild(env, files, refs[1..], next)
  }

  /** ORDER BY created_at, seq: a stable sort of the rows by time. */
  function InsertByTime(s: seq<Entry>, x: Entry): seq<Entry> {
    if s == [] || s[|s| - 1].createdAt <= x.createdAt then s + [x]
    else InsertByTime(s[..|s| - 1], x) + [s[|s| - 1]]
  }

  function LoadOrder(rows: seq<Entry>): seq<Entry> {
    if rows == [] then [] else InsertByTime(LoadOrder(rows[..|rows| - 1]), rows[|rows| - 1])
  }

  // --------------------------------------------------------- sequences in general

  ghost function Filter<T(!new)>(s: seq<T>, p: T -> bool): seq<T> {
    if s == [] then []
    else if p(s[|s| - 1]) then Filter(s[..|s| - 1], p) + [s[|s| - 1]]
    else Filter(s[..|s| - 1], p)
  }

  /** The members in order of first occurrence. */
  ghost function Dedupe<T(!new)>(s: seq<T>): seq<T> {
    if s == [] then []
    else
      var before := Dedupe(s[..|s| - 1]);
      if s[|s| - 1] in before then before else before + [s[|s| - 1]]
  }

  ghost predicate Distinct<T(!new)>(s: seq<T>) {
    forall i, j | 0 <= i < j < |s| :: s[i] != s[j]
  }

  lemma {:induction false} FilterMembers<T(!new)>(s: seq<T>, p: T -> bool)
    ensures forall x :: x in Filter(s, p) <==> x in s && p(x)
  {
    if s != [] {
      FilterMembers(s[..|s| - 1], p);
      assert s == s[..|s| - 1] + [s[|s| - 1]];
    }
  }

  lemma {:induction false} FilterSplit<T(!new)>(a: seq<T>, b: seq<T>, p: T -> bool)
    ensures Filter(a + b, p) == Filter(a, p) + Filter(b, p)
  {
    if b == [] {
      assert a + b == a;
    } else {
      FilterSplit(a, b[..|b| - 1], p);
      assert (a + b)[..|a + b| - 1] == a + b[..|b| - 1];
    }
  }

  lemma FilterPrefix<T(!new)>(a: seq<T>, b: seq<T>, p: T -> bool)
    requires a <= b
    ensures Filter(a, p) <= Filter(b, p)
  {
    assert b == a + b[|a|..];
    FilterSplit(a, b[|a|..], p);
  }

  lemma {:induction false} FilterNone<T(!new)>(s: seq<T>, p: T -> bool)
    requires forall x | x in s :: !p(x)
    ensures Filter(s, p) == []
  {
    if s != [] { FilterNone(s[..|s| - 1], p); }
  }

  lemma {:induction false} FilterAll<T(!new)>(s: seq<T>, p: T -> bool)
    requires forall x | x in s :: p(x)
    ensures Filter(s, p) == s
  {
    if s != [] { FilterAll(s[..|s| - 1], p); }
  }

  lemma {:induction false} FilterTwice<T(!new)>(s: seq<T>, p: T -> bool, q: T -> bool)
    requires forall x | x in s && p(x) :: q(x)
    ensures Filter(Filter(s, q), p) == Filter(s, p)
  {
    if s != [] {
      FilterTwice(s[..|s| - 1], p, q);
      var last, rest := s[|s| - 1], Filter(s[..|s| - 1], q);
      assert (rest + [last])[..|rest + [last]| - 1] == rest;
    }
  }

  lemma {:induction false} DedupeMembers<T(!new)>(s: seq<T>)
    ensures Distinct(Dedupe(s)) && forall x :: x in Dedupe(s) <==> x in s
  {
    if s != [] {
      DedupeMembers(s[..|s| - 1]);
      assert s == s[..|s| - 1] + [s[|s| - 1]];
    }
  }

  lemma {:induction false} FilterDedupe<T(!new)>(s: seq<T>, p: T -> bool)
    ensures Filter(Dedupe(s), p) == Dedupe(Filter(s, p))
  {
    if s != [] {
      var before, last := s[..|s| - 1], s[|s| - 1];
      FilterDedupe(before, p);
      FilterMembers(before, p);
      DedupeMembers(before);
      DedupeMembers(Filter(before, p));
      var d := Dedupe(before);
      assert (d + [last])[..|d|] == d;
      var f := Filter(before, p);
      assert (f + [last])[..|f|] == f;
    }
  }

  lemma {:induction false} DedupeDistinct<T(!new)>(p: seq<T>)
    requires Distinct(p)
    ensures Dedupe(p) == p
  {
    if p != [] {
      var q := p[..|p| - 1];
      DedupeDistinct(q);
      assert p[|p| - 1] !in q;
      assert q + [p[|p| - 1]] == p;
    }
  }

  /** Replaying a prefix of `w` and then all of `w` meets the members of `w` in order. */
  lemma {:induction false} DedupePrefix<T(!new)>(p: seq<T>, w: seq<T>, k: nat)
    requires p <= w && Distinct(w) && k <= |w|
    ensures Dedupe(p + w[..k]) == if k <= |p| then p else w[..k]
    decreases k
  {
    var s := p + w[..k];
    if k == 0 {
      assert s == p;
      DedupeDistinct(p);
    } else {
      DedupePrefix(p, w, k - 1);
      assert s[..|s| - 1] == p + w[..k - 1] && s[|s| - 1] == w[k - 1];
      if k <= |p| {
        assert w[k - 1] == p[k - 1];
      } else {
        var before := w[..k - 1];
        assert k - 1 == |p| ==> before == p;
        forall i | 0 <= i < |before| ensures before[i] != w[k - 1] { assert before[i] == w[i]; }
        assert w[..k] == before + [w[k - 1]];
      }
    }
  }
}
