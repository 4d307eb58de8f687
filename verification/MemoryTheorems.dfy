/** What every legal review log keeps. */
module MemoryTheorems {
  import opened Wrappers
  import opened Memory

  // ------------------------------------------------------------------ the book of a legal log

  ghost predicate Before(order: seq<string>, a: string, b: string) {
    exists i, j :: 0 <= i < j < |order| && order[i] == a && order[j] == b
  }

  /** A candidate in the book. A replaced candidate is superseded or forgotten and names
      an existing, later candidate of its session. */
  ghost predicate Sound(b: Book, id: string)
    requires id in b.candidates
  {
    var c := b.candidates[id];
    && id != "" && c.core.id == id && id in b.order
    && (c.status == Superseded ==> c.replacement != "")
    && (c.replacement != "" ==>
          && (c.status == Superseded || c.status == Forgotten)
          && c.replacement in b.candidates && Before(b.order, id, c.replacement)
          && b.candidates[c.replacement].core.session == c.core.session)
  }

  ghost predicate BookInv(b: Book) {
    && (forall id {:trigger Sound(b, id)} | id in b.candidates :: Sound(b, id))
    && (forall i | 0 <= i < |b.order| :: b.order[i] in b.candidates)
    && (forall i, j | 0 <= i < j < |b.order| :: b.order[i] != b.order[j])
    && (forall a, c | a in b.candidates && c in b.candidates && b.candidates[a].replacement != ""
          && b.candidates[a].replacement == b.candidates[c].replacement :: a == c)
  }

  lemma BeforeGrows(order: seq<string>, id: string, a: string, b: string)
    requires Before(order, a, b)
    ensures Before(order + [id], a, b)
  {
    var i, j :| 0 <= i < j < |order| && order[i] == a && order[j] == b;
    assert (order + [id])[i] == a && (order + [id])[j] == b;
  }

  lemma SoundAfterAdd(b: Book, b': Book, c: Candidate, id: string)
    requires id in b.candidates && Sound(b, id) && c.core.id !in b.candidates
    requires b'.order == b.order + [c.core.id] && forall k | k in b.candidates :: k in b'.candidates && b'.candidates[k].core == b.candidates[k].core
    requires b'.candidates[id] == b.candidates[id]
    ensures Sound(b', id)
  {
    var i :| 0 <= i < |b.order| && b.order[i] == id;
    assert b'.order[i] == id;
    if b.candidates[id].replacement != "" { BeforeGrows(b.order, c.core.id, id, b.candidates[id].replacement); }
  }

  /** A new candidate is added. */
  lemma AddKeeps(b: Book, c: Candidate)
    requires BookInv(b) && c.core.id != "" && c.core.id !in b.candidates && c == Created(c.core)
    ensures Record(b, c).Ok? && BookInv(Record(b, c).value)
  {
    var b' := Record(b, c).value;
    forall id | id in b'.candidates ensures Sound(b', id) { AddSound(b, c, id); }
  }

  lemma AddSound(b: Book, c: Candidate, id: string)
    requires BookInv(b) && c.core.id != "" && c.core.id !in b.candidates && c == Created(c.core)
    requires id in b.candidates || id == c.core.id
    ensures Sound(Book(b.candidates[c.core.id := c], b.order + [c.core.id]), id)
  {
    var b' := Book(b.candidates[c.core.id := c], b.order + [c.core.id]);
    assert b'.order[|b.order|] == c.core.id;
    if id != c.core.id {
      assert Sound(b, id);
      SoundAfterAdd(b, b', c, id);
    }
  }

  lemma ReviewKeeps(b: Book, c: Candidate)
    requires BookInv(b) && Review(b, c)
    ensures Record(b, c).Ok? && BookInv(Record(b, c).value)
    ensures Record(b, c).value == b.(candidates := b.candidates[c.core.id := c])
  {
    ReviewRecords(b, c);
    var b' := b.(candidates := b.candidates[c.core.id := c]);
    forall id | id in b'.candidates ensures Sound(b', id) { SoundAfterReview(b, c, id); }
  }

  lemma ReviewRecords(b: Book, c: Candidate)
    requires BookInv(b) && Review(b, c)
    ensures Record(b, c) == Ok(b.(candidates := b.candidates[c.core.id := c]))
    ensures b.candidates[c.core.id].replacement == c.replacement
  {
    assert Sound(b, c.core.id);
  }

  lemma SoundAfterReview(b: Book, c: Candidate, id: string)
    requires BookInv(b) && Review(b, c) && id in b.candidates
    ensures Sound(b.(candidates := b.candidates[c.core.id := c]), id)
  {
    assert Sound(b, id);
  }

  function AfterSupersession(b: Book, c: Candidate, r: Candidate): Book {
    Book(b.candidates[c.core.id := c][r.core.id := r], b.order + [r.core.id])
  }

  lemma SupersedeSound(b: Book, c: Candidate, r: Candidate, id: string)
    requires BookInv(b) && Replaced(b, c, r) && r.core.id != "" && r.core.id !in b.candidates
    requires id in AfterSupersession(b, c, r).candidates
    ensures Sound(AfterSupersession(b, c, r), id)
  {
    var b' := AfterSupersession(b, c, r);
    assert b'.order[|b.order|] == r.core.id;
    if id != r.core.id {
      assert Sound(b, id);
      if id == c.core.id {
        var i :| 0 <= i < |b.order| && b.order[i] == id;
        assert b'.order[i] == id;
        assert Before(b'.order, id, r.core.id);
      } else {
        SoundAfterAdd(b, b', r, id);
      }
    }
  }

  /** The replacement is new, so nothing else names it. */
  lemma SupersedeLinks(b: Book, c: Candidate, r: Candidate, a: string, d: string)
    requires BookInv(b) && Replaced(b, c, r) && r.core.id != "" && r.core.id !in b.candidates
    requires var m := AfterSupersession(b, c, r).candidates;
             a in m && d in m && m[a].replacement != "" && m[a].replacement == m[d].replacement
    ensures a == d
  {
    if a in b.candidates { assert Sound(b, a); }
    if d in b.candidates { assert Sound(b, d); }
  }

  /** The two records of a supersession. */
  lemma SupersedeKeeps(b: Book, c: Candidate, r: Candidate)
    requires BookInv(b) && Replaced(b, c, r) && r.core.id != "" && r.core.id !in b.candidates
    ensures Apply(b, Supersession(c, r)) == Ok(AfterSupersession(b, c, r)) && BookInv(AfterSupersession(b, c, r))
  {
    assert Sound(b, c.core.id);
    var b' := AfterSupersession(b, c, r);
    forall id | id in b'.candidates ensures Sound(b', id) { SupersedeSound(b, c, r, id); }
    forall a, d | a in b'.candidates && d in b'.candidates && b'.candidates[a].replacement != ""
      && b'.candidates[a].replacement == b'.candidates[d].replacement ensures a == d
    {
      SupersedeLinks(b, c, r, a, d);
    }
  }

  /** Everything in the book was mentioned by an event. */
  lemma {:induction false} BookMentions(log: seq<Event>, id: string)
    requires Fold(log).Ok? && id in Fold(log).value.candidates
    ensures exists i :: 0 <= i < |log| && Mentions(log[i], id)
  {
    var n := |log|;
    var b := Fold(log[..n - 1]).value;
    if id in b.candidates {
      BookMentions(log[..n - 1], id);
      var i :| 0 <= i < n - 1 && Mentions(log[..n - 1][i], id);
      assert Mentions(log[i], id);
    } else {
      assert Mentions(log[n - 1], id);
    }
  }

  lemma NewNotInBook(log: seq<Event>, id: string)
    requires Fold(log).Ok? && New(log, id)
    ensures id !in Fold(log).value.candidates
  {
    if id in Fold(log).value.candidates { BookMentions(log, id); }
  }

  lemma StepKeeps(log: seq<Event>, e: Event)
    requires Fold(log).Ok? && BookInv(Fold(log).value) && Allowed(log, e)
    ensures Apply(Fold(log).value, e).Ok? && BookInv(Apply(Fold(log).value, e).value)
  {
    var b := Fold(log).value;
    match e {
      case Supersession(c, r) =>
        NewNotInBook(log, r.core.id);
        SupersedeKeeps(b, c, r);
      case Reviewed(c) =>
        if New(log, c.core.id) && c == Created(c.core) {
          NewNotInBook(log, c.core.id);
          AddKeeps(b, c);
        } else {
          ReviewKeeps(b, c);
        }
    }
  }

  /** Every legal log replays without an error. */
  lemma {:induction false} LegalLogsReplay(log: seq<Event>)
    requires Legal(log)
    ensures Fold(log).Ok? && BookInv(Fold(log).value)
  {
    if log != [] {
      LegalLogsReplay(log[..|log| - 1]);
      StepKeeps(log[..|log| - 1], log[|log| - 1]);
    }
  }

  // ------------------------------------------------------------------ statuses only rise

  /** `later` has every candidate of `b`, with the same core, a rank at least as high, and
      unchanged if the rank is the same; the order is extended at its end. */
  ghost predicate Advances(b: Book, later: Book) {
    && b.order <= later.order
    && forall id | id in b.candidates ::
         && id in later.candidates
         && later.candidates[id].core == b.candidates[id].core
         && Rank(later.candidates[id].status) >= Rank(b.candidates[id].status)
         && (Rank(later.candidates[id].status) == Rank(b.candidates[id].status) ==> later.candidates[id] == b.candidates[id])
  }

  lemma RecordAdvances(b: Book, c: Candidate)
    requires Record(b, c).Ok?
    ensures Advances(b, Record(b, c).value)
  {
    var id := c.core.id;
    if id in b.candidates {
      var merged := Merge(b.candidates[id], c).value;
      assert Rank(merged.status) == Rank(b.candidates[id].status) ==> merged == b.candidates[id];
    }
  }

  lemma ApplyAdvances(b: Book, e: Event)
    requires Apply(b, e).Ok?
    ensures Advances(b, Apply(b, e).value)
  {
    RecordAdvances(b, e.candidate);
    var next := Record(b, e.candidate).value;
    if e.Supersession? { RecordAdvances(next, e.replacement); }
  }

  /** In every log that replays, legal or not, each candidate keeps its core, its status
      rank only rises, and a decision once recorded is never replaced by another one of
      the same rank. */
  lemma {:induction false} StatusOnlyRises(log: seq<Event>, n: nat)
    requires Fold(log).Ok? && n <= |log|
    ensures Fold(log[..n]).Ok? && Advances(Fold(log[..n]).value, Fold(log).value)
  {
    if n < |log| {
      var init := log[..|log| - 1];
      assert init[..n] == log[..n];
      StatusOnlyRises(init, n);
      ApplyAdvances(Fold(init).value, log[|log| - 1]);
    } else {
      assert log[..n] == log;
    }
  }

  // ------------------------------------------------------------------ the session builder agrees

  function SessionOf(b: Book, id: string): Option<string> {
    if id in b.candidates then Some(b.candidates[id].core.session) else None
  }

  /** The ids of one session, in order. */
  function OwnIds(b: Book, order: seq<string>, session: string): seq<string> {
    if order == [] then []
    else
      var rest := OwnIds(b, order[..|order| - 1], session);
      if SessionOf(b, order[|order| - 1]) == Some(session) then rest + [order[|order| - 1]] else rest
  }

  lemma {:induction false} OwnIdsStable(b: Book, d: Book, order: seq<string>, session: string)
    requires forall i | 0 <= i < |order| :: SessionOf(b, order[i]) == SessionOf(d, order[i])
    ensures OwnIds(b, order, session) == OwnIds(d, order, session)
  {
    if order != [] { OwnIdsStable(b, d, order[..|order| - 1], session); }
  }

  lemma {:induction false} OwnIdsIn(b: Book, order: seq<string>, session: string)
    ensures forall id :: id in OwnIds(b, order, session) <==> id in order && SessionOf(b, id) == Some(session)
  {
    if order != [] { OwnIdsIn(b, order[..|order| - 1], session); }
  }

  /** The items are the candidates of `ids`, found through the index map. */
  ghost predicate Lists(u: Builder, candidates: map<string, Candidate>, ids: seq<string>) {
    && |u.items| == |ids|
    && (forall k | 0 <= k < |ids| ::
          ids[k] in candidates && u.items[k] == candidates[ids[k]] && ids[k] in u.byId && u.byId[ids[k]] == k)
    && (forall id | id in u.byId :: u.byId[id] < |ids| && ids[u.byId[id]] == id)
  }

  /** The builder holds exactly the session's candidates of the book, in order. */
  ghost predicate Agrees(u: Builder, b: Book, session: string) {
    Lists(u, b.candidates, OwnIds(b, b.order, session))
  }

  /** The ids of the order are exactly those of the book. */
  ghost predicate Listed(b: Book) {
    && (forall id | id in b.candidates :: id in b.order && b.candidates[id].core.id == id)
    && (forall i | 0 <= i < |b.order| :: b.order[i] in b.candidates)
  }

  lemma RecordKeepsListed(b: Book, c: Candidate)
    requires Listed(b) && Record(b, c).Ok?
    ensures Listed(Record(b, c).value)
  {
  }

  lemma SessionsKept(b: Book, c: Candidate, id: string)
    requires Record(b, c).Ok? && id in b.candidates
    ensures SessionOf(Record(b, c).value, id) == SessionOf(b, id)
  {
  }

  lemma OwnIdsSnoc(b: Book, order: seq<string>, id: string, session: string)
    ensures OwnIds(b, order + [id], session) ==
            OwnIds(b, order, session) + (if SessionOf(b, id) == Some(session) then [id] else [])
  {
    assert (order + [id])[..|order|] == order;
  }

  lemma OldIds(b: Book, c: Candidate, session: string)
    requires Listed(b) && Record(b, c).Ok?
    ensures var b' := Record(b, c).value;
            OwnIds(b', b'.order, session) ==
            OwnIds(b, b.order, session) + (if c.core.id !in b.candidates && c.core.session == session then [c.core.id] else [])
  {
    var b' := Record(b, c).value;
    forall i | 0 <= i < |b.order| ensures SessionOf(b, b.order[i]) == SessionOf(b', b.order[i]) {
      SessionsKept(b, c, b.order[i]);
    }
    OwnIdsStable(b, b', b.order, session);
    if c.core.id !in b.candidates { OwnIdsSnoc(b', b.order, c.core.id, session); }
  }

  lemma RecordForeign(u: Builder, b: Book, c: Candidate, session: string)
    requires Listed(b) && Agrees(u, b, session) && Record(b, c).Ok? && c.core.session != session
    ensures Agrees(u, Record(b, c).value, session)
  {
    OldIds(b, c, session);
    OwnIdsIn(b, b.order, session);
    var ids := OwnIds(b, b.order, session);
    forall k | 0 <= k < |ids| ensures ids[k] != c.core.id || c.core.id !in b.candidates { assert ids[k] in ids; }
  }

  lemma ListOneMore(u: Builder, m: map<string, Candidate>, ids: seq<string>, id: string, c: Candidate)
    requires Lists(u, m, ids) && id !in m
    ensures id !in u.byId && Lists(Builder(u.items + [c], u.byId[id := |u.items|]), m[id := c], ids + [id])
  {
    var ids' := ids + [id];
    forall k | 0 <= k < |ids| ensures ids[k] != id && ids'[k] == ids[k] { assert ids[k] in m; }
    assert id !in u.byId;
  }

  lemma RecordOwnNew(u: Builder, b: Book, c: Candidate, session: string)
    requires Listed(b) && WellIndexed(u) && Agrees(u, b, session) && Record(b, c).Ok?
    requires c.core.session == session && c.core.id !in b.candidates
    ensures Upsert(u, c).Ok? && Agrees(Upsert(u, c).value, Record(b, c).value, session)
  {
    OldIds(b, c, session);
    ListOneMore(u, b.candidates, OwnIds(b, b.order, session), c.core.id, c);
  }

  lemma RecordOwnKnown(u: Builder, b: Book, c: Candidate, session: string)
    requires Listed(b) && WellIndexed(u) && Agrees(u, b, session) && Record(b, c).Ok?
    requires c.core.session == session && c.core.id in b.candidates
    ensures Upsert(u, c).Ok? && Agrees(Upsert(u, c).value, Record(b, c).value, session)
  {
    OldIds(b, c, session);
    OwnIdsIn(b, b.order, session);
    assert c.core.id in OwnIds(b, b.order, session);
  }

  /** Recording a candidate in the book and, if it is the session's own, in the builder. */
  lemma RecordAgrees(u: Builder, b: Book, c: Candidate, session: string)
    requires Listed(b) && WellIndexed(u) && Agrees(u, b, session) && Record(b, c).Ok?
    ensures c.core.session != session ==> Agrees(u, Record(b, c).value, session)
    ensures c.core.session == session ==> Upsert(u, c).Ok? && Agrees(Upsert(u, c).value, Record(b, c).value, session)
  {
    if c.core.session != session { RecordForeign(u, b, c, session); }
    else if c.core.id in b.candidates { RecordOwnKnown(u, b, c, session); }
    else { RecordOwnNew(u, b, c, session); }
  }

  /** A supersession stays within one session. */
  ghost predicate Local(log: seq<Event>) {
    forall i | 0 <= i < |log| :: log[i].Supersession? ==> log[i].replacement.core.session == log[i].candidate.core.session
  }

  lemma {:induction false} BuilderFollows(log: seq<Event>, session: string)
    requires Fold(log).Ok? && Local(log)
    ensures Listed(Fold(log).value)
    ensures Build(log, session).Ok? && Agrees(Build(log, session).value, Fold(log).value, session)
  {
    if log != [] {
      var init, e := log[..|log| - 1], log[|log| - 1];
      BuilderFollows(init, session);
      var b, u := Fold(init).value, Build(init, session).value;
      RecordAgrees(u, b, e.candidate, session);
      RecordKeepsListed(b, e.candidate);
      if e.Supersession? {
        var next := Record(b, e.candidate).value;
        var v := if e.candidate.core.session == session then Upsert(u, e.candidate).value else u;
        RecordAgrees(v, next, e.replacement, session);
        RecordKeepsListed(next, e.replacement);
      }
    }
  }

  lemma {:induction false} LegalIsLocal(log: seq<Event>)
    requires Legal(log)
    ensures Local(log)
  {
    if log != [] {
      LegalIsLocal(log[..|log| - 1]);
      forall i | 0 <= i < |log| && log[i].Supersession? ensures log[i].replacement.core.session == log[i].candidate.core.session {
        if i < |log| - 1 { assert log[..|log| - 1][i] == log[i]; }
      }
    }
  }

  /** In every legal log both folds succeed, and the session builder lists exactly the
      session's candidates of the global fold, in the same order. */
  lemma FoldsAgree(log: seq<Event>, session: string)
    requires Legal(log)
    ensures Fold(log).Ok? && Build(log, session).Ok?
    ensures var b := Fold(log).value;
            var ids := OwnIds(b, b.order, session);
            && |Build(log, session).value.items| == |ids|
            && forall k | 0 <= k < |ids| :: ids[k] in b.candidates && Build(log, session).value.items[k] == b.candidates[ids[k]]
  {
    LegalLogsReplay(log);
    LegalIsLocal(log);
    BuilderFollows(log, session);
  }

  // ------------------------------------------------------------------ supersession chains

  /** Each candidate of the sequence is replaced by the next one. */
  ghost predicate IsChain(b: Book, chain: seq<string>) {
    && |chain| > 0
    && (forall k | 0 <= k < |chain| :: chain[k] in b.candidates)
    && (forall k | 0 < k < |chain| :: chain[k] != "" && b.candidates[chain[k - 1]].replacement == chain[k])
  }

  /** A replaced candidate has one replacement, which exists, is of the same session, and
      replaces nothing else. */
  lemma ReplacementIsUnique(log: seq<Event>, id: string)
    requires Legal(log)
    ensures Fold(log).Ok?
    ensures var b := Fold(log).value;
            id in b.candidates && b.candidates[id].replacement != "" ==>
              && b.candidates[id].replacement in b.candidates
              && b.candidates[b.candidates[id].replacement].core.session == b.candidates[id].core.session
              && (b.candidates[id].status == Superseded || b.candidates[id].status == Forgotten)
              && forall p | p in b.candidates && b.candidates[p].replacement == b.candidates[id].replacement :: p == id
  {
    LegalLogsReplay(log);
    var b := Fold(log).value;
    if id in b.candidates { assert Sound(b, id); }
  }

  /** A position of the id in the order. */
  ghost function Position(order: seq<string>, id: string): (i: nat)
    requires id in order
    ensures i < |order| && order[i] == id
  {
    if order[|order| - 1] == id then |order| - 1 else Position(order[..|order| - 1], id)
  }

  lemma LinkGoesForward(b: Book, id: string)
    requires BookInv(b) && id in b.candidates && b.candidates[id].replacement != ""
    ensures id in b.order && b.candidates[id].replacement in b.order && b.candidates[id].replacement in b.candidates
    ensures Position(b.order, id) < Position(b.order, b.candidates[id].replacement)
  {
    assert Sound(b, id);
    var i, j :| 0 <= i < j < |b.order| && b.order[i] == id && b.order[j] == b.candidates[id].replacement;
    assert Position(b.order, id) == i && Position(b.order, b.candidates[id].replacement) == j;
  }

  /** Following the links terminates: no chain is longer than the list of candidates. */
  lemma {:induction false} ChainsAreFinite(b: Book, chain: seq<string>)
    requires BookInv(b) && IsChain(b, chain)
    ensures chain[|chain| - 1] in b.order && |chain| <= Position(b.order, chain[|chain| - 1]) + 1 <= |b.order|
  {
    var n := |chain|;
    assert Sound(b, chain[n - 1]);
    if n > 1 {
      ChainsAreFinite(b, chain[..n - 1]);
      assert b.candidates[chain[n - 2]].replacement == chain[n - 1];
      LinkGoesForward(b, chain[n - 2]);
    }
  }

  lemma ReplacedIsNotApproved(b: Book, chain: seq<string>, i: nat)
    requires BookInv(b) && IsChain(b, chain) && i + 1 < |chain|
    ensures b.candidates[chain[i]].status == Superseded || b.candidates[chain[i]].status == Forgotten
  {
    var next := chain[i + 1];
    assert Sound(b, chain[i]);
  }

  /** Only the last candidate of a chain can be approved, so at most one is. */
  lemma OneApprovedPerChain(b: Book, chain: seq<string>, i: nat)
    requires BookInv(b) && IsChain(b, chain) && i < |chain| && b.candidates[chain[i]].status == Approved
    ensures i == |chain| - 1
  {
    if i < |chain| - 1 { ReplacedIsNotApproved(b, chain, i); }
  }

  /** Nothing is replaced by this candidate. */
  ghost predicate Head(b: Book, id: string) {
    id in b.candidates && forall p | p in b.candidates :: b.candidates[p].replacement != id
  }

  /** Two chains that meet ran together before: going back from the common candidate
      both pass the same ones. */
  lemma {:induction false} ChainsMeet(b: Book, x: seq<string>, y: seq<string>, i: nat, j: nat, back: nat)
    requires BookInv(b) && IsChain(b, x) && IsChain(b, y) && i < |x| && j < |y| && x[i] == y[j]
    requires back <= i && back <= j
    ensures x[i - back] == y[j - back]
  {
    if back > 0 {
      ChainsMeet(b, x, y, i, j, back - 1);
      var m, n := i - back + 1, j - back + 1;
      assert b.candidates[x[m - 1]].replacement == x[m] && b.candidates[y[n - 1]].replacement == y[n];
    }
  }

  /** Chains that start at heads and share a candidate start at the same head. */
  lemma ChainsAreDisjoint(b: Book, x: seq<string>, y: seq<string>, i: nat, j: nat)
    requires BookInv(b) && IsChain(b, x) && IsChain(b, y) && i < |x| && j < |y| && x[i] == y[j]
    requires Head(b, x[0]) && Head(b, y[0])
    ensures i == j && x[0] == y[0]
  {
    ChainsMeet(b, x, y, i, j, if i < j then i else j);
    if i < j { LaterIsNoHead(b, y, j - i); }
    if j < i { LaterIsNoHead(b, x, i - j); }
  }

  lemma LaterIsNoHead(b: Book, chain: seq<string>, n: nat)
    requires IsChain(b, chain) && 0 < n < |chain|
    ensures !Head(b, chain[n])
  {
    assert b.candidates[chain[n - 1]].replacement == chain[n];
  }

  lemma {:induction false} ChainFrom(b: Book, id: string) returns (chain: seq<string>)
    requires BookInv(b) && id in b.candidates
    ensures IsChain(b, chain) && chain[0] == id && b.candidates[chain[|chain| - 1]].replacement == ""
    decreases |b.order| - (assert Sound(b, id); Position(b.order, id))
  {
    var next := b.candidates[id].replacement;
    if next == "" { return [id]; }
    LinkGoesForward(b, id);
    var rest := ChainFrom(b, next);
    chain := [id] + rest;
    forall k | 0 < k < |chain| ensures chain[k] != "" && b.candidates[chain[k - 1]].replacement == chain[k] {
      if k > 1 { assert chain[k] == rest[k - 1] && chain[k - 1] == rest[k - 2]; }
    }
  }

  lemma {:induction false} ChainTo(b: Book, id: string) returns (chain: seq<string>)
    requires BookInv(b) && id in b.candidates
    ensures IsChain(b, chain) && Head(b, chain[0]) && chain[|chain| - 1] == id
    decreases assert Sound(b, id); Position(b.order, id)
  {
    if Head(b, id) { return [id]; }
    var p :| p in b.candidates && b.candidates[p].replacement == id;
    assert Sound(b, id);
    LinkGoesForward(b, p);
    var rest := ChainTo(b, p);
    chain := rest + [id];
    forall k | 0 < k < |chain| ensures chain[k] != "" && b.candidates[chain[k - 1]].replacement == chain[k] {
      if k < |rest| { assert chain[k] == rest[k] && chain[k - 1] == rest[k - 1]; }
    }
  }

  lemma JoinChains(b: Book, x: seq<string>, y: seq<string>)
    requires IsChain(b, x) && IsChain(b, y) && x[|x| - 1] == y[0]
    ensures IsChain(b, x + y[1..])
  {
    var chain, k := x + y[1..], |x| - 1;
    forall m | 0 <= m < |chain| ensures chain[m] in b.candidates {
      if m >= |x| { assert chain[m] == y[m - k]; }
    }
    forall m | 0 < m < |chain| ensures chain[m] != "" && b.candidates[chain[m - 1]].replacement == chain[m] {
      if m < |x| {
        assert chain[m - 1] == x[m - 1];
      } else {
        assert chain[m] == y[m - k] && chain[m - 1] == y[m - k - 1];
      }
    }
  }

  /** Every candidate of a legal log lies on a chain that starts at a head and ends at a
      candidate nothing replaces. */
  lemma EveryCandidateIsOnAChain(log: seq<Event>, id: string) returns (chain: seq<string>, k: nat)
    requires Legal(log) && Fold(log).Ok? && id in Fold(log).value.candidates
    ensures var b := Fold(log).value;
            && BookInv(b) && IsChain(b, chain) && k < |chain| && chain[k] == id
            && Head(b, chain[0]) && b.candidates[chain[|chain| - 1]].replacement == ""
  {
    LegalLogsReplay(log);
    chain, k := ChainThrough(Fold(log).value, id);
  }

  lemma ChainThrough(b: Book, id: string) returns (chain: seq<string>, k: nat)
    requires BookInv(b) && id in b.candidates
    ensures IsChain(b, chain) && k < |chain| && chain[k] == id
    ensures Head(b, chain[0]) && b.candidates[chain[|chain| - 1]].replacement == ""
  {
    var to := ChainTo(b, id);
    var from := ChainFrom(b, id);
    JoinChains(b, to, from);
    chain, k := to + from[1..], |to| - 1;
    assert chain[|chain| - 1] == from[|from| - 1];
  }
}
