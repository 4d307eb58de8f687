/** A ledger that ends up with a gap in its index, and a concrete codec under which it
    does: the limits of the rebuild are reached by appends alone. */
module LedgerExample {
  import opened Wrappers
  import opened LedgerFrames
  import opened LedgerIndex
  import opened LedgerRebuild
  import opened LedgerLimits
  import opened Ledger

  /** The first append writes its frame but loses its index transaction; the second one
      commits. */
  method LoseFirstCommit(env: Env, a: StoredEvent, b: StoredEvent) returns (ledger: SQLiteLedger)
    requires a.eventId != b.eventId
    ensures fresh(ledger) && ledger.Valid() && ledger.env == env && ledger.history == [a, b]
    ensures |Journal(env, [a, b])| == 2 && ledger.journal == [Journal(env, [a, b])[1]]
  {
    ledger := new SQLiteLedger(env);
    var ok := ledger.Append(a, false);
    assert ledger.history == [a] && ledger.journal == [];
    ok := ledger.Append(b, true);
    assert [a] + [b] == [a, b];
    LastOfJournal(env, a, b);
  }

  /** The ledger is opened again. If both events of the session had titles, the sessions
      table keeps the second one. */
  method ReopenAfterLostCommit(env: Env, a: StoredEvent, b: StoredEvent) returns (index: Index)
    requires WellFormed(env, [a, b]) && a.sessionId == b.sessionId && env.trim(a.sessionId) != ""
    requires env.title(a) != "" && env.title(b) != "" && env.title(a) != env.title(b)
    ensures index.sessions != NeverLost(env, [a, b]).sessions
  {
    assert [a, b][0].eventId != [a, b][1].eventId;
    var ledger := LoseFirstCommit(env, a, b);
    GapKeepsLaterTitle(env, a, b, ledger.files);
    var ok := ledger.RebuildIndex([env.FileRef(a.sessionId)]);
    index := ledger.index;
  }

  lemma LastOfJournal(env: Env, a: StoredEvent, b: StoredEvent)
    ensures |Journal(env, [a, b])| == 2
    ensures Journal(env, [a, b])[1] == Locate(env, b, |Frames(env, OfFile(env, [a], env.FileRef(b.sessionId)))|)
  {
    JournalEvents(env, [a, b]);
    JournalEvents(env, [a]);
    assert [a, b][..1] == [a];
  }

  // ------------------------------------------------------------------ a codec

  function Times(n: nat, c: char): string { seq(n, _ => c) }

  /** A string behind its length in unary. */
  function Field(s: string): string { Times(|s|, '1') + "0" + s }

  function Number(n: int): string { if n >= 0 then Times(n, 'p') else Times(-n, 'm') }

  function Encode(e: StoredEvent): Bytes {
    Field(e.eventId) + (Field(e.sessionId) + (Field(e.turnId) + (Field(e.kind) + (Field(Number(e.createdAt)) + Field(e.payload)))))
  }

  lemma FieldSplits(a: string, x: string, b: string, y: string)
    requires Field(a) + x == Field(b) + y
    ensures a == b && x == y
  {
    var s, t := Field(a) + x, Field(b) + y;
    assert s[|a|] == '0' && t[|b|] == '0';
    assert (forall i | 0 <= i < |a| :: s[i] == '1') && (forall i | 0 <= i < |b| :: t[i] == '1');
    assert |a| == |b|;
    assert a == s[|a| + 1..|a| + 1 + |a|] && b == t[|b| + 1..|b| + 1 + |b|];
    assert x == s[|a| + 1 + |a|..] && y == t[|b| + 1 + |b|..];
  }

  lemma NumberSplits(m: int, n: int)
    requires Number(m) == Number(n)
    ensures m == n
  {
    assert |Number(m)| == |Number(n)|;
    if m != 0 { assert Number(m)[0] == Number(n)[0]; }
  }

  lemma EncodeSplits(d: StoredEvent, e: StoredEvent)
    requires Encode(d) == Encode(e)
    ensures d == e
  {
    var d5, e5 := Field(d.payload), Field(e.payload);
    var d4, e4 := Field(Number(d.createdAt)) + d5, Field(Number(e.createdAt)) + e5;
    var d3, e3 := Field(d.kind) + d4, Field(e.kind) + e4;
    var d2, e2 := Field(d.turnId) + d3, Field(e.turnId) + e3;
    var d1, e1 := Field(d.sessionId) + d2, Field(e.sessionId) + e2;
    FieldSplits(d.eventId, d1, e.eventId, e1);
    FieldSplits(d.sessionId, d2, e.sessionId, e2);
    FieldSplits(d.turnId, d3, e.turnId, e3);
    FieldSplits(d.kind, d4, e.kind, e4);
    FieldSplits(Number(d.createdAt), d5, Number(e.createdAt), e5);
    NumberSplits(d.createdAt, e.createdAt);
    assert d5 + [] == d5 && e5 + [] == e5;
    FieldSplits(d.payload, [], e.payload, []);
  }

  ghost function Decode(b: Bytes): (r: Option<StoredEvent>)
    ensures r.None? ==> forall e :: Encode(e) != b
    ensures r.Some? ==> Encode(r.value) == b
  {
    if exists e :: Encode(e) == b then var e :| Encode(e) == b; Some(e) else None
  }

  /** Events carry their session title as payload. */
  ghost function PlainEnv(): Env {
    Env(Encode, b => Decode(b), b => "", key => key, s => s, (e: StoredEvent) => e.payload)
  }

  /** Two titled events of one session meet all that `ReopenAfterLostCommit` asks for. */
  lemma GapIsReachable() returns (env: Env, a: StoredEvent, b: StoredEvent)
    ensures WellFormed(env, [a, b]) && a.sessionId == b.sessionId && env.trim(a.sessionId) != ""
    ensures env.title(a) != "" && env.title(b) != "" && env.title(a) != env.title(b)
  {
    env := PlainEnv();
    a, b := StoredEvent("1", "s", "", "", 0, "x"), StoredEvent("2", "s", "", "", 0, "y");
    forall e ensures env.decode(env.encode(e)) == Some(e) {
      EncodeSplits(Decode(Encode(e)).value, e);
    }
    forall e | e in [a, b] ensures Storable(env, env.FileRef(e.sessionId), e) {
      assert |Encode(e)| == 12;
    }
  }
}
