/** Length-framed event files: how an event is framed, read back through its index
    row, and scanned from a whole file (internal/kernel/sqlite_ledger.go). */
module LedgerFrames {
  import opened Wrappers

  /** A `char` stands for one byte. */
  type Bytes = string

  const HEADER_BYTES: nat := 8

  const MAX_BODY_BYTES: nat := 64 * 1024 * 1024

  datatype StoredEvent = StoredEvent(eventId: string, sessionId: string, turnId: string, kind: string,
                                     createdAt: int, payload: string)

  /** What the ledger takes from outside: the JSON codec, the SHA-256 hash, the file
      name derived from a session key, whitespace trimming, and the session title
      carried by an event. */
  datatype Env = Env(encode: StoredEvent -> Bytes, decode: Bytes -> Option<StoredEvent>, hash: Bytes -> string,
                     fileName: string -> string, trim: string -> string, title: StoredEvent -> string)
  {
    /** Decoding inverts encoding. */
    ghost predicate Lawful() { forall e {:trigger encode(e)} :: decode(encode(e)) == Some(e) }

    function FileRef(sessionId: string): string {
      fileName(if trim(sessionId) == "" then "_system" else trim(sessionId))
    }
  }

  /** The columns compared when an indexed event is met again. */
  datatype Row = Row(eventId: string, sessionId: string, turnId: string, kind: string,
                     fileRef: string, offset: nat, frameBytes: nat, eventBytes: nat, hash: string)

  /** An event together with the row that points at its frame. */
  datatype Located = Located(row: Row, event: StoredEvent)

  // ------------------------------------------------------------- the header

  function Pow256(k: nat): nat { if k == 0 then 1 else 256 * Pow256(k - 1) }

  function BigEndian(n: nat, k: nat): (s: Bytes)
    ensures |s| == k
  {
    if k == 0 then [] else BigEndian(n / 256, k - 1) + [(n % 256) as char]
  }

  function FromBigEndian(s: Bytes): nat {
    if s == [] then 0 else 256 * FromBigEndian(s[..|s| - 1]) + s[|s| - 1] as int
  }

  lemma {:induction false} BigEndianRoundTrip(n: nat, k: nat)
    requires n < Pow256(k)
    ensures FromBigEndian(BigEndian(n, k)) == n
  {
    if k > 0 {
      BigEndianRoundTrip(n / 256, k - 1);
      assert BigEndian(n, k)[..k - 1] == BigEndian(n / 256, k - 1);
    }
  }

  lemma {:induction false} Pow256Bounds(n: nat, k: nat)
    requires k >= 4 && n <= MAX_BODY_BYTES
    ensures n < Pow256(k)
  {
    if k == 4 {
      assert Pow256(4) == 256 * (256 * (256 * (256 * 1)));
    } else {
      Pow256Bounds(n, k - 1);
    }
  }

  // -------------------------------------------------------------- the frames

  function Frame(body: Bytes): (frame: Bytes)
    ensures |frame| == HEADER_BYTES + |body|
  {
    BigEndian(|body|, HEADER_BYTES) + body
  }

  /** The event as it is indexed when its frame starts at `offset`. */
  function Locate(env: Env, e: StoredEvent, offset: nat): Located {
    var body := env.encode(e);
    Located(Row(e.eventId, e.sessionId, e.turnId, e.kind, env.FileRef(e.sessionId), offset,
                HEADER_BYTES + |body|, |body|, env.hash(body)), e)
  }

  /** The events of a file whose next frame would start at `offset`. */
  function LocateAll(env: Env, es: seq<StoredEvent>, offset: nat): seq<Located> {
    if es == [] then []
    else [Locate(env, es[0], offset)] + LocateAll(env, es[1..], offset + HEADER_BYTES + |env.encode(es[0])|)
  }

  /** The frames of several events, one after the other. */
  function Concat(frame: StoredEvent -> Bytes, es: seq<StoredEvent>): Bytes {
    if es == [] then [] else frame(es[0]) + Concat(frame, es[1..])
  }

  function Framer(env: Env): StoredEvent -> Bytes { e => Frame(env.encode(e)) }

  function Frames(env: Env, es: seq<StoredEvent>): Bytes { Concat(Framer(env), es) }

  ghost predicate Storable(env: Env, ref: string, e: StoredEvent) {
    e.eventId != "" && env.FileRef(e.sessionId) == ref && 1 <= |env.encode(e)| <= MAX_BODY_BYTES
  }

  /** One frame read at `offset`, or `None` when the file is corrupt there. */
  function ReadNext(env: Env, ref: string, bytes: Bytes, offset: nat): (r: Option<Located>)
    requires offset < |bytes|
    ensures r.Some? ==> HEADER_BYTES < r.value.row.frameBytes <= |bytes| - offset
    ensures r.Some? ==> r.value.row.offset == offset && r.value.row.fileRef == ref
  {
    if |bytes| - offset < HEADER_BYTES then None
    else
      var n := FromBigEndian(bytes[offset..offset + HEADER_BYTES]);
      if n == 0 || n > MAX_BODY_BYTES || |bytes| - offset - HEADER_BYTES < n then None
      else
        var body := bytes[offset + HEADER_BYTES..offset + HEADER_BYTES + n];
        match env.decode(body)
        case None => None
        case Some(e) =>
          if e.eventId == "" || env.FileRef(e.sessionId) != ref then None
          else Some(Located(Row(e.eventId, e.sessionId, e.turnId, e.kind, ref, offset,
                                HEADER_BYTES + |body|, |body|, env.hash(body)), e))
  }

  /** The whole scan of a file from `offset` to its end. */
  function Scan(env: Env, ref: string, bytes: Bytes, offset: nat): Option<seq<Located>>
    requires offset <= |bytes|
    decreases |bytes| - offset
  {
    if offset == |bytes| then Some([])
    else
      match ReadNext(env, ref, bytes, offset)
      case None => None
      case Some(l) =>
        match Scan(env, ref, bytes, offset + l.row.frameBytes)
        case None => None
        case Some(rest) => Some([l] + rest)
  }

  /** A complete frame is read back as the event that was framed. */
  lemma ReadsFrame(env: Env, ref: string, bytes: Bytes, offset: nat, e: StoredEvent)
    requires env.Lawful() && Storable(env, ref, e)
    requires offset + |Frame(env.encode(e))| <= |bytes|
    requires bytes[offset..offset + |Frame(env.encode(e))|] == Frame(env.encode(e))
    ensures ReadNext(env, ref, bytes, offset) == Some(Locate(env, e, offset))
  {
    var body := env.encode(e);
    var frame := Frame(body);
    assert bytes[offset..offset + HEADER_BYTES] == frame[..HEADER_BYTES] == BigEndian(|body|, HEADER_BYTES);
    Pow256Bounds(|body|, HEADER_BYTES);
    BigEndianRoundTrip(|body|, HEADER_BYTES);
    assert bytes[offset + HEADER_BYTES..offset + HEADER_BYTES + |body|] == frame[HEADER_BYTES..] == body;
  }

  /** A frame cut short anywhere, but not at its start, is reported as corruption. */
  lemma TornFrame(env: Env, ref: string, bytes: Bytes, offset: nat, body: Bytes)
    requires 1 <= |body| <= MAX_BODY_BYTES
    requires offset < |bytes| < offset + |Frame(body)|
    requires bytes[offset..] == Frame(body)[..|bytes| - offset]
    ensures ReadNext(env, ref, bytes, offset) == None
  {
    var frame := Frame(body);
    if |bytes| - offset >= HEADER_BYTES {
      assert bytes[offset..offset + HEADER_BYTES] == bytes[offset..][..HEADER_BYTES] == frame[..HEADER_BYTES]
          == BigEndian(|body|, HEADER_BYTES);
      Pow256Bounds(|body|, HEADER_BYTES);
      BigEndianRoundTrip(|body|, HEADER_BYTES);
    }
  }

  lemma ScanStep(env: Env, ref: string, bytes: Bytes, offset: nat, l: Located)
    requires offset < |bytes| && ReadNext(env, ref, bytes, offset) == Some(l)
    ensures var rest := Scan(env, ref, bytes, offset + l.row.frameBytes);
            Scan(env, ref, bytes, offset) == if rest.None? then None else Some([l] + rest.value)
  {
  }

  lemma FirstFrame(frame: StoredEvent -> Bytes, es: seq<StoredEvent>, bytes: Bytes, offset: nat)
    requires es != [] && offset + |Concat(frame, es)| <= |bytes|
    requires bytes[offset..offset + |Concat(frame, es)|] == Concat(frame, es)
    ensures var next := offset + |frame(es[0])|;
            && next + |Concat(frame, es[1..])| == offset + |Concat(frame, es)|
            && bytes[offset..next] == frame(es[0])
            && bytes[next..next + |Concat(frame, es[1..])|] == Concat(frame, es[1..])
  {
    var all, first := Concat(frame, es), frame(es[0]);
    var part := bytes[offset..offset + |all|];
    assert part[..|first|] == bytes[offset..offset + |first|];
    assert part[|first|..] == bytes[offset + |first|..offset + |all|];
  }

  /** Reading from `offset` on meets the frames of `es` and ends at `end`. */
  ghost predicate FramedAt(env: Env, ref: string, bytes: Bytes, offset: nat, es: seq<StoredEvent>, end: nat)
    decreases |es|
  {
    if es == [] then offset == end <= |bytes|
    else
      && offset < |bytes| && ReadNext(env, ref, bytes, offset) == Some(Locate(env, es[0], offset))
      && FramedAt(env, ref, bytes, offset + Locate(env, es[0], offset).row.frameBytes, es[1..], end)
  }

  lemma {:induction false} FramesAreRead(env: Env, ref: string, es: seq<StoredEvent>, bytes: Bytes, offset: nat)
    requires env.Lawful() && forall e | e in es :: Storable(env, ref, e)
    requires offset + |Frames(env, es)| <= |bytes|
    requires bytes[offset..offset + |Frames(env, es)|] == Frames(env, es)
    ensures FramedAt(env, ref, bytes, offset, es, offset + |Frames(env, es)|)
    decreases |es|
  {
    if es != [] {
      ReadsFirst(env, ref, es, bytes, offset);
      FramesAreRead(env, ref, es[1..], bytes, offset + Locate(env, es[0], offset).row.frameBytes);
    }
  }

  function Prepend(ls: seq<Located>, rest: Option<seq<Located>>): Option<seq<Located>> {
    if rest.None? then None else Some(ls + rest.value)
  }

  lemma PrependTwice(l: Located, ls: seq<Located>, rest: Option<seq<Located>>)
    ensures Prepend([l], Prepend(ls, rest)) == Prepend([l] + ls, rest)
  {
    if rest.Some? { assert [l] + (ls + rest.value) == ([l] + ls) + rest.value; }
  }

  /** Scanning complete frames gives exactly the framed events, each located where its
      frame starts, followed by whatever the rest of the file gives. */
  lemma {:induction false} ScanFramed(env: Env, ref: string, es: seq<StoredEvent>, bytes: Bytes, offset: nat, end: nat)
    requires offset <= |bytes| && end <= |bytes| && FramedAt(env, ref, bytes, offset, es, end)
    ensures Scan(env, ref, bytes, offset) == Prepend(LocateAll(env, es, offset), Scan(env, ref, bytes, end))
    decreases |es|
  {
    var rest := Scan(env, ref, bytes, end);
    if es == [] {
      assert rest.Some? ==> [] + rest.value == rest.value;
    } else {
      var first := Locate(env, es[0], offset);
      var next := offset + first.row.frameBytes;
      ScanFramed(env, ref, es[1..], bytes, next, end);
      ScanStep(env, ref, bytes, offset, first);
      PrependTwice(first, LocateAll(env, es[1..], next), rest);
      LocateHead(env, es, offset);
    }
  }

  lemma LocateHead(env: Env, es: seq<StoredEvent>, offset: nat)
    requires es != []
    ensures var first := Locate(env, es[0], offset);
            LocateAll(env, es, offset) == [first] + LocateAll(env, es[1..], offset + first.row.frameBytes)
  {
  }

  lemma ScanFrames(env: Env, ref: string, es: seq<StoredEvent>, bytes: Bytes, offset: nat)
    requires env.Lawful() && forall e | e in es :: Storable(env, ref, e)
    requires offset + |Frames(env, es)| <= |bytes|
    requires bytes[offset..offset + |Frames(env, es)|] == Frames(env, es)
    ensures Scan(env, ref, bytes, offset) ==
            Prepend(LocateAll(env, es, offset), Scan(env, ref, bytes, offset + |Frames(env, es)|))
  {
    FramesAreRead(env, ref, es, bytes, offset);
    ScanFramed(env, ref, es, bytes, offset, offset + |Frames(env, es)|);
  }

  lemma ReadsFirst(env: Env, ref: string, es: seq<StoredEvent>, bytes: Bytes, offset: nat)
    requires env.Lawful() && es != [] && Storable(env, ref, es[0])
    requires offset + |Frames(env, es)| <= |bytes|
    requires bytes[offset..offset + |Frames(env, es)|] == Frames(env, es)
    ensures var first := Locate(env, es[0], offset);
            var next := offset + first.row.frameBytes;
            && offset < |bytes| && ReadNext(env, ref, bytes, offset) == Some(first)
            && next + |Frames(env, es[1..])| == offset + |Frames(env, es)|
            && bytes[next..next + |Frames(env, es[1..])|] == Frames(env, es[1..])
  {
    FirstFrame(Framer(env), es, bytes, offset);
    ReadsFrame(env, ref, bytes, offset, es[0]);
  }

  lemma LocateStep(env: Env, es: seq<StoredEvent>, offset: nat, rest: Option<seq<Located>>)
    requires es != []
    ensures var first := Locate(env, es[0], offset);
            rest.Some? ==> [first] + (LocateAll(env, es[1..], offset + first.row.frameBytes) + rest.value)
                           == LocateAll(env, es, offset) + rest.value
  {
  }

  lemma ScanWholeFile(env: Env, ref: string, es: seq<StoredEvent>)
    requires env.Lawful() && forall e | e in es :: Storable(env, ref, e)
    ensures Scan(env, ref, Frames(env, es), 0) == Some(LocateAll(env, es, 0))
  {
    var bytes := Frames(env, es);
    ScanFrames(env, ref, es, bytes, 0);
    assert LocateAll(env, es, 0) + [] == LocateAll(env, es, 0);
  }

  /** A file that ends in a torn frame, any non-empty strict prefix of a frame, is
      corrupt: the scan never returns a shortened or invented list of events. */
  lemma ScanTornFile(env: Env, ref: string, es: seq<StoredEvent>, body: Bytes, cut: nat)
    requires env.Lawful() && forall e | e in es :: Storable(env, ref, e)
    requires 1 <= |body| <= MAX_BODY_BYTES && 0 < cut < |Frame(body)|
    ensures Scan(env, ref, Frames(env, es) + Frame(body)[..cut], 0) == None
  {
    var bytes := Frames(env, es) + Frame(body)[..cut];
    assert bytes[0..|Frames(env, es)|] == Frames(env, es);
    ScanFrames(env, ref, es, bytes, 0);
    assert bytes[|Frames(env, es)|..] == Frame(body)[..cut];
    TornFrame(env, ref, bytes, |Frames(env, es)|, body);
  }

  // ---------------------------------------------------- reading through the index

  /** The checks made when one indexed event is loaded. */
  function ReadEvent(env: Env, files: map<string, Bytes>, row: Row): Option<StoredEvent> {
    if row.frameBytes != HEADER_BYTES + row.eventBytes || row.fileRef !in files then None
    else
      var bytes := files[row.fileRef];
      if row.offset + row.frameBytes > |bytes| then None
      else
        var frame := bytes[row.offset..row.offset + row.frameBytes];
        var body := frame[HEADER_BYTES..];
        if FromBigEndian(frame[..HEADER_BYTES]) != row.eventBytes || env.hash(body) != row.hash then None
        else
          match env.decode(body)
          case None => None
          case Some(e) =>
            if e.eventId != row.eventId || e.sessionId != row.sessionId || e.turnId != row.turnId || e.kind != row.kind
            then None else Some(e)
  }

  lemma {:induction false} ConcatSplit(frame: StoredEvent -> Bytes, a: seq<StoredEvent>, b: seq<StoredEvent>)
    ensures Concat(frame, a + b) == Concat(frame, a) + Concat(frame, b)
  {
    if a == [] {
      assert a + b == b;
    } else {
      ConcatSplit(frame, a[1..], b);
      assert (a + b)[1..] == a[1..] + b;
    }
  }

  lemma FramesSplit(env: Env, a: seq<StoredEvent>, b: seq<StoredEvent>)
    ensures Frames(env, a + b) == Frames(env, a) + Frames(env, b)
  {
    ConcatSplit(Framer(env), a, b);
  }

  lemma FramesLength(env: Env, es: seq<StoredEvent>)
    requires es != []
    ensures |Frames(env, es)| == HEADER_BYTES + |env.encode(es[0])| + |Frames(env, es[1..])|
  {
  }

  lemma {:induction false} LocateSnoc(env: Env, es: seq<StoredEvent>, e: StoredEvent, o: nat)
    ensures LocateAll(env, es + [e], o) == LocateAll(env, es, o) + [Locate(env, e, o + |Frames(env, es)|)]
    decreases |es|
  {
    if es != [] {
      var next := o + HEADER_BYTES + |env.encode(es[0])|;
      LocateSnoc(env, es[1..], e, next);
      FramesLength(env, es);
      assert (es + [e])[0] == es[0] && (es + [e])[1..] == es[1..] + [e];
      LocateStep(env, es, o, Some([Locate(env, e, o + |Frames(env, es)|)]));
    }
  }

  /** Reading an indexed frame returns exactly the event appended, whatever was
      appended to the file before and after it. */
  lemma ReadsBack(env: Env, files: map<string, Bytes>, ref: string, before: seq<StoredEvent>, e: StoredEvent, later: Bytes)
    requires env.Lawful() && Storable(env, ref, e)
    requires ref in files && files[ref] == Frames(env, before) + Frame(env.encode(e)) + later
    ensures ReadEvent(env, files, Locate(env, e, |Frames(env, before)|).row) == Some(e)
  {
    var body := env.encode(e);
    var row := Locate(env, e, |Frames(env, before)|).row;
    var frame := files[ref][row.offset..row.offset + row.frameBytes];
    assert frame == Frame(body);
    Pow256Bounds(|body|, HEADER_BYTES);
    BigEndianRoundTrip(|body|, HEADER_BYTES);
    assert frame[..HEADER_BYTES] == BigEndian(|body|, HEADER_BYTES);
    assert frame[HEADER_BYTES..] == body;
  }
}
