/** Memory review (internal/kernel/memory.go): candidates are created, approved, rejected,
    superseded and forgotten by events that carry the whole candidate; a fold merges the
    events and refuses competing evidence. A second fold builds the candidates of one
    session (internal/kernel/session_projection.go). */
module Memory {
  import opened Wrappers

  datatype Result<T> = Ok(value: T) | Err(error: Error)

  datatype Error = MissingId | Competing(id: string)

  datatype Status = Pending | Approved | Rejected | Superseded | Forgotten

  /** What a review may not change. */
  datatype Core = Core(id: string, session: string, text: string, sourceRef: string, kind: string, scope: string,
                       appliesWhen: string, yieldsTo: string, strength: string, createdAt: int)

  datatype Decision = Decision(authority: string, reason: string, evidenceRef: string, at: int)

  datatype Candidate = Candidate(core: Core, status: Status, approval: Option<Decision>, rejection: Option<Decision>,
                                 supersession: Option<Decision>, replacement: string, forgetting: Option<Decision>)

  datatype Event =
    | Reviewed(candidate: Candidate)
    | Supersession(candidate: Candidate, replacement: Candidate)

  /** The candidates by id and their ids in the order of first appearance. */
  datatype Book = Book(candidates: map<string, Candidate>, order: seq<string>)

  const EMPTY := Book(map[], [])

  function Rank(s: Status): nat {
    match s
    case Pending => 0
    case Approved => 1
    case Rejected => 1
    case Superseded => 2
    case Forgotten => 3
  }

  function Merge(current: Candidate, incoming: Candidate): (r: Result<Candidate>)
    ensures r.Ok? ==> r.value.core == current.core && Rank(r.value.status) >= Rank(current.status)
    ensures r.Ok? && r.value.status == current.status ==> r.value == current
  {
    var competing := Err(Competing(current.core.id));
    if current.core != incoming.core then competing
    else
      match current.status
      case Forgotten =>
        if incoming.status == Forgotten && current.forgetting == incoming.forgetting then Ok(current) else competing
      case Superseded =>
        if incoming.status == Forgotten then Ok(incoming)
        else if incoming.status == Superseded && current.supersession == incoming.supersession
                && current.replacement == incoming.replacement then Ok(current)
        else competing
      case Pending => Ok(if incoming.status == Pending then current else incoming)
      case Approved =>
        if incoming.status == Forgotten || incoming.status == Superseded then Ok(incoming)
        else if incoming.status == Approved && current.approval == incoming.approval then Ok(current)
        else competing
      case Rejected =>
        if incoming.status == Forgotten || incoming.status == Superseded then Ok(incoming)
        else if incoming.status == Rejected && current.rejection == incoming.rejection then Ok(current)
        else competing
  }

  // ------------------------------------------------------------------ the global fold

  function Record(b: Book, c: Candidate): Result<Book> {
    var id := c.core.id;
    if id == "" then Err(MissingId)
    else if id !in b.candidates then Ok(Book(b.candidates[id := c], b.order + [id]))
    else
      match Merge(b.candidates[id], c)
      case Err(e) => Err(e)
      case Ok(merged) => Ok(b.(candidates := b.candidates[id := merged]))
  }

  function Apply(b: Book, e: Event): Result<Book> {
    match Record(b, e.candidate)
    case Err(error) => Err(error)
    case Ok(next) => if e.Reviewed? then Ok(next) else Record(next, e.replacement)
  }

  function Fold(log: seq<Event>): Result<Book> {
    if log == [] then Ok(EMPTY)
    else
      match Fold(log[..|log| - 1])
      case Err(error) => Err(error)
      case Ok(b) => Apply(b, log[|log| - 1])
  }

  // ------------------------------------------------------------------ the session builder

  datatype Builder = Builder(items: seq<Candidate>, byId: map<string, nat>)

  const NO_ITEMS := Builder([], map[])

  predicate WellIndexed(b: Builder) { forall id | id in b.byId :: b.byId[id] < |b.items| }

  function Upsert(b: Builder, c: Candidate): (r: Result<Builder>)
    requires WellIndexed(b)
    ensures r.Ok? ==> WellIndexed(r.value)
  {
    var id := c.core.id;
    if id == "" then Err(MissingId)
    else if id in b.byId then
      match Merge(b.items[b.byId[id]], c)
      case Err(e) => Err(e)
      case Ok(merged) => Ok(b.(items := b.items[b.byId[id] := merged]))
    else Ok(Builder(b.items + [c], b.byId[id := |b.items|]))
  }

  function ApplyOwn(b: Builder, e: Event): (r: Result<Builder>)
    requires WellIndexed(b)
    ensures r.Ok? ==> WellIndexed(r.value)
  {
    match Upsert(b, e.candidate)
    case Err(error) => Err(error)
    case Ok(next) => if e.Reviewed? then Ok(next) else Upsert(next, e.replacement)
  }

  /** Only the events of the session are applied. */
  function Build(log: seq<Event>, session: string): (r: Result<Builder>)
    ensures r.Ok? ==> WellIndexed(r.value)
  {
    if log == [] then Ok(NO_ITEMS)
    else
      match Build(log[..|log| - 1], session)
      case Err(error) => Err(error)
      case Ok(b) => if log[|log| - 1].candidate.core.session != session then Ok(b) else ApplyOwn(b, log[|log| - 1])
  }

  // ------------------------------------------------------------------ legal logs

  predicate Mentions(e: Event, id: string) { e.candidate.core.id == id || (e.Supersession? && e.replacement.core.id == id) }

  predicate New(log: seq<Event>, id: string) {
    id != "" && forall i | 0 <= i < |log| :: !Mentions(log[i], id)
  }

  function Created(core: Core): Candidate { Candidate(core, Pending, None, None, None, "", None) }

  /** A review of the recorded candidate. */
  predicate Review(b: Book, c: Candidate) {
    && c.core.id in b.candidates
    && var current := b.candidates[c.core.id];
       match c.status
       case Approved => current.status == Pending && c.approval.Some? && c == current.(status := Approved, approval := c.approval)
       case Rejected => current.status == Pending && c.rejection.Some? && c == current.(status := Rejected, rejection := c.rejection)
       case Forgotten =>
         current.status != Forgotten && c.forgetting.Some? && c == current.(status := Forgotten, forgetting := c.forgetting)
       case _ => false
  }

  predicate Replaced(b: Book, c: Candidate, r: Candidate) {
    && c.core.id in b.candidates
    && var current := b.candidates[c.core.id];
       && current.status in {Pending, Approved, Rejected} && c.supersession.Some?
       && c == current.(status := Superseded, supersession := c.supersession, replacement := r.core.id)
       && r == Created(r.core) && r.core.session == current.core.session
  }

  /** What the kernel may append. Creating does not look at the log: its id is new. */
  predicate Allowed(log: seq<Event>, e: Event) {
    match e
    case Reviewed(c) =>
      || (New(log, c.core.id) && c == Created(c.core))
      || (Fold(log).Ok? && Review(Fold(log).value, c))
    case Supersession(c, r) =>
      New(log, r.core.id) && r.core.id != c.core.id && Fold(log).Ok? && Replaced(Fold(log).value, c, r)
  }

  predicate Legal(log: seq<Event>) {
    log == [] || (Legal(log[..|log| - 1]) && Allowed(log[..|log| - 1], log[|log| - 1]))
  }
}
