/** Context compaction: which turns of a session are summarised and which stay verbatim
    (internal/kernel/context_compaction.go and the history folds of
    internal/kernel/kernel.go). The log holds the events of one session; every fold of
    the source skips the events of other sessions. */
module Compaction {
  import opened Wrappers

  type TurnId = string

  datatype Call = Call(eventId: string, tool: string, arguments: string)

  datatype Outcome = Outcome(forEventId: string, status: string, content: string)

  datatype Exchange = Exchange(tool: string, arguments: string, status: string, content: string)

  /** One entry of the completed-turn list. */
  datatype Entry = Entry(turn: TurnId, userText: string, exchanges: seq<Exchange>, assistantText: string)

  /** `auto` tells the two triggers apart, `stuck` is the deferral reason of the guard. */
  datatype Compaction = Compaction(auto: bool, through: TurnId, count: nat, source: int, stuck: bool, summary: string)

  datatype Event =
    | Submitted(turn: TurnId, text: string)
    | ToolCalled(turn: TurnId, call: Call)
    | ToolReturned(turn: TurnId, outcome: Outcome)
    | Final(turn: TurnId, text: string, inputTokens: Option<int>)
    | Paused(turn: TurnId, text: string)
    | TurnFailed(turn: TurnId)
    | Accounted(turn: TurnId, tokens: int)
    | Started(turn: TurnId, compaction: Compaction)
    | Completed(turn: TurnId, compaction: Compaction)
    | Failed(turn: TurnId, compaction: Compaction)
    | Deferred(turn: TurnId, compaction: Compaction)

  datatype Policy = Policy(window: int, ratio: real, recentTurns: int, tailTokens: int, backoffTurns: int)

  const DEFAULT_RECENT_TURNS := 2

  // ------------------------------------------------------------------ text

  predicate Space(c: char) {
    var n := c as int;
    || 9 <= n <= 13 || n == 0x20 || n == 0x85 || n == 0xa0 || n == 0x1680 || 0x2000 <= n <= 0x200a
    || n == 0x2028 || n == 0x2029 || n == 0x202f || n == 0x205f || n == 0x3000
  }

  function Trim(s: string): string {
    if s == "" then s
    else if Space(s[0]) then Trim(s[1..])
    else if Space(s[|s| - 1]) then Trim(s[..|s| - 1])
    else s
  }

  /** The last result reported for a call. */
  function ResultFor(id: string, results: seq<Outcome>): Option<Outcome> {
    if results == [] then None
    else if Trim(results[|results| - 1].forEventId) == id then Some(results[|results| - 1])
    else ResultFor(id, results[..|results| - 1])
  }

  function Exchanges(calls: seq<Call>, results: seq<Outcome>): seq<Exchange> {
    if calls == [] then []
    else
      var rest := Exchanges(calls[..|calls| - 1], results);
      var call := calls[|calls| - 1];
      match ResultFor(Trim(call.eventId), results)
      case None => rest
      case Some(o) => rest + [Exchange(Trim(call.tool), Trim(call.arguments), Trim(o.status), Trim(o.content))]
  }

  // ------------------------------------------------------------------ the completed-turn fold

  /** The working maps of the fold and the list it builds. */
  datatype Folded = Folded(inputs: map<TurnId, string>, calls: map<TurnId, seq<Call>>,
                           results: map<TurnId, seq<Outcome>>, turns: seq<Entry>)

  function Get<V>(m: map<TurnId, V>, t: TurnId, default: V): V { if t in m then m[t] else default }

  function Forget(f: Folded, t: TurnId): Folded {
    f.(inputs := f.inputs - {t}, calls := f.calls - {t}, results := f.results - {t})
  }

  /** The entry that ends turn `t`, if it has anything to show. */
  function Closed(f: Folded, t: TurnId, assistant: string, paused: bool): seq<Entry> {
    var user := Get(f.inputs, t, "");
    var exchanges := Exchanges(Get(f.calls, t, []), Get(f.results, t, []));
    if Trim(user) != "" || exchanges != [] || (!paused && assistant != "")
    then [Entry(t, user, exchanges, assistant)] else []
  }

  function Fold(f: Folded, e: Event): Folded {
    match e
    case Submitted(t, text) => f.(inputs := f.inputs[t := text])
    case ToolCalled(t, c) => f.(calls := f.calls[t := Get(f.calls, t, []) + [c]])
    case ToolReturned(t, o) => f.(results := f.results[t := Get(f.results, t, []) + [o]])
    case Final(t, text, _) => Forget(f, t).(turns := f.turns + Closed(f, t, Trim(text), false))
    case Paused(t, text) => Forget(f, t).(turns := f.turns + Closed(f, t, text, true))
    case TurnFailed(t) => Forget(f, t)
    case _ => f
  }

  function FoldAll(log: seq<Event>): Folded {
    if log == [] then Folded(map[], map[], map[], [])
    else Fold(FoldAll(log[..|log| - 1]), log[|log| - 1])
  }

  function Turns(log: seq<Event>): seq<Entry> { FoldAll(log).turns }

  /** Both history folds stop at the submission of the turn they prepare. */
  function Before(log: seq<Event>, turn: TurnId): (r: seq<Event>)
    ensures r <= log
  {
    if log == [] then []
    else if turn != "" && log[0].Submitted? && log[0].turn == turn then []
    else [log[0]] + Before(log[1..], turn)
  }

  // ------------------------------------------------------------------ the cut

  function LatestCompleted(log: seq<Event>): Option<Compaction> {
    if log == [] then None
    else if log[|log| - 1].Completed? then Some(log[|log| - 1].compaction)
    else LatestCompleted(log[..|log| - 1])
  }

  function Through(log: seq<Event>): TurnId {
    match LatestCompleted(log) case None => "" case Some(c) => c.through
  }

  /** Position just after the first entry of turn `id`; 0 when there is none. */
  function Cut(turns: seq<Entry>, id: TurnId): (n: nat)
    ensures n <= |turns|
  {
    if id == "" || turns == [] then 0
    else
      var before := Cut(turns[..|turns| - 1], id);
      if before > 0 then before else if turns[|turns| - 1].turn == id then |turns| else 0
  }

  /** Entries from here on are shown verbatim. */
  function CutOf(log: seq<Event>): (n: nat)
    ensures n <= |Turns(log)|
  {
    Cut(Turns(log), Through(log))
  }

  function Verbatim(log: seq<Event>): seq<Entry> { Turns(log)[CutOf(log)..] }

  // ------------------------------------------------------------------ the region to compact

  function Accounting(log: seq<Event>): map<TurnId, int> {
    if log == [] then map[]
    else
      var acc := Accounting(log[..|log| - 1]);
      var e := log[|log| - 1];
      if e.Accounted? then acc[e.turn := e.tokens] else acc
  }

  function Tokens(acc: map<TurnId, int>, e: Entry): int { Get(acc, e.turn, 0) }

  function Floor(p: Policy): (n: nat)
    ensures n > 0
  {
    if p.recentTurns <= 0 then DEFAULT_RECENT_TURNS else p.recentTurns
  }

  /** The backward walk with `turns[n..]` kept so far: where the region ends. */
  function WalkBack(turns: seq<Entry>, acc: map<TurnId, int>, floor: nat, budget: int, n: nat, used: int): (end: nat)
    requires n <= |turns| && 0 < floor < |turns|
    ensures end < |turns|
  {
    if n == 0 then 0
    else
      var x := Tokens(acc, turns[n - 1]);
      if x <= 0 then (if n == |turns| then |turns| - floor else n)
      else if |turns| - n >= floor && used + x > budget then n
      else WalkBack(turns, acc, floor, budget, n - 1, used + x)
  }

  /** Length of the region: the oldest eligible entries, possibly none. The newest entry
      is never compacted. */
  function RegionLength(turns: seq<Entry>, p: Policy, acc: map<TurnId, int>): (n: nat)
    ensures n > 0 ==> n < |turns|
  {
    if |turns| <= Floor(p) then 0
    else if p.tailTokens > 0 then WalkBack(turns, acc, Floor(p), p.tailTokens, |turns|, 0)
    else |turns| - Floor(p)
  }

  function Region(p: Policy, log: seq<Event>): (n: nat)
    ensures n > 0 ==> CutOf(log) + n < |Turns(log)|
  {
    RegionLength(Verbatim(log), p, Accounting(log))
  }

  ghost predicate AllAccounted(turns: seq<Entry>, acc: map<TurnId, int>, n: nat) {
    forall k | n <= k < |turns| :: Tokens(acc, turns[k]) > 0
  }

  /** Tokens of the entries from `n` on. */
  ghost function TailTokens(turns: seq<Entry>, acc: map<TurnId, int>, n: nat): int
    requires n <= |turns|
    decreases |turns| - n
  {
    if n == |turns| then 0 else Tokens(acc, turns[n]) + TailTokens(turns, acc, n + 1)
  }

  lemma {:induction false} WalkBackMeaning(turns: seq<Entry>, acc: map<TurnId, int>, floor: nat, budget: int, n: nat)
    requires n <= |turns| && 0 < floor < |turns| && AllAccounted(turns, acc, n)
    requires |turns| - n > floor ==> TailTokens(turns, acc, n) <= budget
    ensures var end := WalkBack(turns, acc, floor, budget, n, TailTokens(turns, acc, n));
            && (Tokens(acc, turns[|turns| - 1]) > 0 ==> AllAccounted(turns, acc, end))
            && (Tokens(acc, turns[|turns| - 1]) <= 0 ==> end == |turns| - floor)
            && (Tokens(acc, turns[|turns| - 1]) > 0 && |turns| - end < floor ==> end > 0 && Tokens(acc, turns[end - 1]) <= 0)
            && (Tokens(acc, turns[|turns| - 1]) > 0 && |turns| - end > floor ==> TailTokens(turns, acc, end) <= budget)
            && (Tokens(acc, turns[|turns| - 1]) > 0 && |turns| - end >= floor && end > 0 && Tokens(acc, turns[end - 1]) > 0
                ==> TailTokens(turns, acc, end - 1) > budget)
  {
    if n > 0 && Tokens(acc, turns[n - 1]) > 0
       && !(|turns| - n >= floor && TailTokens(turns, acc, n) + Tokens(acc, turns[n - 1]) > budget) {
      WalkBackMeaning(turns, acc, floor, budget, n - 1);
    }
  }

  /** The token-budgeted region in its own terms. Call an entry accounted when the
      provider reported a positive token count for its turn. The recent-turn floor is
      kept if and only if the newest entry is unaccounted or the newest `floor` entries
      are all accounted; otherwise only the accounted newest entries are kept. When the
      floor is kept with accounting, the kept tail is the longest accounted one that fits
      the budget, but no shorter than the floor. */
  lemma RegionByAccounting(turns: seq<Entry>, p: Policy, acc: map<TurnId, int>)
    requires |turns| > Floor(p) && p.tailTokens > 0
    ensures var end := RegionLength(turns, p, acc);
            var floor := Floor(p);
            var newest := Tokens(acc, turns[|turns| - 1]);
            && (|turns| - end >= floor <==> newest <= 0 || AllAccounted(turns, acc, |turns| - floor))
            && (newest <= 0 ==> end == |turns| - floor)
            && (newest > 0 ==> AllAccounted(turns, acc, end))
            && (newest > 0 && |turns| - end < floor ==> end > 0 && Tokens(acc, turns[end - 1]) <= 0)
            && (newest > 0 && |turns| - end > floor ==> TailTokens(turns, acc, end) <= p.tailTokens)
            && (newest > 0 && |turns| - end >= floor && end > 0 && Tokens(acc, turns[end - 1]) > 0
                ==> TailTokens(turns, acc, end - 1) > p.tailTokens)
  {
    WalkBackMeaning(turns, acc, Floor(p), p.tailTokens, |turns|);
  }

  // ------------------------------------------------------------------ when a compaction may start

  function AutoLimit(p: Policy): int {
    if p.window <= 0 || p.ratio <= 0.0 then 0
    else
      var limit := (p.window as real * p.ratio).Floor;
      if limit <= 0 then 1 else limit
  }

  /** The turn of the last failure after the last completion. */
  function LatestFailure(log: seq<Event>): Option<TurnId> {
    if log == [] || log[|log| - 1].Completed? then None
    else if log[|log| - 1].Failed? then Some(log[|log| - 1].turn)
    else LatestFailure(log[..|log| - 1])
  }

  /** Entries after the first one of turn `id`; 0 when there is none. */
  function TurnsAfter(turns: seq<Entry>, id: TurnId): nat {
    if Cut(turns, id) == 0 then 0 else |turns| - Cut(turns, id)
  }

  predicate Backoff(p: Policy, log: seq<Event>) {
    && p.backoffTurns > 0
    && match LatestFailure(log)
       case None => false
       case Some(turn) => TurnsAfter(Turns(log), turn) <= p.backoffTurns
  }

  /** Position of the last entry of turn `id`. */
  function IndexOf(turns: seq<Entry>, id: TurnId): (i: Option<nat>)
    ensures i.Some? ==> i.value < |turns| && turns[i.value].turn == id
  {
    if turns == [] || id == "" then None
    else if turns[|turns| - 1].turn == id then Some(|turns| - 1)
    else IndexOf(turns[..|turns| - 1], id)
  }

  predicate AutoCompletion(e: Event, limit: int) { e.Completed? && e.compaction.auto && e.compaction.source >= limit }

  /** Completed automatic compactions, latest first, while their turns step down from
      position `expected` of the turn list. */
  function Consecutive(log: seq<Event>, expected: int, limit: int, turns: seq<Entry>): nat {
    if log == [] then 0
    else
      var e := log[|log| - 1];
      if !AutoCompletion(e, limit) then Consecutive(log[..|log| - 1], expected, limit, turns)
      else if IndexOf(turns, e.turn).None? || IndexOf(turns, e.turn).value != expected then 0
      else 1 + Consecutive(log[..|log| - 1], expected - 1, limit, turns)
  }

  predicate StuckDeferral(e: Event) { e.Deferred? && e.compaction.auto && e.compaction.stuck }

  /** The latest stuck deferral was triggered by the entry at `previous`. */
  predicate DeferredAt(log: seq<Event>, previous: int, turns: seq<Entry>) {
    if log == [] || previous < 0 then false
    else
      var e := log[|log| - 1];
      if StuckDeferral(e) then IndexOf(turns, e.turn).Some? && IndexOf(turns, e.turn).value == previous
      else DeferredAt(log[..|log| - 1], previous, turns)
  }

  predicate Stuck(p: Policy, log: seq<Event>, turn: TurnId, auto: bool, source: int) {
    var limit := AutoLimit(p);
    auto && limit > 0 && source >= limit &&
    match IndexOf(Turns(log), turn)
    case None => false
    case Some(i) => Consecutive(log, i - 1, limit, Turns(log)) >= 2 || DeferredAt(log, i - 1, Turns(log))
  }

  /** Tool events are written without the session's active slot: by the workers that turns
      delegate to, and for a worker's result by the goroutine that ends it. */
  predicate Tool(e: Event) { e.ToolCalled? || e.ToolReturned? }

  /** The log without the tool events at its end. */
  function Settled(log: seq<Event>): seq<Event> {
    if log != [] && Tool(log[|log| - 1]) then Settled(log[..|log| - 1]) else log
  }

  /** The last event that is no tool event. */
  function LastSettled(log: seq<Event>): Option<Event> {
    var s := Settled(log);
    if s == [] then None else Some(s[|s| - 1])
  }

  /** An automatic compaction runs after the final message of its turn, when the reported
      input tokens reach the limit; a manual one names no turn and no tokens. The session's
      active slot keeps all but tool events out meanwhile. */
  predicate Triggered(p: Policy, log: seq<Event>, turn: TurnId, auto: bool, source: int) {
    if auto then
      && AutoLimit(p) > 0 && source >= AutoLimit(p)
      && match LastSettled(log)
         case Some(Final(t, _, tokens)) => t == turn && tokens == Some(source)
         case _ => false
    else turn == "" && source == 0
  }

  function StartRecord(p: Policy, log: seq<Event>, auto: bool, source: int): Compaction
    requires Region(p, log) > 0
  {
    Compaction(auto, Turns(log)[CutOf(log) + Region(p, log) - 1].turn, Region(p, log), source, false, "")
  }

  predicate MayStart(p: Policy, log: seq<Event>, turn: TurnId, c: Compaction) {
    && Triggered(p, log, turn, c.auto, c.source) && Region(p, log) > 0
    && !Backoff(p, log) && !Stuck(p, log, turn, c.auto, c.source)
    && c == StartRecord(p, log, c.auto, c.source)
  }

  /** What the kernel may append. A completion or failure follows its start with nothing
      but tool events in between, unless the process stops and the compaction is simply
      left without an end. A final message always has visible text. */
  predicate Allowed(p: Policy, log: seq<Event>, e: Event) {
    match e
    case Final(_, text, _) => Trim(text) != ""
    case Started(turn, c) => MayStart(p, log, turn, c)
    case Completed(turn, c) => LastSettled(log) == Some(Started(turn, c.(summary := ""))) && c.summary != ""
    case Failed(turn, c) => LastSettled(log) == Some(Started(turn, c))
    case Deferred(turn, c) =>
      && Triggered(p, log, turn, c.auto, c.source) && Region(p, log) > 0
      && if c.stuck then Stuck(p, log, turn, c.auto, c.source) else Backoff(p, log)
    case _ => true
  }

  predicate Legal(p: Policy, log: seq<Event>) {
    log == [] || (Legal(p, log[..|log| - 1]) && Allowed(p, log[..|log| - 1], log[|log| - 1]))
  }
}
