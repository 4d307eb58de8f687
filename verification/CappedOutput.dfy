/** Bounded capture of a process's output: the first and the last bytes of the stream
    around an omission marker whose own width depends on the number it prints
    (internal/kernel/shell.go). A `char` stands for one byte. */
module CappedOutput {

  type Bytes = string

  datatype Captured = Captured(text: Bytes, truncated: bool, originalBytes: nat, omittedBytes: nat)

  function Min(a: int, b: int): int { if a < b then a else b }

  function Max(a: int, b: int): int { if a > b then a else b }

  function Width(n: nat): (w: nat)
    ensures w >= 1
  {
    if n < 10 then 1 else 1 + Width(n / 10)
  }

  function Decimal(n: nat): (s: Bytes)
    ensures |s| == Width(n)
  {
    var digit := ['0' + (n % 10) as char];
    if n < 10 then digit else Decimal(n / 10) + digit
  }

  /** The length of the omission marker for `omitted` bytes. */
  function MarkerLength(omitted: nat): nat { 26 + Width(omitted) }

  function Marker(omitted: nat): (m: Bytes)
    ensures |m| == MarkerLength(omitted)
  {
    "\n[... " + Decimal(omitted) + " bytes omitted ...]\n"
  }

  /** How a budget is split between head and tail. */
  function HeadTailLimits(limit: int): (r: (nat, nat))
    ensures r.0 + r.1 == Max(0, limit)
  {
    if limit <= 0 then (0, 0)
    else
      var head := if limit / 2 == 0 then 1 else limit / 2;
      (head, limit - head)
  }

  function Join(head: Bytes, tail: Bytes, h: nat, t: nat, marker: Bytes): Bytes
    requires h <= |head| && t <= |tail|
  {
    head[..h] + marker + tail[|tail| - t..]
  }

  /** Outcome of the marker iteration: lengths that fit around their own marker, no
      room for anything but a marker, or lengths still to be tried. */
  datatype Settling = Kept(h: nat, t: nat) | NoRoom(omitted: nat) | Unsettled(h: nat, t: nat)

  /** One pass over a head of `hl` and a tail of `tl` bytes: take the marker for the
      kept lengths `h` and `t`, split what it leaves of the limit, and stop when the
      split is the one assumed. */
  function Pass(hl: nat, tl: nat, total: nat, limit: int, h: nat, t: nat): Settling {
    var omitted := Max(0, total - h - t);
    var budget := limit - MarkerLength(omitted);
    if budget <= 0 then NoRoom(omitted)
    else
      var next := HeadTailLimits(budget);
      var h' := Min(next.0, hl);
      var t' := Min(next.1, tl);
      if h' == h && t' == t then Kept(h, t) else Unsettled(h', t')
  }

  /** The iteration, run for at most `passes` passes. */
  function Settle(hl: nat, tl: nat, total: nat, limit: int, h: nat, t: nat, passes: nat): (r: Settling)
    requires h <= hl && t <= tl
    ensures !r.NoRoom? ==> r.h <= hl && r.t <= tl
    ensures r.NoRoom? ==> limit <= MarkerLength(r.omitted)
    decreases passes, hl
  {
    if passes == 0 then Unsettled(h, t)
    else
      var r := Pass(hl, tl, total, limit, h, t);
      if r.Unsettled? then Settle(hl, tl, total, limit, r.h, r.t, passes - 1) else r
  }

  lemma SettleStep(hl: nat, tl: nat, total: nat, limit: int, h: nat, t: nat, passes: nat)
    requires h <= hl && t <= tl && passes > 0
    ensures var r := Pass(hl, tl, total, limit, h, t);
            Settle(hl, tl, total, limit, h, t, passes)
            == if r.Unsettled? then Settle(hl, tl, total, limit, r.h, r.t, passes - 1) else r
  {
  }

  /** The text and the omitted count for kept lengths. */
  function Render(head: Bytes, tail: Bytes, total: nat, h: nat, t: nat): (Bytes, nat)
    requires h <= |head| && t <= |tail|
  {
    var omitted := Max(0, total - h - t);
    (Join(head, tail, h, t, Marker(omitted)), omitted)
  }

  /** What the code after the eight-pass loop computes. */
  function Fallback(head: Bytes, tail: Bytes, total: nat, limit: int, h: nat, t: nat): (Bytes, nat)
    requires h <= |head| && t <= |tail|
  {
    var room := MarkerLength(Max(0, total - h - t));
    if room + h + t > limit then
      var next := HeadTailLimits(Max(0, limit - room));
      Render(head, tail, total, Min(next.0, |head|), Min(next.1, |tail|))
    else Render(head, tail, total, h, t)
  }

  function Bounded(head: Bytes, tail: Bytes, total: nat, limit: int): (Bytes, nat) {
    if limit <= 0 then ("", total)
    else Rendered(head, tail, total, limit, Settle(|head|, |tail|, total, limit, |head|, |tail|, 8))
  }

  function Rendered(head: Bytes, tail: Bytes, total: nat, limit: int, r: Settling): (Bytes, nat)
    requires limit > 0
    requires !r.NoRoom? ==> r.h <= |head| && r.t <= |tail|
    requires r.NoRoom? ==> limit <= MarkerLength(r.omitted)
  {
    match r
    case Kept(h, t) => Render(head, tail, total, h, t)
    case NoRoom(omitted) => (Marker(omitted)[..limit], total)
    case Unsettled(h, t) => Fallback(head, tail, total, limit, h, t)
  }

  method MarkerText(omitted: nat) returns (marker: Bytes)
    ensures marker == Marker(omitted) && |marker| == MarkerLength(omitted)
  {
    marker := Marker(omitted);
  }

  method OnePass(head: Bytes, tail: Bytes, total: nat, limit: int, h: nat, t: nat) returns (r: Settling)
    ensures r == Pass(|head|, |tail|, total, limit, h, t)
  {
    var omitted := Max(0, total - h - t);
    var marker := MarkerText(omitted);
    var budget := limit - |marker|;
    if budget <= 0 { return NoRoom(omitted); }
    var next := HeadTailLimits(budget);
    var h', t' := Min(next.0, |head|), Min(next.1, |tail|);
    r := if h' == h && t' == t then Kept(h, t) else Unsettled(h', t');
  }

  /** The eight-pass loop. */
  method MarkerLoop(head: Bytes, tail: Bytes, total: nat, limit: int) returns (r: Settling)
    ensures r == Settle(|head|, |tail|, total, limit, |head|, |tail|, 8)
  {
    r := Unsettled(|head|, |tail|);
    for i := 0 to 8
      invariant r.Unsettled? && r.h <= |head| && r.t <= |tail|
      invariant Settle(|head|, |tail|, total, limit, |head|, |tail|, 8)
             == Settle(|head|, |tail|, total, limit, r.h, r.t, 8 - i)
    {
      SettleStep(|head|, |tail|, total, limit, r.h, r.t, 8 - i);
      r := OnePass(head, tail, total, limit, r.h, r.t);
      if !r.Unsettled? { return; }
    }
  }

  method BoundedHeadTailText(head: Bytes, tail: Bytes, total: nat, limit: int) returns (text: Bytes, omitted: nat)
    ensures (text, omitted) == Bounded(head, tail, total, limit)
  {
    if limit <= 0 { return "", total; }
    var r := MarkerLoop(head, tail, total, limit);
    match r {
      case NoRoom(n) =>
        var marker := Marker(n);
        return marker[..Min(|marker|, limit)], total;
      case Kept(h, t) =>
        omitted := Max(0, total - h - t);
        return Join(head, tail, h, t, Marker(omitted)), omitted;
      case Unsettled(h, t) =>
        text, omitted := AfterLoop(head, tail, total, limit, h, t);
    }
  }

  method AfterLoop(head: Bytes, tail: Bytes, total: nat, limit: int, h0: nat, t0: nat)
    returns (text: Bytes, omitted: nat)
    requires h0 <= |head| && t0 <= |tail|
    ensures (text, omitted) == Fallback(head, tail, total, limit, h0, t0)
  {
    var h, t := h0, t0;
    omitted := Max(0, total - h - t);
    var marker := Marker(omitted);
    if |marker| + h + t > limit {
      var next := HeadTailLimits(Max(0, limit - |marker|));
      h, t := Min(next.0, |head|), Min(next.1, |tail|);
      omitted := Max(0, total - h - t);
      marker := Marker(omitted);
    }
    text := Join(head, tail, h, t, marker);
  }

  /** What a capture of a whole stream is, however the stream was written. */
  function Capture(stream: Bytes, limit: int): Captured {
    if |stream| <= Max(0, limit) then Captured(stream, false, |stream|, 0)
    else
      var limits := HeadTailLimits(limit);
      var bounded := Bounded(stream[..limits.0], stream[|stream| - limits.1..], |stream|, limit);
      Captured(bounded.0, true, |stream|, bounded.1)
  }

  lemma Extended(s: Bytes, p: Bytes, n: nat)
    requires n <= |s|
    ensures (s + p)[..n] == s[..n] && (s + p)[..|s|] == s && (s + p)[|s|..] == p
  {
  }

  /** The last bytes of a longer stream, from the last bytes of the shorter one. */
  lemma TailExtended(s: Bytes, p: Bytes, t: nat)
    requires t <= |s|
    ensures (s[|s| - t..] + p)[|p|..] == (s + p)[|s + p| - t..]
  {
  }

  class CappedBuffer {
    const limit: int
    var full: Bytes
    var head: Bytes
    var tail: Bytes
    var total: nat
    var truncated: bool
    /** Everything written so far. */
    ghost var stream: Bytes

    /** The incremental state holds the whole stream while it fits, and its first and
        last bytes afterwards. */
    ghost predicate Valid() reads this {
      && total == |stream|
      && (truncated <==> |stream| > Max(0, limit))
      && (!truncated ==> full == stream && head == [] && tail == [])
      && (truncated ==> full == [] && head == stream[..HeadTailLimits(limit).0]
                        && tail == stream[|stream| - HeadTailLimits(limit).1..])
    }

    constructor (limit: int)
      ensures Valid() && stream == [] && this.limit == limit
    {
      this.limit := limit;
      full, head, tail, total, truncated, stream := [], [], [], 0, false, [];
    }

    method Write(p: Bytes) returns (written: nat)
      requires Valid()
      modifies this
      ensures Valid() && stream == old(stream) + p && written == |p|
    {
      written := |p|;
      if written == 0 {
        assert stream + p == stream;
        return;
      }
      stream := stream + p;
      total := total + written;
      if limit <= 0 {
        truncated := true;
        full := [];
        return;
      }
      if !truncated && |full| + written <= limit {
        full := full + p;
        return;
      }
      if !truncated {
        var combined := full + p;
        full := [];
        InitializeHeadTail(combined);
        return;
      }
      var limits := HeadTailLimits(limit);
      Extended(old(stream), p, limits.0);
      AppendTail(p);
    }

    method InitializeHeadTail(data: Bytes)
      requires |data| > limit > 0 && data == stream && total == |stream| && full == [] && head == [] && tail == []
      modifies this`truncated, this`head, this`tail
      ensures Valid() && truncated
    {
      truncated := true;
      var limits := HeadTailLimits(limit);
      var headLimit := Min(limits.0, |data|);
      head := data[..headLimit];
      var tailLimit := Min(limits.1, |data| - headLimit);
      if tailLimit > 0 { tail := data[|data| - tailLimit..]; }
    }

    method AppendTail(data: Bytes)
      requires limit > 0 && truncated && total == |stream| && |stream| >= |data| && |stream| - |data| > limit && full == []
      requires head == stream[..HeadTailLimits(limit).0]
      requires tail == stream[..|stream| - |data|][|stream| - |data| - HeadTailLimits(limit).1..]
      requires data == stream[|stream| - |data|..]
      modifies this`tail
      ensures Valid()
    {
      var tailLimit := HeadTailLimits(limit).1;
      if tailLimit <= 0 {
        return;
      }
      TailExtended(stream[..|stream| - |data|], data, tailLimit);
      assert stream == stream[..|stream| - |data|] + data;
      tail := tail + data;
      if |tail| > tailLimit { tail := tail[|tail| - tailLimit..]; }
    }

    /** The capture depends on the bytes written and the limit alone. */
    method TakeCapture() returns (c: Captured)
      requires Valid()
      ensures c == Capture(stream, limit)
    {
      if !truncated { return Captured(full, false, |full|, 0); }
      var text, omitted := BoundedHeadTailText(head, tail, total, limit);
      assert |stream| > Max(0, limit);
      c := Captured(text, true, total, omitted);
    }
  }

  // -------------------------------------------------- the marker's decimal width

  function Pow10(w: nat): nat { if w == 0 then 1 else 10 * Pow10(w - 1) }

  lemma {:induction false} WidthBounds(n: nat)
    ensures n < Pow10(Width(n))
    ensures n >= 10 ==> Pow10(Width(n) - 1) <= n
  {
    if n >= 10 { WidthBounds(n / 10); }
  }

  lemma {:induction false} Pow10Monotone(a: nat, b: nat)
    requires a <= b
    ensures Pow10(a) <= Pow10(b)
  {
    if a < b { Pow10Monotone(a, b - 1); }
  }

  lemma {:induction false} Pow10Grows(w: nat)
    requires w >= 1
    ensures Pow10(w) >= 10 * w
  {
    if w > 1 { Pow10Grows(w - 1); }
  }

  lemma WidthAtMost(n: nat, w: nat)
    requires w >= 1 && n < Pow10(w)
    ensures Width(n) <= w
  {
    WidthBounds(n);
    if Width(n) > w { Pow10Monotone(w, Width(n) - 1); }
  }

  lemma WidthMonotone(a: nat, b: nat)
    requires a <= b
    ensures Width(a) <= Width(b)
  {
    WidthBounds(b);
    WidthAtMost(a, Width(b));
  }

  /** Omitting the marker's own room widens the number by one digit at most, and the
      byte which that digit costs never widens it again. */
  lemma WidthSettles(n: nat)
    ensures var w := Width(n);
            w <= Width(n + 26 + w) <= Width(n + 26 + w + 1) <= w + 1
  {
    var w := Width(n);
    WidthBounds(n);
    Pow10Grows(w);
    WidthMonotone(n, n + 26 + w);
    WidthMonotone(n + 26 + w, n + 26 + w + 1);
    WidthAtMost(n + 26 + w + 1, w + 1);
  }

  // ----------------------------------------------------------- what a capture is

  lemma HeadTailMonotone(a: int, b: int)
    requires 0 < a <= b
    ensures HeadTailLimits(a).0 <= HeadTailLimits(b).0 && HeadTailLimits(a).1 <= HeadTailLimits(b).1
  {
  }

  /** The outcome fills the limit exactly: the kept lengths and their marker add up to
      the limit, or the limit has no room beside a marker. */
  ghost predicate FillsLimit(total: nat, limit: int, r: Settling) {
    && (r.Kept? ==> r.h + r.t <= total && r.h + r.t + MarkerLength(total - r.h - r.t) == limit)
    && (r.NoRoom? ==> r.omitted <= total)
    && !r.Unsettled?
  }

  /** The split of `kept` bytes, tried in a buffer that holds the split of `limit`. */
  ghost function Try(total: nat, limit: int, kept: nat, passes: nat): Settling
    requires 0 < kept <= limit
  {
    HeadTailMonotone(kept, limit);
    var all, part := HeadTailLimits(limit), HeadTailLimits(kept);
    Settle(all.0, all.1, total, limit, part.0, part.1, passes)
  }

  /** What the marker for the bytes around `kept` kept ones leaves of the limit. */
  ghost function Left(total: nat, limit: int, kept: int): int
    requires kept <= total
  {
    limit - MarkerLength(total - kept)
  }

  /** The budgets of successive passes shrink by one at most after the first, and
      only once. */
  lemma Budgets(total: nat, limit: int)
    requires 0 < limit < total
    ensures var b1 := Left(total, limit, limit);
            var b2 := Left(total, limit, b1);
            b1 < limit && (b2 == b1 || (b2 == b1 - 1 && Left(total, limit, b2) == b2))
  {
    var o1 := total - limit;
    WidthSettles(o1);
    var b1 := Left(total, limit, limit);
    assert total - b1 == o1 + 26 + Width(o1);
  }

  /** A pass over the split of `kept` bytes looks at the split of what its marker leaves. */
  lemma PassOverSplit(total: nat, limit: int, kept: nat)
    requires 0 < kept <= limit < total
    ensures var all, part, b := HeadTailLimits(limit), HeadTailLimits(kept), Left(total, limit, kept);
            && part.0 <= all.0 && part.1 <= all.1
            && (b <= 0 ==> Pass(all.0, all.1, total, limit, part.0, part.1) == NoRoom(total - kept))
            && (b == kept ==> Pass(all.0, all.1, total, limit, part.0, part.1) == Kept(part.0, part.1))
            && (0 < b < kept ==> Pass(all.0, all.1, total, limit, part.0, part.1)
                                 == Unsettled(HeadTailLimits(b).0, HeadTailLimits(b).1))
  {
    HeadTailMonotone(kept, limit);
    var b := Left(total, limit, kept);
    var part := HeadTailLimits(kept);
    assert part.0 + part.1 == kept;
    if 0 < b <= kept {
      HeadTailMonotone(b, limit);
      assert HeadTailLimits(b).0 + HeadTailLimits(b).1 == b;
    }
  }

  lemma TrySettles(total: nat, limit: int, kept: nat, passes: nat)
    requires 0 < kept <= limit < total && passes > 0
    requires Left(total, limit, kept) <= 0 || Left(total, limit, kept) == kept
    ensures FillsLimit(total, limit, Try(total, limit, kept, passes))
  {
    PassOverSplit(total, limit, kept);
    var all, part := HeadTailLimits(limit), HeadTailLimits(kept);
    SettleStep(all.0, all.1, total, limit, part.0, part.1, passes);
  }

  lemma TryContinues(total: nat, limit: int, kept: nat, passes: nat)
    requires 0 < kept <= limit < total && passes > 0
    requires 0 < Left(total, limit, kept) < kept
    ensures Try(total, limit, kept, passes) == Try(total, limit, Left(total, limit, kept), passes - 1)
  {
    PassOverSplit(total, limit, kept);
    var all, part := HeadTailLimits(limit), HeadTailLimits(kept);
    SettleStep(all.0, all.1, total, limit, part.0, part.1, passes);
  }

  /** The iteration settles within three passes, started as a truncated buffer of
      `total` bytes starts it, so the code after the eight-pass loop is unreachable. */
  lemma SettlesWithinThreePasses(total: nat, limit: int, passes: nat)
    requires 0 < limit < total && passes >= 3
    ensures FillsLimit(total, limit, Try(total, limit, limit, passes))
  {
    Budgets(total, limit);
    var b1 := Left(total, limit, limit);
    if b1 <= 0 {
      TrySettles(total, limit, limit, passes);
    } else {
      TryContinues(total, limit, limit, passes);
      var b2 := Left(total, limit, b1);
      if b2 <= 0 || b2 == b1 {
        TrySettles(total, limit, b1, passes - 1);
      } else {
        TryContinues(total, limit, b1, passes - 1);
        TrySettles(total, limit, b2, passes - 2);
      }
    }
  }

  ghost predicate KeptAround(stream: Bytes, h: nat, t: nat, c: Captured) {
    && h + t + c.omittedBytes == |stream|
    && c.text == stream[..h] + Marker(c.omittedBytes) + stream[|stream| - t..]
  }

  ghost predicate MarkerOnly(stream: Bytes, limit: nat, n: nat, c: Captured) {
    n <= |stream| && limit <= MarkerLength(n) && c.text == Marker(n)[..limit] && c.omittedBytes == |stream|
  }

  /** A truncated capture renders the outcome of the iteration. */
  lemma CaptureRenders(stream: Bytes, limit: int)
    requires 0 < limit < |stream|
    ensures var limits := HeadTailLimits(limit);
            var r := Try(|stream|, limit, limit, 8);
            var bounded := Rendered(stream[..limits.0], stream[|stream| - limits.1..], |stream|, limit, r);
            Capture(stream, limit) == Captured(bounded.0, true, |stream|, bounded.1)
  {
    var limits := HeadTailLimits(limit);
    assert |stream[..limits.0]| == limits.0 && |stream[|stream| - limits.1..]| == limits.1;
  }

  /** A truncated capture is exactly `limit` bytes long. It consists of the first `h`
      bytes of the stream, a marker and the last `t` bytes, where the marker prints
      the number of bytes in between; when the limit has no room for that, it is the
      beginning of a marker and the whole stream counts as omitted. */
  lemma TruncatedCapture(stream: Bytes, limit: int)
    requires 0 < limit < |stream|
    ensures var c := Capture(stream, limit);
            && c.truncated && |c.text| == limit && c.originalBytes == |stream|
            && ((exists h: nat, t: nat :: KeptAround(stream, h, t, c))
                || (limit <= MarkerLength(|stream|) && exists n: nat :: MarkerOnly(stream, limit, n, c)))
  {
    SettlesWithinThreePasses(|stream|, limit, 8);
    CaptureRenders(stream, limit);
    RenderedFillsLimit(stream, limit, Try(|stream|, limit, limit, 8), Capture(stream, limit));
  }

  lemma RenderedFillsLimit(stream: Bytes, limit: int, r: Settling, c: Captured)
    requires 0 < limit < |stream| && FillsLimit(|stream|, limit, r)
    requires r.Kept? ==> r.h <= HeadTailLimits(limit).0 && r.t <= HeadTailLimits(limit).1
    requires r.NoRoom? ==> limit <= MarkerLength(r.omitted)
    requires var limits := HeadTailLimits(limit);
             var bounded := Rendered(stream[..limits.0], stream[|stream| - limits.1..], |stream|, limit, r);
             c == Captured(bounded.0, true, |stream|, bounded.1)
    ensures |c.text| == limit
    ensures (exists h: nat, t: nat :: KeptAround(stream, h, t, c))
            || (limit <= MarkerLength(|stream|) && exists n: nat :: MarkerOnly(stream, limit, n, c))
  {
    var limits := HeadTailLimits(limit);
    var head, tail := stream[..limits.0], stream[|stream| - limits.1..];
    match r {
      case Kept(h, t) =>
        assert head[..h] == stream[..h];
        assert tail[|tail| - t..] == stream[|stream| - t..];
        assert KeptAround(stream, h, t, c);
      case NoRoom(n) =>
        WidthMonotone(n, |stream|);
        assert MarkerOnly(stream, limit, n, c);
    }
  }

  /** Writing a stream in pieces is writing it at once: the captured output never
      depends on how the stream was split. */
  method CapturePieces(pieces: seq<Bytes>, limit: int) returns (c: Captured)
    ensures c == Capture(Flatten(pieces), limit)
  {
    var b := new CappedBuffer(limit);
    for i := 0 to |pieces|
      invariant b.Valid() && b.limit == limit && b.stream == Flatten(pieces[..i])
    {
      var _ := b.Write(pieces[i]);
      assert pieces[..i + 1] == pieces[..i] + [pieces[i]];
      FlattenSnoc(pieces[..i], pieces[i]);
    }
    assert pieces[..|pieces|] == pieces;
    c := b.TakeCapture();
  }

  function Flatten(pieces: seq<Bytes>): Bytes {
    if pieces == [] then [] else pieces[0] + Flatten(pieces[1..])
  }

  lemma {:induction false} FlattenSnoc(pieces: seq<Bytes>, p: Bytes)
    ensures Flatten(pieces + [p]) == Flatten(pieces) + p
  {
    if pieces == [] {
      assert [p][1..] == [];
    } else {
      FlattenSnoc(pieces[1..], p);
      assert (pieces + [p])[1..] == pieces[1..] + [p];
    }
  }
}
