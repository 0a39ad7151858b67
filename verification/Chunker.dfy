/**
 The sliding-window chunker of the docs index: windows with soft right edges.
 `ChunkText` is the loop; `Chunks` lists its windows in closed form.
 */
module Chunker {
  import opened Text

  datatype Chunk = Chunk(ord: nat, text: string, startChar: nat, endChar: nat)

  // Split priorities: paragraph, line, sentence, word.
  const BREAKPOINTS: seq<string> := ["\n\n", "\n", ". ", " "]

  predicate OccursAt(text: string, sep: string, i: int) {
    0 <= i && i + |sep| <= |text| && text[i..i + |sep|] == sep
  }

  // Where `sep` occurs within `text[lo..hi]`.
  predicate OccursWithin(text: string, sep: string, lo: nat, hi: nat, i: int) {
    lo <= i && i + |sep| <= hi && OccursAt(text, sep, i)
  }

  // `text.rfind(sep, lo, hi)`.
  function LastIndex(text: string, sep: string, lo: nat, hi: nat): (idx: int)
    requires hi <= |text|
    ensures idx == -1 || lo <= idx <= hi - |sep|
  {
    if hi < lo + |sep| then -1
    else if OccursAt(text, sep, hi - |sep|) then hi - |sep|
    else if hi == 0 then -1
    else LastIndex(text, sep, lo, hi - 1)
  }

  /** It is the last occurrence inside the range, or -1 when there is none. */
  lemma {:induction false} LastIndexIsLast(text: string, sep: string, lo: nat, hi: nat)
    requires hi <= |text|
    ensures var idx := LastIndex(text, sep, lo, hi);
            && (idx == -1 ==> forall i :: !OccursWithin(text, sep, lo, hi, i))
            && (idx != -1 ==>
                  && OccursWithin(text, sep, lo, hi, idx)
                  && forall i :: i > idx ==> !OccursWithin(text, sep, lo, hi, i))
  {
    if hi >= lo + |sep| && !OccursAt(text, sep, hi - |sep|) && hi > 0 {
      LastIndexIsLast(text, sep, lo, hi - 1);
      assert forall i :: OccursWithin(text, sep, lo, hi, i) ==>
               i == hi - |sep| || OccursWithin(text, sep, lo, hi - 1, i);
    }
  }

  function BreakFrom(text: string, lo: nat, hi: nat, s: nat): (end: nat)
    requires lo <= hi <= |text| && s <= |BREAKPOINTS|
    ensures lo <= end <= hi
    decreases |BREAKPOINTS| - s
  {
    if s == |BREAKPOINTS| then hi
    else
      var idx := LastIndex(text, BREAKPOINTS[s], lo, hi);
      if idx != -1 then idx + |BREAKPOINTS[s]| else BreakFrom(text, lo, hi, s + 1)
  }

  // The soft right edge of a window whose end may lie anywhere in `lo..hi`.
  function SoftEdge(text: string, lo: nat, hi: nat): (end: nat)
    requires lo <= hi <= |text|
    ensures lo <= end <= hi
  {
    BreakFrom(text, lo, hi, 0)
  }

  // Breakpoint `s` is the first that occurs in the range, and `end` is just after
  // its last occurrence.
  ghost predicate BreaksAt(text: string, lo: nat, hi: nat, s: nat, end: int)
    requires s < |BREAKPOINTS|
  {
    && OccursWithin(text, BREAKPOINTS[s], lo, hi, end - |BREAKPOINTS[s]|)
    && (forall i :: i > end - |BREAKPOINTS[s]| ==> !OccursWithin(text, BREAKPOINTS[s], lo, hi, i))
    && NoBreakBefore(text, lo, hi, s)
  }

  ghost predicate NoBreakBefore(text: string, lo: nat, hi: nat, s: nat)
    requires s <= |BREAKPOINTS|
  {
    forall r, i :: 0 <= r < s ==> !OccursWithin(text, BREAKPOINTS[r], lo, hi, i)
  }

  /** The soft edge is the last paragraph break in the range, failing that the last
      line break, sentence end or word end, and failing all the hard edge. */
  lemma SoftEdgeIsBestBreak(text: string, lo: nat, hi: nat)
    requires lo <= hi <= |text|
    ensures var end := SoftEdge(text, lo, hi);
            || (end == hi && NoBreakBefore(text, lo, hi, |BREAKPOINTS|))
            || exists s: nat :: s < |BREAKPOINTS| && BreaksAt(text, lo, hi, s, end)
  {
    BreakFromIsBest(text, lo, hi, 0);
  }

  lemma {:induction false} BreakFromIsBest(text: string, lo: nat, hi: nat, s: nat)
    requires lo <= hi <= |text| && s <= |BREAKPOINTS| && NoBreakBefore(text, lo, hi, s)
    ensures var end := BreakFrom(text, lo, hi, s);
            || (end == hi && NoBreakBefore(text, lo, hi, |BREAKPOINTS|))
            || exists s: nat :: s < |BREAKPOINTS| && BreaksAt(text, lo, hi, s, end)
    decreases |BREAKPOINTS| - s
  {
    if s < |BREAKPOINTS| {
      LastIndexIsLast(text, BREAKPOINTS[s], lo, hi);
      if LastIndex(text, BREAKPOINTS[s], lo, hi) == -1 {
        BreakFromIsBest(text, lo, hi, s + 1);
      } else {
        assert BreaksAt(text, lo, hi, s, BreakFrom(text, lo, hi, s));
      }
    }
  }

  method RFind(text: string, sep: string, lo: nat, hi: nat) returns (idx: int)
    requires hi <= |text|
    ensures idx == LastIndex(text, sep, lo, hi)
  {
    idx := hi - |sep|;
    while idx >= lo
      invariant idx + |sep| >= 0 ==>
                idx + |sep| <= hi && LastIndex(text, sep, lo, idx + |sep|) == LastIndex(text, sep, lo, hi)
      invariant idx < lo ==> LastIndex(text, sep, lo, hi) == -1
    {
      if OccursAt(text, sep, idx) { return; }
      idx := idx - 1;
    }
    idx := -1;
  }

  /** `_find_break`. */
  method FindBreak(text: string, targetEnd: nat, minEnd: nat) returns (end: nat)
    requires minEnd <= targetEnd <= |text|
    ensures end == SoftEdge(text, minEnd, targetEnd)
  {
    for s := 0 to |BREAKPOINTS|
      invariant SoftEdge(text, minEnd, targetEnd) == BreakFrom(text, minEnd, targetEnd, s)
    {
      var idx := RFind(text, BREAKPOINTS[s], minEnd, targetEnd);
      if idx != -1 {
        return idx + |BREAKPOINTS[s]|;
      }
    }
    return targetEnd;
  }

  // ---- the windows in closed form ---------------------------------------------

  // The two numbers a caller configures, as the loop uses them.
  datatype Widths = Widths(size: nat, overlap: nat) {
    predicate Valid() { size >= 1 }

    // An overlap as wide as the window is replaced by a fifth of it.
    function Slack(): nat {
      if overlap >= size then size / 5 else overlap
    }

    function Step(): (step: nat)
      requires Valid()
      ensures 1 <= step <= size && step + Slack() == size
    {
      size - Slack()
    }
  }

  // Each window starts one step after the one before.
  function Start(w: Widths, k: nat): nat
    requires w.Valid()
  {
    if k == 0 then 0 else Start(w, k - 1) + w.Step()
  }

  lemma {:induction false} StartIsMultiple(w: Widths, k: nat)
    requires w.Valid()
    ensures Start(w, k) == k * w.Step()
  {
    if k > 0 {
      StartIsMultiple(w, k - 1);
      assert k * w.Step() == (k - 1) * w.Step() + w.Step();
    }
  }

  predicate IsLast(n: nat, w: Widths, k: nat)
    requires w.Valid()
  {
    Start(w, k) + w.size >= n
  }

  function End(text: string, w: Widths, k: nat): nat
    requires w.Valid()
  {
    if IsLast(|text|, w, k) then |text|
    else SoftEdge(text, Start(w, k) + w.Step(), Start(w, k) + w.size)
  }

  // 1 + ceil(max(0, n - size) / step)
  function WindowCount(n: nat, w: Widths): nat
    requires w.Valid()
  {
    1 + if n <= w.size then 0 else (n - w.size + w.Step() - 1) / w.Step()
  }

  lemma CeilBounds(x: nat, step: nat, c: nat)
    requires step >= 1 && c == (x + step - 1) / step
    ensures c * step >= x && (c >= 1 ==> (c - 1) * step < x)
  {
    assert (x + step - 1) % step == x + step - 1 - c * step;
    assert (c - 1) * step == c * step - step;
  }

  lemma {:induction false} StartMono(w: Widths, a: nat, b: nat)
    requires w.Valid() && a <= b
    ensures Start(w, a) <= Start(w, b)
  {
    if a < b {
      StartMono(w, a, b - 1);
    }
  }

  /** Exactly the last of the `WindowCount` windows reaches the end of the text. */
  lemma LastWindow(n: nat, w: Widths, k: nat)
    requires w.Valid()
    ensures IsLast(n, w, k) <==> k + 1 >= WindowCount(n, w)
  {
    if n > w.size {
      var c := (n - w.size + w.Step() - 1) / w.Step();
      CeilBounds(n - w.size, w.Step(), c);
      StartIsMultiple(w, c);
      if k >= c {
        StartMono(w, c, k);
      } else {
        StartIsMultiple(w, c - 1);
        StartMono(w, k, c - 1);
      }
    }
  }

  function Piece(text: string, w: Widths, k: nat): string
    requires w.Valid()
  {
    if Start(w, k) <= End(text, w, k) <= |text| then Strip(text[Start(w, k)..End(text, w, k)]) else []
  }

  // A window, whatever the rule that cuts it.
  datatype Window = Window(piece: string, start: nat, end: nat)

  // The chunks of the first `k` windows: blank windows give none.
  function Collect(win: nat -> Window, k: nat): seq<Chunk> {
    if k == 0 then []
    else
      var sofar := Collect(win, k - 1);
      if win(k - 1).piece == [] then sofar
      else sofar + [Chunk(|sofar|, win(k - 1).piece, win(k - 1).start, win(k - 1).end)]
  }

  function Cut(text: string, w: Widths, k: nat): Window
    requires w.Valid()
  {
    Window(Piece(text, w, k), Start(w, k), End(text, w, k))
  }

  function WindowsOf(text: string, w: Widths): nat -> Window
    requires w.Valid()
  {
    (k: nat) => Cut(text, w, k)
  }

  // `win` cuts the windows of `text`.
  ghost predicate Cuts(win: nat -> Window, text: string, w: Widths)
    requires w.Valid()
  {
    forall k: nat {:trigger Cut(text, w, k)} :: win(k) == Cut(text, w, k)
  }

  lemma WindowStarts(n: nat, w: Widths, k: nat)
    requires w.Valid() && n >= 1 && k < WindowCount(n, w)
    ensures Start(w, k) < n
  {
    if k > 0 {
      LastWindow(n, w, k - 1);
    }
  }

  function Chunks(text: string, w: Widths): seq<Chunk>
    requires w.Valid()
  {
    if text == [] then [] else Collect(WindowsOf(text, w), WindowCount(|text|, w))
  }

  function Max(a: int, b: int): int {
    if a >= b then a else b
  }

  // The right edge of the window that starts at `start`, as the loop computes it.
  method WindowEnd(text: string, w: Widths, ghost k: nat, start: nat, overlap: nat, step: nat) returns (end: nat)
    requires w.Valid() && overlap == w.Slack() && step == w.Step() && start == Start(w, k) < |text|
    ensures end == End(text, w, k) && start <= end <= |text| && (end == |text| <==> IsLast(|text|, w, k))
    ensures !IsLast(|text|, w, k) ==> start + step <= end <= start + w.size
  {
    var n := |text|;
    var targetEnd := if start + w.size < n then start + w.size else n;
    if targetEnd < n {
      end := FindBreak(text, targetEnd, Max(start + step, targetEnd - overlap));
    } else {
      end := n;
    }
  }

  // One turn of the loop adds the chunk of one window.
  lemma OneMoreWindow(win: nat -> Window, text: string, w: Widths, k: nat, start: nat, end: nat)
    requires w.Valid() && Cuts(win, text, w) && start == Start(w, k) && end == End(text, w, k) && start <= end <= |text|
    ensures var piece := Strip(text[start..end]); var sofar := Collect(win, k);
            Collect(win, k + 1) == if piece == [] then sofar else sofar + [Chunk(|sofar|, piece, start, end)]
  {
    assert win(k) == Cut(text, w, k);
  }

  // The state of the loop before window `k`.
  ghost predicate AtWindow(win: nat -> Window, n: nat, w: Widths, k: nat, start: nat, out: seq<Chunk>)
    requires w.Valid()
  {
    start == Start(w, k) < n && (k == 0 || start + w.Slack() < n) && out == Collect(win, k)
  }

  // The state when it breaks out of window `k`.
  ghost predicate Done(win: nat -> Window, n: nat, w: Widths, k: nat, out: seq<Chunk>)
    requires w.Valid()
  {
    n <= Start(w, k) + w.size && (k == 0 || Start(w, k) + w.Slack() < n) && out == Collect(win, k + 1)
  }

  // One turn of the loop of `chunk_text`; false when it breaks out.
  method Turn(text: string, w: Widths, ghost win: nat -> Window, ghost k: nat, start: nat, overlap: nat, step: nat,
              sofar: seq<Chunk>)
    returns (out: seq<Chunk>, more: bool, next: nat)
    requires w.Valid() && Cuts(win, text, w) && overlap == w.Slack() && step == w.Step()
             && AtWindow(win, |text|, w, k, start, sofar)
    ensures !more ==> Done(win, |text|, w, k, out)
    ensures more ==> start < next && AtWindow(win, |text|, w, k + 1, next, out)
  {
    var end := WindowEnd(text, w, k, start, overlap, step);
    OneMoreWindow(win, text, w, k, start, end);
    var piece := Strip(text[start..end]);
    out := if piece == [] then sofar else sofar + [Chunk(|sofar|, piece, start, end)];
    more := !(end >= |text|);
    next := Max(start + step, end - overlap);
  }

  // The loop of `chunk_text`; `k` is the window it breaks out of.
  method Slide(text: string, w: Widths, ghost win: nat -> Window, overlap: nat, step: nat)
      returns (out: seq<Chunk>, ghost k: nat)
    requires w.Valid() && Cuts(win, text, w) && overlap == w.Slack() && step == w.Step() && text != []
    ensures Done(win, |text|, w, k, out)
  {
    var start, more := 0, true;
    out, k := [], 0;
    while start < |text|
      invariant AtWindow(win, |text|, w, k, start, out)
      decreases |text| - start
    {
      out, more, start := Turn(text, w, win, k, start, overlap, step, out);
      if !more { return; }
      k := k + 1;
    }
  }

  lemma CountFromLast(n: nat, w: Widths, k: nat)
    requires w.Valid() && n <= Start(w, k) + w.size && (k == 0 || Start(w, k) + w.Slack() < n)
    ensures k + 1 == WindowCount(n, w)
  {
    LastWindow(n, w, k);
    if k > 0 { LastWindow(n, w, k - 1); }
  }

  /** `chunk_text`: window k starts at k steps and there are `WindowCount` windows,
      although the loop recomputes its start from the previous soft edge. */
  method ChunkText(raw: string, w: Widths) returns (out: seq<Chunk>)
    requires w.Valid()
    ensures out == Chunks(Strip(raw), w)
  {
    var text := Strip(raw);
    if text == [] { return []; }
    var overlap := if w.overlap >= w.size then w.size / 5 else w.overlap;
    var step := w.size - overlap;
    ghost var k;
    out, k := Slide(text, w, WindowsOf(text, w), overlap, step);
    CountFromLast(|text|, w, k);
  }

  // ---- what the windows guarantee ------------------------------------------------

  /** Every window starts inside the text at a multiple of the step; every one but
      the last ends between one step and one size after its start, overlapping the
      next by between 0 and the overlap; the last ends with the text. */
  lemma WindowBounds(text: string, w: Widths, k: nat)
    requires w.Valid() && text != [] && k < WindowCount(|text|, w)
    ensures Start(w, k) == k * w.Step() < |text|
    ensures Start(w, k) < End(text, w, k) <= |text|
    ensures k + 1 == WindowCount(|text|, w) <==> End(text, w, k) == |text|
    ensures k + 1 < WindowCount(|text|, w) ==>
              && Start(w, k) + w.Step() <= End(text, w, k) <= Start(w, k) + w.size
              && 0 <= End(text, w, k) - Start(w, k + 1) <= w.Slack()
  {
    StartIsMultiple(w, k);
    WindowStarts(|text|, w, k);
    LastWindow(|text|, w, k);
  }

  lemma {:induction false} CollectShape(win: nat -> Window, n: nat, i: nat) returns (k: nat)
    requires i < |Collect(win, n)|
    ensures i <= k < n && win(k).piece != []
    ensures Collect(win, n)[i] == Chunk(i, win(k).piece, win(k).start, win(k).end)
    decreases n
  {
    CollectShorter(win, n - 1);
    if i < |Collect(win, n - 1)| {
      k := CollectShape(win, n - 1, i);
    } else {
      k := n - 1;
    }
  }

  lemma {:induction false} CollectShorter(win: nat -> Window, n: nat)
    ensures |Collect(win, n)| <= n
  {
    if n > 0 {
      CollectShorter(win, n - 1);
    }
  }

  lemma {:induction false} CollectKeeps(win: nat -> Window, n: nat, k: nat) returns (i: nat)
    requires k < n && win(k).piece != []
    ensures i < |Collect(win, n)| && Collect(win, n)[i] == Chunk(i, win(k).piece, win(k).start, win(k).end)
    decreases n
  {
    if k == n - 1 {
      i := |Collect(win, k)|;
    } else {
      i := CollectKeeps(win, n - 1, k);
    }
  }

  // The last window that starts at or before `p`.
  lemma {:induction false} CoveringWindow(n: nat, w: Widths, p: nat, k: nat) returns (j: nat)
    requires w.Valid() && k < WindowCount(n, w) && p < n && Start(w, k) <= p
    ensures k <= j < WindowCount(n, w) && Start(w, j) <= p
    ensures j + 1 < WindowCount(n, w) ==> p < Start(w, j + 1)
    decreases WindowCount(n, w) - k
  {
    if k + 1 < WindowCount(n, w) && Start(w, k + 1) <= p {
      j := CoveringWindow(n, w, p, k + 1);
    } else {
      j := k;
    }
  }

  // Stripping keeps every character that is not whitespace, where it was.
  lemma StripKeepsInk(s: string, q: nat) returns (lead: nat)
    requires q < |s| && !IsSpace(s[q])
    ensures lead <= q < lead + |Strip(s)| <= |s| && Strip(s) == s[lead..lead + |Strip(s)|]
  {
    lead := LStripKeepsInk(s, q);
    RStripKeepsInk(LStrip(s), q - lead);
  }

  lemma LStripKeepsInk(s: string, q: nat) returns (lead: nat)
    requires q < |s| && !IsSpace(s[q])
    ensures lead <= q && lead + |LStrip(s)| == |s| && LStrip(s) == s[lead..]
  {
    LStripSplits(s);
    lead := |s| - |LStrip(s)|;
    assert forall i :: 0 <= i < lead ==> s[..lead][i] == s[i];
  }

  lemma RStripKeepsInk(t: string, q: nat)
    requires q < |t| && !IsSpace(t[q])
    ensures q < |RStrip(t)| <= |t| && RStrip(t) == t[..|RStrip(t)|]
  {
    RStripSplits(t);
    var kept := |RStrip(t)|;
    assert forall i :: kept <= i < |t| ==> t[kept..][i - kept] == t[i];
  }

  // A slice whose inked character `p` survives stripping.
  lemma SliceKeepsInk(text: string, a: nat, b: nat, p: nat) returns (from: nat)
    requires a <= p < b <= |text| && !IsSpace(text[p])
    ensures var t := Strip(text[a..b]);
            a <= from <= p < from + |t| <= b && t == text[from..from + |t|]
  {
    var slice := text[a..b];
    assert slice[p - a] == text[p];
    var lead := StripKeepsInk(slice, p - a);
    from := a + lead;
    SliceOfSlice(text, a, b, lead, |Strip(slice)|);
  }

  lemma SliceOfSlice(text: string, a: nat, b: nat, lead: nat, n: nat)
    requires a + lead + n <= b <= |text|
    ensures text[a..b][lead..lead + n] == text[a + lead..a + lead + n]
  {
    var l, r := text[a..b][lead..lead + n], text[a + lead..a + lead + n];
    assert |l| == |r| == n;
    assert forall i :: 0 <= i < n ==> l[i] == text[a + lead + i] == r[i];
  }

  /** No text is lost: every non-whitespace character of the stripped text lies in
      some chunk, at its own place in a contiguous slice of that text. */
  lemma EveryCharacterIsInAChunk(text: string, w: Widths, p: nat) returns (i: nat, from: nat)
    requires w.Valid() && p < |text| && !IsSpace(text[p])
    ensures i < |Chunks(text, w)|
    ensures var c := Chunks(text, w)[i];
            && c.startChar <= from <= p < from + |c.text| <= c.endChar <= |text|
            && c.text == text[from..from + |c.text|]
  {
    var k := CoveringWindow(|text|, w, p, 0);
    from := PieceKeeps(text, w, k, p);
    var n := WindowCount(|text|, w);
    i := CollectKeeps(WindowsOf(text, w), n, k);
  }

  lemma PieceKeeps(text: string, w: Widths, k: nat, p: nat) returns (from: nat)
    requires w.Valid() && p < |text| && !IsSpace(text[p])
    requires k < WindowCount(|text|, w) && Start(w, k) <= p && (k + 1 < WindowCount(|text|, w) ==> p < Start(w, k + 1))
    ensures var t := Piece(text, w, k);
            Start(w, k) <= from <= p < from + |t| <= End(text, w, k) <= |text| && t == text[from..from + |t|]
  {
    WindowBounds(text, w, k);
    from := SliceKeepsInk(text, Start(w, k), End(text, w, k), p);
  }

  /** Conversely every chunk is numbered by its place and is the stripped, non-blank
      text of one window, in window order: nothing is invented. */
  lemma EveryChunkIsAWindow(text: string, w: Widths, i: nat) returns (k: nat)
    requires w.Valid() && i < |Chunks(text, w)|
    ensures i <= k < WindowCount(|text|, w) && Piece(text, w, k) != []
    ensures Chunks(text, w)[i] == Chunk(i, Piece(text, w, k), Start(w, k), End(text, w, k))
  {
    var n := WindowCount(|text|, w);
    k := CollectShape(WindowsOf(text, w), n, i);
  }
}
