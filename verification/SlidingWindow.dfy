/** Boundary-aware sliding window chunking. */
module SlidingWindow {
  import opened Wrappers

  /** `space` is the host language's `\s`. */
  datatype Config = Config(window: int, overlap: int, breakOnBoundaries: bool, space: char -> bool)

  datatype Chunk = Chunk(content: string, startLine: Option<int>, endLine: Option<int>)

  function CountNewlines(s: string): nat {
    if s == "" then 0 else (if s[|s| - 1] == '\n' then 1 else 0) + CountNewlines(s[..|s| - 1])
  }

  // ---------------------------------------------------------------- boundaries

  predicate ParagraphAt(source: string, j: int) {
    0 <= j && j + 2 <= |source| && source[j] == '\n' && source[j + 1] == '\n'
  }

  predicate SentenceAt(cfg: Config, source: string, j: int) {
    0 <= j && j + 2 <= |source| && source[j] == '.' && (cfg.space(source[j + 1]) || source[j + 1] == '\n')
  }

  /** A paragraph (or sentence) boundary matches at `j`. */
  predicate BoundaryAt(cfg: Config, paragraph: bool, source: string, j: int) {
    if paragraph then ParagraphAt(source, j) else SentenceAt(cfg, source, j)
  }

  /** The end of the first boundary inside `source[from..limit]`, or -1. */
  function FirstBoundary(cfg: Config, paragraph: bool, source: string, from: int, limit: int): (r: int)
    ensures r == -1 || (from + 2 <= r <= limit && BoundaryAt(cfg, paragraph, source, r - 2))
    ensures forall j :: from <= j && j + 2 <= limit && BoundaryAt(cfg, paragraph, source, j) ==> 0 <= r <= j + 2
    decreases limit - from
  {
    if from + 2 > limit then -1
    else if BoundaryAt(cfg, paragraph, source, from) then from + 2
    else FirstBoundary(cfg, paragraph, source, from + 1, limit)
  }

  /** The end of the last of the boundaries that `finditer` reports inside `source[from..limit]`, or -1:
      each search goes on where the previous match ended. */
  function LastBoundary(cfg: Config, paragraph: bool, source: string, from: int, limit: int): (r: int)
    ensures r == -1 || from + 2 <= r <= limit
    decreases limit - from
  {
    var first := FirstBoundary(cfg, paragraph, source, from, limit);
    if first == -1 then -1
    else
      var later := LastBoundary(cfg, paragraph, source, first, limit);
      if later == -1 then first else later
  }

  /** Where a window breaks that does not reach the end of the source. */
  function FindBreakPoint(cfg: Config, source: string, start: int, rawEnd: int): (end: int)
    requires cfg.window >= 1
  {
    var minEnd := if rawEnd - cfg.window / 5 <= start then start + 1 else rawEnd - cfg.window / 5;
    var para := LastBoundary(cfg, true, source, minEnd, rawEnd);
    var sent := LastBoundary(cfg, false, source, minEnd, rawEnd);
    if para != -1 then para else if sent != -1 then sent else rawEnd
  }

  /** Some boundary lies inside `source[from..limit]`. */
  predicate HasBoundary(cfg: Config, paragraph: bool, source: string, from: int, limit: int) {
    exists j :: from <= j && j + 2 <= limit && BoundaryAt(cfg, paragraph, source, j)
  }

  /** `end` ends a boundary inside `source[from..limit]`, and none follows. */
  predicate EndsLast(cfg: Config, paragraph: bool, source: string, from: int, limit: int, end: int) {
    && from + 2 <= end <= limit && BoundaryAt(cfg, paragraph, source, end - 2)
    && !HasBoundary(cfg, paragraph, source, end, limit)
  }

  /** The last reported boundary is one after which no further one fits. */
  lemma {:induction false} LastBoundaryIsLast(cfg: Config, paragraph: bool, source: string, from: int, limit: int)
    ensures var r := LastBoundary(cfg, paragraph, source, from, limit);
            if HasBoundary(cfg, paragraph, source, from, limit)
              then EndsLast(cfg, paragraph, source, from, limit, r) else r == -1
    decreases limit - from
  {
    hide BoundaryAt;
    var first := FirstBoundary(cfg, paragraph, source, from, limit);
    if first != -1 {
      assert BoundaryAt(cfg, paragraph, source, first - 2);
      LastBoundaryIsLast(cfg, paragraph, source, first, limit);
    }
  }

  /** A window breaks at the last paragraph boundary in its last fifth; without one at the last
      sentence boundary there; without any at its full length. */
  lemma BreakAtLastBoundary(cfg: Config, source: string, start: int, rawEnd: int)
    requires cfg.window >= 1 && 0 <= start < rawEnd
    ensures var end := FindBreakPoint(cfg, source, start, rawEnd);
            var zone := if rawEnd - cfg.window / 5 <= start then start + 1 else rawEnd - cfg.window / 5;
            if HasBoundary(cfg, true, source, zone, rawEnd) then EndsLast(cfg, true, source, zone, rawEnd, end)
            else if HasBoundary(cfg, false, source, zone, rawEnd) then EndsLast(cfg, false, source, zone, rawEnd, end)
            else end == rawEnd
  {
    hide LastBoundary, HasBoundary, BoundaryAt, FirstBoundary;
    var zone := if rawEnd - cfg.window / 5 <= start then start + 1 else rawEnd - cfg.window / 5;
    LastBoundaryIsLast(cfg, true, source, zone, rawEnd);
    LastBoundaryIsLast(cfg, false, source, zone, rawEnd);
  }

  // ---------------------------------------------------------------- the windows

  function WindowEnd(cfg: Config, source: string, i: nat): int
    requires cfg.window >= 1
  {
    var rawEnd := if i + cfg.window <= |source| then i + cfg.window else |source|;
    if rawEnd == |source| || !cfg.breakOnBoundaries then rawEnd else FindBreakPoint(cfg, source, i, rawEnd)
  }

  function NextStart(cfg: Config, source: string, i: nat, end: int): int {
    var next := end - cfg.overlap;
    var para := FirstBoundary(cfg, true, source, next, end);
    var snapped := if cfg.breakOnBoundaries && next > i && para != -1 then para else next;
    if snapped <= i then end else snapped
  }

  lemma WindowEndBounds(cfg: Config, source: string, i: nat)
    requires cfg.window >= 1 && i < |source|
    ensures var end := WindowEnd(cfg, source, i);
            && i < end <= i + cfg.window && end <= |source|
            && (end < |source| && end != i + cfg.window ==>
                  cfg.breakOnBoundaries && end >= i + cfg.window - cfg.window / 5 + 2)
  {}

  /** The windows taken from `i` on. */
  function Windows(cfg: Config, source: string, i: nat): seq<(nat, nat)>
    requires cfg.window >= 1 && i < |source|
    decreases |source| - i
  {
    WindowEndBounds(cfg, source, i);
    var end := WindowEnd(cfg, source, i);
    var next := NextStart(cfg, source, i, end);
    [(i, end)] + (if end < |source| && next < |source| then Windows(cfg, source, next) else [])
  }

  function WindowChunk(source: string, w: (nat, nat)): Chunk
    requires w.0 <= w.1 <= |source|
  {
    Chunk(source[w.0..w.1], Some(CountNewlines(source[..w.0]) + 1), Some(CountNewlines(source[..w.1]) + 1))
  }

  /** Every window lies in the source, is not empty and not longer than asked for. */
  predicate Windowed(cfg: Config, source: string, ws: seq<(nat, nat)>) {
    forall k :: 0 <= k < |ws| ==> ws[k].0 < ws[k].1 <= |source| && ws[k].1 <= ws[k].0 + cfg.window
  }

  function WindowChunks(source: string, ws: seq<(nat, nat)>): seq<Chunk>
    requires forall k :: 0 <= k < |ws| ==> ws[k].0 <= ws[k].1 <= |source|
  {
    seq(|ws|, k requires 0 <= k < |ws| => WindowChunk(source, ws[k]))
  }

  lemma {:induction false} WindowsWindowed(cfg: Config, source: string, i: nat)
    requires cfg.window >= 1 && i < |source|
    ensures Windowed(cfg, source, Windows(cfg, source, i))
    decreases |source| - i
  {
    WindowEndBounds(cfg, source, i);
    var end := WindowEnd(cfg, source, i);
    var next := NextStart(cfg, source, i, end);
    if end < |source| && next < |source| { WindowsWindowed(cfg, source, next); }
  }

  /** The end of the window at `i`: the end of the source, a boundary near it, or a hard cut. */
  method ChooseEnd(cfg: Config, source: string, i: nat) returns (end: int)
    requires cfg.window >= 1 && i < |source|
    ensures end == WindowEnd(cfg, source, i) && i < end <= |source|
  {
    WindowEndBounds(cfg, source, i);
    var rawEnd := if i + cfg.window <= |source| then i + cfg.window else |source|;
    if rawEnd == |source| {
      end := rawEnd;
    } else if cfg.breakOnBoundaries {
      end := FindBreakPoint(cfg, source, i, rawEnd);
    } else {
      end := rawEnd;
    }
  }

  /** Where the next window starts: back by the overlap, snapped to a paragraph, never standing still. */
  method ChooseStart(cfg: Config, source: string, i: nat, end: int) returns (nextStart: int)
    requires i < end
    ensures nextStart == NextStart(cfg, source, i, end) && nextStart > i
  {
    nextStart := end - cfg.overlap;
    if cfg.breakOnBoundaries && nextStart > i {
      var paraMatch := FirstBoundary(cfg, true, source, nextStart, end);
      if paraMatch != -1 {
        nextStart := paraMatch;
      }
    }
    if nextStart <= i {
      nextStart := end;
    }
  }

  method ChunkSlidingWindow(cfg: Config, source: string) returns (chunks: seq<Chunk>)
    requires cfg.window >= 1
    ensures source == "" ==> chunks == []
    ensures 0 < |source| <= cfg.window ==> chunks == [Chunk(source, None, None)]
    ensures |source| > cfg.window ==>
              && Windowed(cfg, source, Windows(cfg, source, 0))
              && chunks == WindowChunks(source, Windows(cfg, source, 0))
  {
    if source == "" {
      return [];
    }
    if |source| <= cfg.window {
      return [Chunk(source, None, None)];
    }
    ChunksAreWindows(cfg, source, 0);
    chunks := SlideWindow(cfg, source);
  }

  /** The loop over windows. */
  method SlideWindow(cfg: Config, source: string) returns (chunks: seq<Chunk>)
    requires cfg.window >= 1 && source != ""
    ensures chunks == ChunksFrom(cfg, source, 0)
  {
    hide FindBreakPoint, FirstBoundary, WindowEnd, NextStart, CountNewlines, ChunksFrom;
    chunks := [];
    var i := 0;
    while i < |source|
      invariant 0 <= i
      invariant if i < |source| then ChunksFrom(cfg, source, 0) == chunks + ChunksFrom(cfg, source, i)
                else ChunksFrom(cfg, source, 0) == chunks
      decreases |source| - i
    {
      ChunksStep(cfg, source, i);
      var end := ChooseEnd(cfg, source, i);
      var chunk := Chunk(source[i..end], Some(CountNewlines(source[..i]) + 1), Some(CountNewlines(source[..end]) + 1));
      chunks := chunks + [chunk];
      if end >= |source| {
        break;
      }
      i := ChooseStart(cfg, source, i, end);
    }
  }

  lemma ChunksStep(cfg: Config, source: string, i: nat)
    requires cfg.window >= 1 && i < |source|
    ensures var end := WindowEnd(cfg, source, i);
            var next := NextStart(cfg, source, i, end);
            i < end <= |source| && next > i &&
            ChunksFrom(cfg, source, i) == [WindowChunk(source, (i, end))]
              + (if end < |source| && next < |source| then ChunksFrom(cfg, source, next) else [])
  {
    WindowEndBounds(cfg, source, i);
  }

  /** The chunks produced from `i` on. */
  function ChunksFrom(cfg: Config, source: string, i: nat): seq<Chunk>
    requires cfg.window >= 1 && i < |source|
    decreases |source| - i
  {
    WindowEndBounds(cfg, source, i);
    var end := WindowEnd(cfg, source, i);
    var next := NextStart(cfg, source, i, end);
    [WindowChunk(source, (i, end))] + (if end < |source| && next < |source| then ChunksFrom(cfg, source, next) else [])
  }

  lemma ChunksCons(source: string, w: (nat, nat), rest: seq<(nat, nat)>)
    requires w.0 <= w.1 <= |source| && forall k :: 0 <= k < |rest| ==> rest[k].0 <= rest[k].1 <= |source|
    ensures WindowChunks(source, [w] + rest) == [WindowChunk(source, w)] + WindowChunks(source, rest)
  {
    hide WindowChunk;
  }

  lemma {:induction false} ChunksAreWindows(cfg: Config, source: string, i: nat)
    requires cfg.window >= 1 && i < |source|
    ensures Windowed(cfg, source, Windows(cfg, source, i))
    ensures ChunksFrom(cfg, source, i) == WindowChunks(source, Windows(cfg, source, i))
    decreases |source| - i
  {
    WindowEndBounds(cfg, source, i);
    WindowsWindowed(cfg, source, i);
    hide WindowEnd, WindowChunk, FirstBoundary, WindowChunks, NextStart;
    var end := WindowEnd(cfg, source, i);
    var next := NextStart(cfg, source, i, end);
    if end < |source| && next < |source| {
      ChunksAreWindows(cfg, source, next);
      ChunksCons(source, (i, end), Windows(cfg, source, next));
    } else {
      ChunksCons(source, (i, end), []);
    }
  }

  // ---------------------------------------------------------------- coverage

  /** From `i` to the end of the source without a gap, always moving forward. */
  predicate Covers(ws: seq<(nat, nat)>, i: nat, length: nat) {
    && ws != [] && ws[0].0 == i && ws[|ws| - 1].1 == length
    && forall k :: 0 < k < |ws| ==> ws[k - 1].0 < ws[k].0 <= ws[k - 1].1
  }

  lemma CoversCons(w: (nat, nat), rest: seq<(nat, nat)>, next: nat, length: nat)
    requires Covers(rest, next, length) && w.0 < next <= w.1
    ensures Covers([w] + rest, w.0, length)
  {
    var ws := [w] + rest;
    forall k | 0 < k < |ws| ensures ws[k - 1].0 < ws[k].0 <= ws[k - 1].1 {
      if k > 1 { assert ws[k - 1] == rest[k - 2] && ws[k] == rest[k - 1]; }
    }
  }

  /** With a nonnegative overlap consecutive windows touch or overlap. */
  lemma {:induction false} WindowsCover(cfg: Config, source: string, i: nat)
    requires cfg.window >= 1 && cfg.overlap >= 0 && i < |source|
    ensures Covers(Windows(cfg, source, i), i, |source|)
    decreases |source| - i
  {
    WindowEndBounds(cfg, source, i);
    var end := WindowEnd(cfg, source, i);
    if end < |source| {
      var next := NextStart(cfg, source, i, end);
      WindowsCover(cfg, source, next);
      CoversCons((i, end), Windows(cfg, source, next), next, |source|);
    }
  }

  /** Joining the chunks back together, dropping from each what is already there. */
  function Reassemble(ws: seq<(nat, nat)>, texts: seq<string>, built: string): string
    requires |ws| == |texts|
  {
    if ws == [] then built
    else
      var (start, end) := ws[0];
      var added := if |built| < end && start <= |built| && |built| - start <= |texts[0]|
                   then texts[0][|built| - start..] else "";
      Reassemble(ws[1..], texts[1..], built + added)
  }

  lemma {:induction false} ReassembleCovered(source: string, ws: seq<(nat, nat)>, texts: seq<string>, built: string)
    requires |ws| == |texts| && built <= source
    requires ws == [] ==> built == source
    requires ws != [] ==> Covers(ws, ws[0].0, |source|) && ws[0].0 <= |built|
    requires forall k :: 0 <= k < |ws| ==> ws[k].0 <= ws[k].1 <= |source| && texts[k] == source[ws[k].0..ws[k].1]
    ensures Reassemble(ws, texts, built) == source
    decreases |ws|
  {
    if ws != [] {
      var (start, end) := ws[0];
      var added := if |built| < end then texts[0][|built| - start..] else "";
      var grown := built + added;
      assert grown == source[..|grown|] by {
        if |built| < end { assert added == source[|built|..end]; }
      }
      var rest := ws[1..];
      if rest != [] {
        assert ws[1].0 <= ws[0].1;
        forall k | 0 < k < |rest| ensures rest[k - 1].0 < rest[k].0 <= rest[k - 1].1 {
          assert rest[k - 1] == ws[k] && rest[k] == ws[k + 1];
        }
      }
      ReassembleCovered(source, rest, texts[1..], grown);
    }
  }

  /** Dropping the overlaps rebuilds the source exactly. */
  lemma ChunksRebuildSource(cfg: Config, source: string)
    requires cfg.window >= 1 && cfg.overlap >= 0 && source != ""
    ensures var ws := Windows(cfg, source, 0);
            && Covers(ws, 0, |source|) && Windowed(cfg, source, ws)
            && Reassemble(ws, seq(|ws|, k requires 0 <= k < |ws| => WindowChunk(source, ws[k]).content), "") == source
  {
    hide Windows;
    WindowsCover(cfg, source, 0);
    WindowsWindowed(cfg, source, 0);
    var ws := Windows(cfg, source, 0);
    var texts := seq(|ws|, k requires 0 <= k < |ws| => WindowChunk(source, ws[k]).content);
    ReassembleCovered(source, ws, texts, "");
  }

  // ---------------------------------------------------------------- progress

  /** Each window ends strictly after the one before it, so none lies inside its predecessor. */
  predicate EndsIncrease(ws: seq<(nat, nat)>) {
    forall k :: 0 < k < |ws| ==> ws[k - 1].1 < ws[k].1
  }

  /** The settings for which no chunk can lie inside the previous one. */
  predicate SafeOverlap(cfg: Config) {
    !cfg.breakOnBoundaries || cfg.overlap <= cfg.window - cfg.window / 5 + 1 || cfg.overlap >= cfg.window
  }

  lemma NextEndGrows(cfg: Config, source: string, i: nat)
    requires cfg.window >= 1 && i < |source| && SafeOverlap(cfg)
    ensures var end := WindowEnd(cfg, source, i);
            var next := NextStart(cfg, source, i, end);
            end < |source| && i < next < |source| ==> WindowEnd(cfg, source, next) > end
  {
    WindowEndBounds(cfg, source, i);
    var end := WindowEnd(cfg, source, i);
    var next := NextStart(cfg, source, i, end);
    if end < |source| && i < next < |source| { WindowEndBounds(cfg, source, next); }
  }

  lemma {:induction false} SafeEndsIncrease(cfg: Config, source: string, i: nat)
    requires cfg.window >= 1 && i < |source| && SafeOverlap(cfg)
    ensures EndsIncrease(Windows(cfg, source, i))
    decreases |source| - i
  {
    WindowEndBounds(cfg, source, i);
    var end := WindowEnd(cfg, source, i);
    var next := NextStart(cfg, source, i, end);
    if end < |source| && next < |source| {
      NextEndGrows(cfg, source, i);
      SafeEndsIncrease(cfg, source, next);
      var rest := Windows(cfg, source, next);
      var ws := [(i, end)] + rest;
      forall k | 0 < k < |ws| ensures ws[k - 1].1 < ws[k].1 {
        if k > 1 { assert ws[k - 1] == rest[k - 2] && ws[k] == rest[k - 1]; }
      }
    }
  }

  /** A source whose only boundary is a sentence end at the first window's edge. */
  function Trap(window: int): string
    requires window >= 2
  {
    seq(window - 2, _ => 'a') + ['.', ' '] + seq(window, _ => 'a')
  }

  lemma TrapBoundaries(cfg: Config, j: int)
    requires cfg.window >= 2 && cfg.space(' ')
    ensures !ParagraphAt(Trap(cfg.window), j)
    ensures SentenceAt(cfg, Trap(cfg.window), j) <==> j == cfg.window - 2
  {}

  /** With any other overlap there is a source where the second chunk lies inside the first. */
  lemma UnsafeEndsRepeat(cfg: Config)
    requires cfg.window >= 1 && cfg.space(' ') && !SafeOverlap(cfg)
    ensures !EndsIncrease(Windows(cfg, Trap(cfg.window), 0))
  {
    var w, source := cfg.window, Trap(cfg.window);
    var next := w - cfg.overlap;
    TrapWindow(cfg, 0);
    TrapWindow(cfg, next);
    TrapNext(cfg);
    hide WindowEnd, NextStart, Trap;
    var ws, rest := Windows(cfg, source, 0), Windows(cfg, source, next);
    assert rest[0].1 == w;
    assert ws == [(0, w)] + rest;
    assert ws[0].1 == w && ws[1] == rest[0];
  }

  lemma TrapWindow(cfg: Config, i: nat)
    requires cfg.window >= 1 && cfg.space(' ') && !SafeOverlap(cfg) && (i == 0 || i == cfg.window - cfg.overlap)
    ensures i < |Trap(cfg.window)| && WindowEnd(cfg, Trap(cfg.window), i) == cfg.window
  {
    hide FindBreakPoint;
    TrapBreak(cfg, i, i + cfg.window);
  }

  lemma TrapNext(cfg: Config)
    requires cfg.window >= 1 && cfg.space(' ') && !SafeOverlap(cfg)
    ensures NextStart(cfg, Trap(cfg.window), 0, cfg.window) == cfg.window - cfg.overlap
  {
    forall j ensures !ParagraphAt(Trap(cfg.window), j) { TrapBoundaries(cfg, j); }
    hide Trap;
    assert FirstBoundary(cfg, true, Trap(cfg.window), cfg.window - cfg.overlap, cfg.window) == -1;
  }

  lemma TrapBreak(cfg: Config, start: int, rawEnd: int)
    requires cfg.window >= 10 && cfg.space(' ') && 0 <= start && rawEnd == start + cfg.window
    requires rawEnd - cfg.window / 5 <= cfg.window - 2 && cfg.window <= rawEnd
    ensures FindBreakPoint(cfg, Trap(cfg.window), start, rawEnd) == cfg.window
  {
    var w, source := cfg.window, Trap(cfg.window);
    forall j ensures !ParagraphAt(source, j) && (SentenceAt(cfg, source, j) <==> j == w - 2) { TrapBoundaries(cfg, j); }
    var minEnd := rawEnd - w / 5;
    assert FirstBoundary(cfg, true, source, minEnd, rawEnd) == -1;
    assert BoundaryAt(cfg, false, source, w - 2);
    assert FirstBoundary(cfg, false, source, minEnd, rawEnd) == w;
    assert FirstBoundary(cfg, false, source, w, rawEnd) == -1;
    assert LastBoundary(cfg, false, source, w, rawEnd) == -1;
    assert LastBoundary(cfg, false, source, minEnd, rawEnd) == w;
    assert LastBoundary(cfg, true, source, minEnd, rawEnd) == -1;
  }

  /** Chunk ends strictly increase on every source exactly for the safe overlaps. */
  lemma EndsIncreaseExactlyWhenSafe(cfg: Config)
    requires cfg.window >= 1 && cfg.space(' ')
    ensures (forall source: string :: source != "" ==> EndsIncrease(Windows(cfg, source, 0))) <==> SafeOverlap(cfg)
  {
    if SafeOverlap(cfg) {
      forall source: string | source != "" ensures EndsIncrease(Windows(cfg, source, 0)) {
        SafeEndsIncrease(cfg, source, 0);
      }
    } else {
      UnsafeEndsRepeat(cfg);
      assert Trap(cfg.window) != "";
    }
  }

  lemma StartsAdvance(cfg: Config, source: string, i: nat)
    requires cfg.window >= 1 && i < |source| && 0 <= cfg.overlap < cfg.window - cfg.window / 5
    ensures var end := WindowEnd(cfg, source, i);
            var next := NextStart(cfg, source, i, end);
            && i < end <= |source|
            && (end < |source| ==> i + (cfg.window - cfg.window / 5 - cfg.overlap) <= next < |source|)
  {
    WindowEndBounds(cfg, source, i);
  }

  /** The number of chunks is at most linear in the length of the source. */
  lemma {:induction false} ChunkCount(cfg: Config, source: string, i: nat)
    requires cfg.window >= 1 && i < |source| && 0 <= cfg.overlap < cfg.window - cfg.window / 5
    ensures (|Windows(cfg, source, i)| - 1) * (cfg.window - cfg.window / 5 - cfg.overlap) <= |source| - 1 - i
    decreases |source| - i
  {
    hide WindowEnd, NextStart;
    var step := cfg.window - cfg.window / 5 - cfg.overlap;
    StartsAdvance(cfg, source, i);
    var end := WindowEnd(cfg, source, i);
    if end < |source| {
      var next := NextStart(cfg, source, i, end);
      ChunkCount(cfg, source, next);
      var n := |Windows(cfg, source, next)|;
      assert |Windows(cfg, source, i)| == n + 1;
      OneMore(n, step);
    }
  }

  lemma OneMore(n: int, step: int)
    ensures n * step == (n - 1) * step + step
  {}

  // ---------------------------------------------------------------- in plain terms

  /** A blank line stands at `j`, or a full stop with whitespace behind it. */
  predicate Break(cfg: Config, paragraph: bool, source: string, j: int) {
    && 0 <= j && j + 2 <= |source|
    && if paragraph then source[j..j + 2] == "\n\n"
       else source[j] == '.' && (cfg.space(source[j + 1]) || source[j + 1] == '\n')
  }

  lemma BreakIsBoundary(cfg: Config, paragraph: bool, source: string, j: int)
    ensures Break(cfg, paragraph, source, j) <==> BoundaryAt(cfg, paragraph, source, j)
  {
    if 0 <= j && j + 2 <= |source| {
      assert source[j..j + 2] == [source[j], source[j + 1]];
    }
  }

  predicate BreakIn(cfg: Config, paragraph: bool, source: string, from: int, limit: int) {
    exists j :: from <= j && j + 2 <= limit && Break(cfg, paragraph, source, j)
  }

  /** `end` lies behind the last break of the zone. */
  predicate LastBreak(cfg: Config, paragraph: bool, source: string, from: int, limit: int, end: int) {
    && from + 2 <= end <= limit && Break(cfg, paragraph, source, end - 2)
    && forall j :: end <= j && j + 2 <= limit ==> !Break(cfg, paragraph, source, j)
  }

  /** `end` lies behind the first blank line of the zone. */
  predicate FirstBreak(cfg: Config, source: string, from: int, limit: int, end: int) {
    && from + 2 <= end <= limit && Break(cfg, true, source, end - 2)
    && forall j :: from <= j < end - 2 ==> !Break(cfg, true, source, j)
  }

  /** Where the window at `i` ends: with the source, at its full length, or at a break in its last fifth. */
  predicate EndsAt(cfg: Config, source: string, i: nat, end: int) {
    if i + cfg.window >= |source| then end == |source|
    else if !cfg.breakOnBoundaries then end == i + cfg.window
    else
      var full := i + cfg.window;
      var zone := if full - cfg.window / 5 <= i then i + 1 else full - cfg.window / 5;
      if BreakIn(cfg, true, source, zone, full) then LastBreak(cfg, true, source, zone, full, end)
      else if BreakIn(cfg, false, source, zone, full) then LastBreak(cfg, false, source, zone, full, end)
      else end == full
  }

  /** Where the next window starts: back by the overlap, or behind the first blank line from there on;
      at the end of this one when that would not move forward. */
  predicate GoesOnAt(cfg: Config, source: string, i: nat, end: int, next: int) {
    var back := end - cfg.overlap;
    if back <= i then next == end
    else if cfg.breakOnBoundaries && BreakIn(cfg, true, source, back, end)
    then FirstBreak(cfg, source, back, end, next)
    else next == back
  }

  /** The next window would start behind the source. */
  ghost predicate NoneFollows(cfg: Config, source: string, w: (nat, nat)) {
    exists next :: next >= |source| && GoesOnAt(cfg, source, w.0, w.1, next)
  }

  lemma EndInPlainTerms(cfg: Config, source: string, i: nat)
    requires cfg.window >= 1 && i < |source|
    ensures EndsAt(cfg, source, i, WindowEnd(cfg, source, i))
  {
    hide Break, BoundaryAt, FindBreakPoint;
    forall paragraph, j ensures Break(cfg, paragraph, source, j) <==> BoundaryAt(cfg, paragraph, source, j) {
      BreakIsBoundary(cfg, paragraph, source, j);
    }
    if i + cfg.window < |source| && cfg.breakOnBoundaries { BreakAtLastBoundary(cfg, source, i, i + cfg.window); }
  }

  lemma NextInPlainTerms(cfg: Config, source: string, i: nat, end: int)
    ensures GoesOnAt(cfg, source, i, end, NextStart(cfg, source, i, end))
  {
    hide Break, BoundaryAt;
    forall j ensures Break(cfg, true, source, j) <==> BoundaryAt(cfg, true, source, j) {
      BreakIsBoundary(cfg, true, source, j);
    }
  }

  predicate Ends(cfg: Config, source: string, w: (nat, nat)) { EndsAt(cfg, source, w.0, w.1) }

  predicate Follows(cfg: Config, source: string, w: (nat, nat), next: (nat, nat)) {
    w.1 < |source| && GoesOnAt(cfg, source, w.0, w.1, next.0)
  }

  ghost predicate Finishes(cfg: Config, source: string, w: (nat, nat)) {
    w.1 >= |source| || NoneFollows(cfg, source, w)
  }

  /** Windows that end and follow one another in this way, the last one at the end of the source. */
  ghost predicate InTurn(cfg: Config, source: string, ws: seq<(nat, nat)>) {
    && ws != [] && Finishes(cfg, source, ws[|ws| - 1])
    && (forall k :: 0 <= k < |ws| ==> Ends(cfg, source, ws[k]))
    && forall k, next :: 0 <= k < |ws| && 0 <= next < |ws| && next == k + 1 ==> Follows(cfg, source, ws[k], ws[next])
  }

  lemma InTurnCons(cfg: Config, source: string, w: (nat, nat), rest: seq<(nat, nat)>)
    requires InTurn(cfg, source, rest) && Ends(cfg, source, w) && Follows(cfg, source, w, rest[0])
    ensures InTurn(cfg, source, [w] + rest)
  {
    hide Ends, Follows, Finishes;
    var ws := [w] + rest;
    assert ws[|ws| - 1] == rest[|rest| - 1];
    forall k, next | 0 <= k < |ws| && 0 <= next < |ws| && next == k + 1 ensures Follows(cfg, source, ws[k], ws[next]) {
      if k > 0 { assert ws[k] == rest[k - 1] && ws[next] == rest[next - 1]; }
    }
  }

  lemma {:induction false} WindowsInPlainTerms(cfg: Config, source: string, i: nat)
    requires cfg.window >= 1 && i < |source|
    ensures InTurn(cfg, source, Windows(cfg, source, i)) && Windows(cfg, source, i)[0].0 == i
    decreases |source| - i
  {
    var end := WindowEnd(cfg, source, i);
    var next := NextStart(cfg, source, i, end);
    hide EndsAt, GoesOnAt, WindowEnd, NextStart;
    WindowEndBounds(cfg, source, i);
    EndInPlainTerms(cfg, source, i);
    NextInPlainTerms(cfg, source, i, end);
    StartMoves(cfg, source, i, end);
    if end < |source| && next < |source| {
      WindowsInPlainTerms(cfg, source, next);
      var w: (nat, nat) := (i, end);
      InTurnCons(cfg, source, w, Windows(cfg, source, next));
      assert Windows(cfg, source, i) == [w] + Windows(cfg, source, next);
    } else {
      assert Windows(cfg, source, i) == [(i as nat, end as nat)];
      assert next >= |source| ==> NoneFollows(cfg, source, (i as nat, end as nat));
    }
  }

  lemma StartMoves(cfg: Config, source: string, i: nat, end: int)
    requires i < end
    ensures NextStart(cfg, source, i, end) > i
  {}

  /** Line numbers count the line breaks in front. */
  lemma {:induction false} NewlinesInPlainTerms(s: string) returns (at: seq<nat>)
    ensures forall a, b :: 0 <= a < b < |at| ==> at[a] < at[b]
    ensures forall k :: k in at <==> 0 <= k < |s| && s[k] == '\n'
    ensures CountNewlines(s) == |at|
  {
    at := [];
    if s != "" {
      var n := |s| - 1;
      at := NewlinesInPlainTerms(s[..n]);
      assert forall a :: 0 <= a < |at| ==> at[a] in at;
      if s[n] == '\n' { at := at + [n]; }
    }
  }

  /** A chunk holds the text of its window; it starts and ends in the lines that follow the line breaks
      in front of these places. */
  lemma ChunkInPlainTerms(source: string, w: (nat, nat)) returns (before: seq<nat>, upTo: seq<nat>)
    requires w.0 <= w.1 <= |source|
    ensures WindowChunk(source, w) == Chunk(source[w.0..w.1], Some(|before| + 1), Some(|upTo| + 1))
    ensures forall a, b :: 0 <= a < b < |before| ==> before[a] < before[b]
    ensures forall a, b :: 0 <= a < b < |upTo| ==> upTo[a] < upTo[b]
    ensures forall k :: k in before <==> 0 <= k < w.0 && source[k] == '\n'
    ensures forall k :: k in upTo <==> 0 <= k < w.1 && source[k] == '\n'
  {
    hide CountNewlines;
    before := NewlinesInPlainTerms(source[..w.0]);
    upTo := NewlinesInPlainTerms(source[..w.1]);
  }
}
