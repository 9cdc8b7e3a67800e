/** What markdown chunking makes of a body, without the recursion of its functions: runs of paragraphs
    under the path of their headers. */
module MarkdownRuns {
  import opened Text
  import opened Markdown

  // ---------------------------------------------------------------- stripping and splitting

  predicate AllSpace(cfg: Config, s: string) { forall c :: c in s ==> cfg.space(c) }

  /** `s` is `text` without the whitespace at both ends. */
  ghost predicate Trimmed(cfg: Config, text: string, s: string) {
    exists a, b :: 0 <= a <= b <= |text| && TrimmedAt(cfg, text, s, a, b)
  }

  predicate TrimmedAt(cfg: Config, text: string, s: string, a: nat, b: nat)
    requires a <= b <= |text|
  {
    && s == text[a..b] && AllSpace(cfg, text[..a]) && AllSpace(cfg, text[b..])
    && (a < b ==> !cfg.space(text[a]) && !cfg.space(text[b - 1]))
  }

  lemma {:induction false} LStripAt(cfg: Config, s: string) returns (a: nat)
    ensures a <= |s| && LStrip(cfg, s) == s[a..] && AllSpace(cfg, s[..a])
    ensures a < |s| ==> !cfg.space(s[a])
  {
    a := 0;
    if s != "" && cfg.space(s[0]) {
      var k := LStripAt(cfg, s[1..]);
      a := k + 1;
      assert s[1..][k..] == s[a..] && s[..a] == [s[0]] + s[1..][..k];
    }
  }

  lemma {:induction false} RStripAt(cfg: Config, s: string) returns (b: nat)
    ensures b <= |s| && RStrip(cfg.space, s) == s[..b] && AllSpace(cfg, s[b..])
    ensures b > 0 ==> !cfg.space(s[b - 1])
  {
    b := |s|;
    if s != "" && cfg.space(s[|s| - 1]) {
      var before := s[..|s| - 1];
      b := RStripAt(cfg, before);
      assert before[..b] == s[..b] && s[b..] == before[b..] + [s[|s| - 1]];
    }
  }

  lemma StripInPlainTerms(cfg: Config, text: string)
    ensures Trimmed(cfg, text, Strip(cfg, text))
  {
    var a := LStripAt(cfg, text);
    var rest := text[a..];
    var k := RStripAt(cfg, rest);
    var b := a + k;
    assert rest[..k] == text[a..b] && rest[k..] == text[b..];
    assert TrimmedAt(cfg, text, Strip(cfg, text), a, b);
  }

  function JoinAll(separator: string, parts: seq<string>): string {
    if parts == [] then "" else if |parts| == 1 then parts[0]
    else JoinAll(separator, parts[..|parts| - 1]) + separator + parts[|parts| - 1]
  }

  lemma JoinSnoc(separator: string, parts: seq<string>, last: string)
    ensures JoinAll(separator, []) == "" && JoinAll(separator, [last]) == last
    ensures parts != [] ==> JoinAll(separator, parts + [last]) == JoinAll(separator, parts) + separator + last
  {
    assert (parts + [last])[..|parts|] == parts;
  }

  lemma {:induction false} JoinFront(separator: string, first: string, parts: seq<string>)
    requires parts != []
    ensures JoinAll(separator, [first] + parts) == first + separator + JoinAll(separator, parts)
  {
    var n := |parts| - 1;
    JoinSnoc(separator, [first] + parts[..n], parts[n]);
    assert [first] + parts == [first] + parts[..n] + [parts[n]];
    if n == 0 {
      assert [first] + parts[..n] == [first];
    } else {
      JoinFront(separator, first, parts[..n]);
      assert first + separator + JoinAll(separator, parts[..n]) + separator + parts[n]
          == first + separator + (JoinAll(separator, parts[..n]) + separator + parts[n]);
    }
  }

  /** The text is cut at its blank lines, from left to right. */
  predicate CutAtBlankLines(text: string, paragraphs: seq<string>) {
    && paragraphs != [] && JoinAll("\n\n", paragraphs) == text
    && Find(paragraphs[|paragraphs| - 1], "\n\n") == -1
    && forall i :: 0 <= i < |paragraphs| - 1 ==> Find(paragraphs[i] + "\n", "\n\n") == -1
  }

  lemma {:induction false} SplitInPlainTerms(text: string)
    ensures CutAtBlankLines(text, SplitParagraphs(text))
    decreases |text|
  {
    var j := Find(text, "\n\n");
    if j < 0 {
      assert JoinAll("\n\n", [text]) == text;
    } else {
      hide Find, CutAtBlankLines;
      var rest := text[j + 2..];
      SplitInPlainTerms(rest);
      OccursSlice(text, "\n\n", j);
      assert text[..j] + "\n\n" + rest == text;
      NoneBeforeFirst(text, j);
      CutNext(text[..j], rest, SplitParagraphs(rest));
    }
  }

  lemma CutNext(p: string, rest: string, paragraphs: seq<string>)
    requires CutAtBlankLines(rest, paragraphs) && Find(p + "\n", "\n\n") == -1
    ensures CutAtBlankLines(p + "\n\n" + rest, [p] + paragraphs)
  {
    hide Find, JoinAll;
    JoinFront("\n\n", p, paragraphs);
    var all := [p] + paragraphs;
    forall i | 0 <= i < |all| - 1 ensures Find(all[i] + "\n", "\n\n") == -1 {
      if i > 0 { assert all[i] == paragraphs[i - 1]; }
    }
    assert all[|all| - 1] == paragraphs[|paragraphs| - 1];
  }

  lemma NoneBeforeFirst(text: string, j: nat)
    requires j == Find(text, "\n\n")
    ensures j <= |text| && Find(text[..j] + "\n", "\n\n") == -1
  {
    var p := text[..j] + "\n";
    var i := Find(p, "\n\n");
    OccursSlice(text, "\n\n", j);
    if i >= 0 {
      OccursSlice(p, "\n\n", i);
      assert text[j] == text[j..j + 2][0] == '\n';
      assert p[i..i + 2] == text[i..i + 2];
      OccursSlice(text, "\n\n", i);
    }
  }

  // ---------------------------------------------------------------- packing

  /** The paragraphs without the empty ones in front. */
  function FromFirst(paragraphs: seq<string>): seq<string> {
    if paragraphs != [] && paragraphs[0] == "" then FromFirst(paragraphs[1..]) else paragraphs
  }

  /** A run of paragraphs, blank lines between them. */
  function RunText(run: seq<string>): string { JoinAll("\n\n", FromFirst(run)) }

  function Flat(runs: seq<seq<string>>): seq<string> {
    if runs == [] then [] else runs[0] + Flat(runs[1..])
  }

  /** The next paragraph and the blank line before it would exceed the limit. */
  predicate Exceeds(cfg: Config, run: seq<string>, next: string) {
    RunText(run) != "" && |RunText(run)| + 2 + |next| > cfg.maxChunk
  }

  /** Each run goes on as long as the limit allows. */
  predicate Filled(cfg: Config, run: seq<string>) {
    run != [] && forall k :: 0 < k < |run| ==> !Exceeds(cfg, run[..k], run[k])
  }

  /** The paragraphs are cut into such runs, and a run ends only where the next paragraph would exceed the limit. */
  predicate Packed(cfg: Config, paragraphs: seq<string>, runs: seq<seq<string>>) {
    && Flat(runs) == paragraphs
    && (forall i :: 0 <= i < |runs| ==> Filled(cfg, runs[i]))
    && forall i, next :: 0 <= i < |runs| && 0 <= next < |runs| && next == i + 1 ==>
         Exceeds(cfg, runs[i], runs[next][0])
  }

  /** One chunk for each run, without the whitespace at its ends; a blank last run has none. */
  ghost predicate ChunkPerRun(cfg: Config, runs: seq<seq<string>>, chunks: seq<string>) {
    && |runs| - 1 <= |chunks| <= |runs|
    && (forall i :: 0 <= i < |chunks| ==> Trimmed(cfg, RunText(runs[i]), chunks[i]))
    && (runs != [] ==>
          if |chunks| < |runs| then AllSpace(cfg, RunText(runs[|runs| - 1])) else chunks[|chunks| - 1] != "")
  }

  lemma {:induction false} FromFirstSnoc(run: seq<string>, p: string)
    ensures FromFirst(run + [p]) == if FromFirst(run) == [] then FromFirst([p]) else FromFirst(run) + [p]
    ensures FromFirst(run) != [] ==> FromFirst(run)[0] != ""
  {
    if run == [] {
      assert run + [p] == [p];
    } else {
      assert (run + [p])[1..] == run[1..] + [p];
      FromFirstSnoc(run[1..], p);
    }
  }

  lemma {:induction false} JoinNotEmpty(separator: string, parts: seq<string>)
    requires parts != [] && parts[0] != ""
    ensures JoinAll(separator, parts) != ""
  {
    if |parts| > 1 { JoinNotEmpty(separator, parts[..|parts| - 1]); }
  }

  /** One paragraph more in the run. */
  lemma RunTextSnoc(run: seq<string>, p: string)
    ensures RunText(run + [p]) == RunText(run) + (if RunText(run) != "" then "\n\n" else "") + p
    ensures RunText([p]) == p && RunText([]) == ""
  {
    FromFirstSnoc(run, p);
    OneParagraph(p);
    var f := FromFirst(run);
    if f == [] {
      assert "" + "" + p == p;
    } else {
      JoinNotEmpty("\n\n", f);
      JoinSnoc("\n\n", f, p);
    }
  }

  lemma OneParagraph(p: string)
    ensures JoinAll("\n\n", FromFirst([p])) == p && FromFirst([]) == []
  {
    assert [p][1..] == [];
  }

  lemma TrimmedEmpty(cfg: Config, text: string)
    ensures Trimmed(cfg, text, Strip(cfg, text))
    ensures Strip(cfg, text) == "" ==> AllSpace(cfg, text)
  {
    StripInPlainTerms(cfg, text);
    var a, b :| 0 <= a <= b <= |text| && TrimmedAt(cfg, text, Strip(cfg, text), a, b);
    assert text == text[..a] + text[a..b] + text[b..];
  }

  /** The runs that packing makes when `done` is the run being filled. */
  lemma {:induction false} PackRuns(cfg: Config, paragraphs: seq<string>, done: seq<string>)
    returns (runs: seq<seq<string>>)
    requires Filled(cfg, done)
    ensures Packed(cfg, done + paragraphs, runs) && ChunkPerRun(cfg, runs, Pack(cfg, paragraphs, RunText(done)))
    ensures runs != [] && runs[0] != [] && runs[0][0] == done[0]
    decreases |paragraphs|
  {
    hide Strip, Trimmed, RunText, Filled, Packed, ChunkPerRun, Exceeds;
    if paragraphs == [] {
      runs := [done];
      LastRun(cfg, done);
      assert done + paragraphs == done;
    } else {
      var para, rest := paragraphs[0], paragraphs[1..];
      RunTextSnoc(done, para);
      PackNext(cfg, paragraphs, RunText(done));
      ExceedsMeans(cfg, done, para);
      if Exceeds(cfg, done, para) {
        OneFilled(cfg, para);
        var later := PackRuns(cfg, rest, [para]);
        runs := [done] + later;
        RunEnds(cfg, done, [para] + rest, later, Pack(cfg, rest, para));
        assert done + ([para] + rest) == done + paragraphs;
      } else {
        assert done + paragraphs == done + [para] + rest;
        FilledSnoc(cfg, done, para);
        runs := PackRuns(cfg, rest, done + [para]);
      }
    }
  }

  lemma OneFilled(cfg: Config, p: string)
    ensures Filled(cfg, [p]) && RunText([p]) == p
  {
    RunTextSnoc([], p);
  }

  lemma LastRun(cfg: Config, run: seq<string>)
    requires Filled(cfg, run)
    ensures Packed(cfg, run, [run]) && ChunkPerRun(cfg, [run], Pack(cfg, [], RunText(run))) && run != []
  {
    TrimmedEmpty(cfg, RunText(run));
    PackEnds(cfg, RunText(run));
    var runs, chunks := [run], Pack(cfg, [], RunText(run));
    assert run != [];
    hide Strip, RunText, Trimmed, Filled, Pack, AllSpace;
    assert runs[1..] == [] && Flat([]) == [] && run + [] == run;
    assert Packed(cfg, run, runs);
    assert chunks != [] ==> chunks == [Strip(cfg, RunText(run))] && runs[0] == run;
  }

  /** A run that the next one follows. */
  lemma RunEnds(cfg: Config, run: seq<string>, rest: seq<string>, later: seq<seq<string>>, chunks: seq<string>)
    requires Filled(cfg, run) && Packed(cfg, rest, later) && ChunkPerRun(cfg, later, chunks)
    requires later != [] && later[0] != [] && Exceeds(cfg, run, later[0][0])
    ensures Packed(cfg, run + rest, [run] + later)
    ensures ChunkPerRun(cfg, [run] + later, [Strip(cfg, RunText(run))] + chunks) && run != []
  {
    RunsPacked(cfg, run, rest, later);
    RunsChunked(cfg, run, later, chunks);
    hide Packed, ChunkPerRun, Strip;
  }

  lemma RunsPacked(cfg: Config, run: seq<string>, rest: seq<string>, later: seq<seq<string>>)
    requires Filled(cfg, run) && Packed(cfg, rest, later)
    requires later != [] && later[0] != [] && Exceeds(cfg, run, later[0][0])
    ensures Packed(cfg, run + rest, [run] + later) && run != []
  {
    assert run != [];
    hide Strip, RunText, Exceeds, Filled;
    var all := [run] + later;
    assert all[1..] == later;
    forall i, next | 0 <= i < |all| && 0 <= next < |all| && next == i + 1 ensures Exceeds(cfg, all[i], all[next][0]) {
      if i > 0 { assert all[i] == later[i - 1] && all[next] == later[next - 1]; }
    }
  }

  lemma RunsChunked(cfg: Config, run: seq<string>, later: seq<seq<string>>, chunks: seq<string>)
    requires later != [] && ChunkPerRun(cfg, later, chunks)
    ensures ChunkPerRun(cfg, [run] + later, [Strip(cfg, RunText(run))] + chunks)
  {
    TrimmedEmpty(cfg, RunText(run));
    hide Strip, RunText, Trimmed, AllSpace;
    var all, more := [run] + later, [Strip(cfg, RunText(run))] + chunks;
    assert all[|all| - 1] == later[|later| - 1] && |all| == |later| + 1 && |more| == |chunks| + 1;
    assert more[0] == Strip(cfg, RunText(run)) && all[0] == run;
    forall i | 0 <= i < |more| ensures Trimmed(cfg, RunText(all[i]), more[i]) {
      if i > 0 { assert all[i] == later[i - 1] && more[i] == chunks[i - 1]; }
    }
    assert chunks != [] ==> more[|more| - 1] == chunks[|chunks| - 1];
    assert |more| < |all| ==> AllSpace(cfg, RunText(all[|all| - 1]));
    assert |more| == |all| ==> more[|more| - 1] != "";
  }

  lemma ExceedsMeans(cfg: Config, run: seq<string>, next: string)
    ensures Exceeds(cfg, run, next) <==> RunText(run) != "" && |RunText(run)| + 2 + |next| > cfg.maxChunk
  {
    hide RunText;
  }

  lemma FilledSnoc(cfg: Config, run: seq<string>, p: string)
    requires Filled(cfg, run) && !Exceeds(cfg, run, p)
    ensures Filled(cfg, run + [p]) && run != [] && (run + [p])[0] == run[0]
  {
    hide Exceeds;
    var grown := run + [p];
    forall k | 0 < k < |grown| ensures !Exceeds(cfg, grown[..k], grown[k]) {
      assert grown[..k] == if k < |run| then run[..k] else run;
    }
  }

  /** A text over the limit is cut at its blank lines; its chunks are the longest runs of paragraphs that fit. */
  ghost predicate SplitIntoRuns(cfg: Config, text: string, contents: seq<string>) {
    exists paragraphs, runs ::
      CutAtBlankLines(text, paragraphs) && Packed(cfg, paragraphs, runs) && ChunkPerRun(cfg, runs, contents)
  }

  /** What becomes of an oversized text, without the recursion of packing. */
  lemma OversizedInPlainTerms(cfg: Config, text: string)
    ensures |text| <= cfg.maxChunk ==> Oversized(cfg, text) == [text]
    ensures |text| > cfg.maxChunk ==> SplitIntoRuns(cfg, text, Oversized(cfg, text))
  {
    hide CutAtBlankLines, Packed, ChunkPerRun;
    if |text| > cfg.maxChunk {
      SplitInPlainTerms(text);
      var paragraphs := SplitParagraphs(text);
      var runs := PackAll(cfg, paragraphs);
    }
  }

  lemma PackAll(cfg: Config, paragraphs: seq<string>) returns (runs: seq<seq<string>>)
    requires paragraphs != []
    ensures Packed(cfg, paragraphs, runs) && ChunkPerRun(cfg, runs, Pack(cfg, paragraphs, ""))
  {
    hide Packed, ChunkPerRun, RunText, Strip;
    RunTextSnoc([], paragraphs[0]);
    assert "" + paragraphs[0] == paragraphs[0] && "" + "" + paragraphs[0] == paragraphs[0];
    runs := PackRuns(cfg, paragraphs[1..], [paragraphs[0]]);
    assert [paragraphs[0]] + paragraphs[1..] == paragraphs;
  }

  // ---------------------------------------------------------------- prefixes and sections

  /** A header's line: one '#' for each level, a blank and the title. */
  predicate IsLine(h: Header, line: string) {
    && |line| == h.level + 1 + |h.title|
    && (forall k :: 0 <= k < h.level ==> line[k] == '#')
    && line[h.level] == ' ' && line[h.level + 1..] == h.title
  }

  lemma LineInPlainTerms(h: Header)
    ensures IsLine(h, Line(h))
  {}

  /** All headers behind the `k`-th one and before the `n`-th are deeper. */
  predicate Deeper(headers: seq<Header>, k: nat, n: nat)
    requires k < |headers| && n <= |headers|
  {
    forall l :: k < l < n ==> headers[l].level > headers[k].level
  }

  /** Positions from `from` on of the headers before the `n`-th behind which all headers are deeper. */
  predicate Enclosing(headers: seq<Header>, from: nat, n: nat, at: seq<nat>)
    requires n <= |headers|
  {
    && (forall a, b :: 0 <= a < b < |at| ==> at[a] < at[b])
    && (forall a :: 0 <= a < |at| ==> from <= at[a] < n)
    && forall k :: from <= k < n ==> (k in at <==> Deeper(headers, k, n))
  }

  lemma {:induction false} OpenInPlainTerms(headers: seq<Header>, from: nat) returns (at: seq<nat>)
    requires from <= |headers|
    ensures Enclosing(headers, from, |headers|, at) && |at| == |OpenHeaders(headers[from..])|
    ensures forall a :: 0 <= a < |at| ==> headers[at[a]] == OpenHeaders(headers[from..])[a]
    decreases |headers| - from
  {
    hide Enclosing, Encloses, Deeper, OpenHeaders;
    if from == |headers| {
      at := [];
      NoneEnclosing(headers);
    } else {
      var rest := headers[from..];
      assert rest[1..] == headers[from + 1..];
      var later := OpenInPlainTerms(headers, from + 1);
      EnclosesShift(headers, from);
      EnclosingMore(headers, from, later);
      at := if Encloses(rest) then [from] + later else later;
      OpenNext(rest);
      OpenGrows(headers, from, later, OpenHeaders(headers[from + 1..]));
    }
  }

  lemma NoneEnclosing(headers: seq<Header>)
    ensures Enclosing(headers, |headers|, |headers|, []) && OpenHeaders(headers[|headers|..]) == []
  {}

  lemma OpenGrows(headers: seq<Header>, from: nat, later: seq<nat>, open: seq<Header>)
    requires from < |headers| && |later| == |open|
    requires forall a :: 0 <= a < |later| ==> later[a] < |headers| && headers[later[a]] == open[a]
    ensures forall a :: 0 <= a < |[from] + later| ==>
              ([from] + later)[a] < |headers| && headers[([from] + later)[a]] == ([headers[from]] + open)[a]
  {}

  lemma OpenNext(headers: seq<Header>)
    requires headers != []
    ensures OpenHeaders(headers) == (if Encloses(headers) then [headers[0]] else []) + OpenHeaders(headers[1..])
  {}

  lemma EnclosingMore(headers: seq<Header>, from: nat, later: seq<nat>)
    requires from < |headers| && Enclosing(headers, from + 1, |headers|, later)
    ensures Enclosing(headers, from, |headers|, if Deeper(headers, from, |headers|) then [from] + later else later)
    ensures forall a :: 0 <= a < |later| ==> later[a] < |headers|
  {
    hide Deeper;
    var at := if Deeper(headers, from, |headers|) then [from] + later else later;
    assert forall k :: k in at <==> k in later || (k == from && Deeper(headers, from, |headers|));
  }

  lemma EnclosesShift(headers: seq<Header>, from: nat)
    requires from < |headers|
    ensures Encloses(headers[from..]) <==> Deeper(headers, from, |headers|)
  {
    var rest := headers[from..];
    assert forall k :: 0 <= k < |rest| ==> rest[k] == headers[from + k];
    assert forall l :: from <= l < |headers| ==> headers[l] == rest[l - from];
  }

  lemma {:induction false} PathInPlainTerms(stack: seq<Header>) returns (lines: seq<string>)
    ensures |lines| == |stack| && (forall a :: 0 <= a < |stack| ==> IsLine(stack[a], lines[a]))
    ensures HeaderPath(stack) == JoinAll(" > ", lines)
  {
    hide IsLine;
    lines := [];
    if stack != [] {
      var n := |stack| - 1;
      var before := PathInPlainTerms(stack[..n]);
      LineInPlainTerms(stack[n]);
      lines := before + [Line(stack[n])];
      JoinSnoc(" > ", before, Line(stack[n]));
      if n == 0 { assert before == [] && lines == [Line(stack[n])]; }
    }
  }

  /** The path of the `i`-th header: the lines of the headers that enclose it, or only its own. */
  ghost predicate PathOf(cfg: Config, headers: seq<Header>, i: nat, path: string)
    requires i < |headers|
  {
    if cfg.preserveHierarchy then
      exists at: seq<nat>, lines: seq<string> ::
        && |at| == |lines| && Enclosing(headers, 0, i + 1, at)
        && (forall a :: 0 <= a < |at| ==> at[a] < |headers| && IsLine(headers[at[a]], lines[a]))
        && path == JoinAll(" > ", lines)
    else IsLine(headers[i], path)
  }

  lemma PathOfPrefix(cfg: Config, headers: seq<Header>, i: nat) returns (path: string)
    requires i < |headers|
    ensures PathOf(cfg, headers, i, path)
    ensures Prefix(cfg, headers[..i + 1]) == if cfg.sourceLabel == "" then path else cfg.sourceLabel + "\n" + path
  {
    hide IsLine, OpenHeaders, HeaderPath, JoinAll;
    var upTo := headers[..i + 1];
    if cfg.preserveHierarchy {
      var at := OpenInPlainTerms(upTo, 0);
      assert upTo[0..] == upTo;
      var stack := OpenHeaders(upTo);
      var lines := PathInPlainTerms(stack);
      path := HeaderPath(stack);
      EnclosingUpTo(headers, i + 1, at);
    } else {
      LineInPlainTerms(headers[i]);
      path := Line(headers[i]);
    }
  }

  lemma EnclosingUpTo(headers: seq<Header>, n: nat, at: seq<nat>)
    requires n <= |headers| && Enclosing(headers[..n], 0, n, at)
    ensures Enclosing(headers, 0, n, at)
  {
    assert forall k :: 0 <= k < n ==> (Deeper(headers[..n], k, n) <==> Deeper(headers, k, n));
  }

  /** The chunks of one stretch of the body: none when it is blank, else one, or runs of its paragraphs
      when it is over the limit; all under the given prefix. */
  ghost predicate ChunkedUnder(cfg: Config, text: string, prefix: string, chunks: seq<Chunk>) {
    && (forall i :: 0 <= i < |chunks| ==> chunks[i].contextPrefix == prefix)
    && exists s :: Trimmed(cfg, text, s) &&
         if s == "" then chunks == []
         else if |s| <= cfg.maxChunk then Contents(chunks) == [s]
         else SplitIntoRuns(cfg, s, Contents(chunks))
  }

  lemma SectionInPlainTerms(cfg: Config, text: string, prefix: string)
    ensures ChunkedUnder(cfg, text, prefix, SectionChunks(cfg, text, prefix))
  {
    hide Strip, Oversized, Trimmed, SplitIntoRuns;
    StripInPlainTerms(cfg, text);
    var s := Strip(cfg, text);
    OversizedInPlainTerms(cfg, s);
    if s != "" { assert Contents(Labelled(Oversized(cfg, s), prefix)) == Oversized(cfg, s); }
  }

  function FlatChunks(groups: seq<seq<Chunk>>): seq<Chunk> {
    if groups == [] then [] else groups[0] + FlatChunks(groups[1..])
  }

  /** The section of the `i`-th header reaches to the next header; its prefix names the headers around it. */
  ghost predicate SectionGroup(cfg: Config, headers: seq<Header>, body: string, i: nat, chunks: seq<Chunk>)
    requires InOrder(headers, body) && i < |headers|
  {
    exists path :: PathOf(cfg, headers, i, path) &&
      ChunkedUnder(cfg, body[headers[i].pos..if i + 1 < |headers| then headers[i + 1].pos else |body|],
                   if cfg.sourceLabel == "" then path else cfg.sourceLabel + "\n" + path, chunks)
  }

  lemma {:induction false} GroupsFrom(cfg: Config, headers: seq<Header>, body: string, i: nat)
    returns (groups: seq<seq<Chunk>>)
    requires InOrder(headers, body) && i <= |headers|
    ensures |groups| == |headers| - i && FlatChunks(groups) == ChunksFrom(cfg, headers, body, i)
    ensures forall k, g :: 0 <= g < |groups| && i <= k < |headers| && k == i + g ==>
              SectionGroup(cfg, headers, body, k, groups[g])
    decreases |headers| - i
  {
    hide SectionGroup, SectionChunks, InOrder, FlatChunks;
    if i == |headers| {
      groups := [];
      assert FlatChunks([]) == [] by { NoChunks(); }
    } else {
      var first := SectionChunks(cfg, Section(headers, body, i), Prefix(cfg, headers[..i + 1]));
      FirstGroup(cfg, headers, body, i);
      var later := GroupsFrom(cfg, headers, body, i + 1);
      GroupsMore(cfg, headers, body, i, first, later);
      groups := [first] + later;
    }
  }

  lemma NoChunks()
    ensures FlatChunks([]) == []
  {}

  lemma GroupsMore(cfg: Config, headers: seq<Header>, body: string, i: nat, first: seq<Chunk>, later: seq<seq<Chunk>>)
    requires InOrder(headers, body) && i < |headers| && |later| == |headers| - i - 1
    requires SectionGroup(cfg, headers, body, i, first)
    requires forall k, g :: 0 <= g < |later| && i + 1 <= k < |headers| && k == i + 1 + g ==>
               SectionGroup(cfg, headers, body, k, later[g])
    ensures forall k, g :: 0 <= g < |[first] + later| && i <= k < |headers| && k == i + g ==>
              SectionGroup(cfg, headers, body, k, ([first] + later)[g])
    ensures FlatChunks([first] + later) == first + FlatChunks(later)
  {
    hide SectionGroup, InOrder;
    var groups := [first] + later;
    assert groups[1..] == later;
    forall k, g | 0 <= g < |groups| && i <= k < |headers| && k == i + g
      ensures SectionGroup(cfg, headers, body, k, groups[g])
    {
      if g > 0 { assert groups[g] == later[g - 1] && k == i + 1 + (g - 1); }
    }
  }

  lemma FirstGroup(cfg: Config, headers: seq<Header>, body: string, i: nat)
    requires InOrder(headers, body) && i < |headers|
    ensures SectionGroup(cfg, headers, body, i,
                         SectionChunks(cfg, Section(headers, body, i), Prefix(cfg, headers[..i + 1])))
  {
    hide PathOf, ChunkedUnder, Prefix, SectionChunks;
    var path := PathOfPrefix(cfg, headers, i);
    SectionInPlainTerms(cfg, Section(headers, body, i), Prefix(cfg, headers[..i + 1]));
  }

  /** The chunks of a body: first those of the text before the first header, without a prefix, then those
      of each section in order, under the path of the headers around it. */
  lemma MarkdownInPlainTerms(cfg: Config, headers: seq<Header>, body: string)
    returns (before: seq<Chunk>, groups: seq<seq<Chunk>>)
    requires InOrder(headers, body)
    ensures AllSpace(cfg, body) ==> Markdown.Markdown(cfg, headers, body) == []
    ensures !AllSpace(cfg, body) ==>
      && Markdown.Markdown(cfg, headers, body) == before + FlatChunks(groups) && |groups| == |headers|
      && ChunkedUnder(cfg, if headers == [] then body else body[..headers[0].pos], "", before)
      && forall i :: 0 <= i < |headers| ==> SectionGroup(cfg, headers, body, i, groups[i])
  {
    hide SectionGroup, ChunkedUnder, SectionChunks, Strip;
    groups := GroupsFrom(cfg, headers, body, 0);
    var text := if headers == [] then body else body[..headers[0].pos];
    before := SectionChunks(cfg, text, "");
    SectionInPlainTerms(cfg, text, "");
    BlankStrip(cfg, body);
    if headers == [] {
      OnlyText(cfg, body);
      assert before + [] == before;
    }
  }

  lemma OnlyText(cfg: Config, body: string)
    ensures Strip(cfg, body) != "" ==> SectionChunks(cfg, body, "") == Labelled(Oversized(cfg, Strip(cfg, body)), "")
  {
    hide Strip, Oversized;
  }

  lemma BlankStrip(cfg: Config, body: string)
    ensures Strip(cfg, body) == "" <==> AllSpace(cfg, body)
  {
    TrimmedEmpty(cfg, body);
    StripInPlainTerms(cfg, body);
    var a, b :| 0 <= a <= b <= |body| && TrimmedAt(cfg, body, Strip(cfg, body), a, b);
    hide Strip;
    if a < b { assert body[a] in body; }
  }
}
