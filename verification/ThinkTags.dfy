/** Streaming separation of <think> blocks from content, and its one-shot counterpart. */
module ThinkTags {
  import opened Text

  datatype TagPair = TagPair(open: string, close: string) {
    /** The tag the parser is looking for. */
    function Awaited(inThink: bool): string { if inThink then close else open }
  }
  type Tags = t: TagPair | t.open != "" && t.close != "" witness TagPair("<", ">")

  const THINK: Tags := TagPair("<think>", "</think>")

  /** The last `n` characters of `text` are a proper prefix of `tag`. */
  predicate EndsWithPartial(text: string, tag: string, n: int) {
    0 <= n < |tag| && n <= |text| && forall k :: 0 <= k < n ==> text[|text| - n + k] == tag[k]
  }

  function LongestPartial(text: string, tag: string, n: nat): (r: nat)
    requires n < |tag| && n <= |text|
    ensures r <= n && EndsWithPartial(text, tag, r)
    ensures forall m :: m <= n && EndsWithPartial(text, tag, m) ==> m <= r
  {
    if EndsWithPartial(text, tag, n) then n else LongestPartial(text, tag, n - 1)
  }

  /** Length of the longest suffix of `text` that could be the start of `tag`. */
  function HeldLength(text: string, tag: string): (r: nat)
    requires tag != ""
    ensures EndsWithPartial(text, tag, r)
    ensures forall m :: EndsWithPartial(text, tag, m) ==> m <= r
  {
    LongestPartial(text, tag, if |tag| - 1 <= |text| then |tag| - 1 else |text|)
  }

  /** What a run of the parser has emitted, and the state it is left in. */
  datatype Outcome = Outcome(content: string, thinking: string, inThink: bool, held: string) {
    function Then(next: Outcome): Outcome {
      next.(content := content + next.content, thinking := thinking + next.thinking)
    }

    /** End of stream: the held text goes to the side the parser is on. */
    function Flush(): (string, string) {
      if inThink then (content, thinking + held) else (content + held, thinking)
    }
  }

  /** `text` emitted on side `inThink`, leaving `held` in the buffer. */
  function Emit(inThink: bool, text: string, held: string): Outcome {
    if inThink then Outcome("", text, inThink, held) else Outcome(text, "", inThink, held)
  }

  lemma ThenAssociative(a: Outcome, b: Outcome, c: Outcome)
    ensures a.Then(b).Then(c) == a.Then(b.Then(c))
  {}

  lemma ThenAfterNothing(o: Outcome)
    ensures forall inThink :: Outcome("", "", inThink, "").Then(o) == o
  {}

  /** The parser on one unbroken piece of text. */
  function Run(tags: Tags, inThink: bool, text: string): Outcome
    decreases |text|
  {
    var tag := tags.Awaited(inThink);
    var idx := Find(text, tag);
    if idx >= 0 then
      Emit(inThink, text[..idx], "").Then(Run(tags, !inThink, text[idx + |tag|..]))
    else
      var safe := |text| - HeldLength(text, tag);
      Emit(inThink, text[..safe], text[safe..])
  }

  lemma RunFound(tags: Tags, inThink: bool, text: string)
    requires Find(text, tags.Awaited(inThink)) >= 0
    ensures var tag := tags.Awaited(inThink);
            var idx := Find(text, tag);
            Run(tags, inThink, text) == Emit(inThink, text[..idx], "").Then(Run(tags, !inThink, text[idx + |tag|..]))
  {}

  lemma RunHeld(tags: Tags, inThink: bool, text: string)
    requires Find(text, tags.Awaited(inThink)) == -1
    ensures var safe := |text| - HeldLength(text, tags.Awaited(inThink));
            Run(tags, inThink, text) == Emit(inThink, text[..safe], text[safe..])
  {}

  lemma RunEmpty(tags: Tags, inThink: bool)
    ensures Run(tags, inThink, "") == Outcome("", "", inThink, "")
  {}

  /** After `content` and `thinking`, a tag ends the current side. */
  lemma TagConsumed(tags: Tags, content: string, thinking: string, inThink: bool, buffer: string)
    requires Find(buffer, tags.Awaited(inThink)) >= 0
    ensures var tag := tags.Awaited(inThink);
            var idx := Find(buffer, tag);
            var after := Outcome(if inThink then content else content + buffer[..idx],
                                 if inThink then thinking + buffer[..idx] else thinking, !inThink, "");
            Outcome(content, thinking, inThink, "").Then(Run(tags, inThink, buffer))
            == after.Then(Run(tags, !inThink, buffer[idx + |tag|..]))
  {
    hide Run, HeldLength;
    var tag := tags.Awaited(inThink);
    var idx := Find(buffer, tag);
    RunFound(tags, inThink, buffer);
    ThenAssociative(Outcome(content, thinking, inThink, ""), Emit(inThink, buffer[..idx], ""),
                    Run(tags, !inThink, buffer[idx + |tag|..]));
    assert content + "" == content && thinking + "" == thinking;
  }

  /** Without a tag, all but the held suffix goes to the current side. */
  lemma NoTagLeft(tags: Tags, content: string, thinking: string, inThink: bool, buffer: string)
    requires Find(buffer, tags.Awaited(inThink)) == -1
    ensures var safe := |buffer| - HeldLength(buffer, tags.Awaited(inThink));
            Outcome(content, thinking, inThink, "").Then(Run(tags, inThink, buffer))
            == Outcome(if inThink then content else content + buffer[..safe],
                       if inThink then thinking + buffer[..safe] else thinking, inThink, buffer[safe..])
  {
    RunHeld(tags, inThink, buffer);
    assert content + "" == content && thinking + "" == thinking;
  }

  lemma ThenRunEmpty(tags: Tags, content: string, thinking: string, inThink: bool)
    ensures Outcome(content, thinking, inThink, "").Then(Run(tags, inThink, ""))
         == Outcome(content, thinking, inThink, "")
  {
    RunEmpty(tags, inThink);
    assert content + "" == content && thinking + "" == thinking;
  }

  /** The parser fed chunk by chunk, starting on side `inThink` with `held` in its buffer. */
  function FeedAll(tags: Tags, inThink: bool, held: string, chunks: seq<string>): Outcome
    decreases |chunks|
  {
    if chunks == [] then Outcome("", "", inThink, held)
    else
      var first := Run(tags, inThink, held + chunks[0]);
      first.Then(FeedAll(tags, first.inThink, first.held, chunks[1..]))
  }

  class ThinkTagParser {
    const tags: Tags
    var inThink: bool
    var buffer: string

    constructor ()
      ensures tags == THINK && !inThink && buffer == ""
    {
      tags, inThink, buffer := THINK, false, "";
    }

    method Feed(text: string) returns (content: string, thinking: string)
      modifies this
      ensures Outcome(content, thinking, inThink, buffer) == Run(tags, old(inThink), old(buffer) + text)
    {
      hide Run, HeldLength, Outcome.Then, Find;
      buffer := buffer + text;
      content, thinking := "", "";
      ghost var whole := Run(tags, inThink, buffer);
      ThenAfterNothing(whole);
      while buffer != ""
        invariant whole == Outcome(content, thinking, inThink, "").Then(Run(tags, inThink, buffer))
        decreases |buffer|
      {
        var tag := tags.Awaited(inThink);
        var idx := Find(buffer, tag);
        if idx != -1 {
          TagConsumed(tags, content, thinking, inThink, buffer);
          if inThink {
            thinking := thinking + buffer[..idx];
          } else {
            content := content + buffer[..idx];
          }
          buffer := buffer[idx + |tag|..];
          inThink := !inThink;
        } else {
          NoTagLeft(tags, content, thinking, inThink, buffer);
          var safe, held := SplitAtPotentialTag(buffer, tag);
          if inThink {
            thinking := thinking + safe;
          } else {
            content := content + safe;
          }
          buffer := held;
          return;
        }
      }
      ThenRunEmpty(tags, content, thinking, inThink);
    }

    method Flush() returns (content: string, thinking: string)
      modifies this
      ensures buffer == "" && inThink == old(inThink)
      ensures (content, thinking) == Outcome("", "", old(inThink), old(buffer)).Flush()
    {
      var remaining := buffer;
      buffer := "";
      if inThink {
        content, thinking := "", remaining;
      } else {
        content, thinking := remaining, "";
      }
      assert "" + remaining == remaining;
    }
  }

  /** Splits off the longest suffix that is a proper prefix of the tag. */
  method SplitAtPotentialTag(text: string, tag: string) returns (safe: string, held: string)
    requires tag != ""
    ensures safe == text[..|text| - HeldLength(text, tag)]
    ensures held == text[|text| - HeldLength(text, tag)..]
  {
    hide HeldLength, EndsWithPartial;
    var length := if |tag| - 1 <= |text| then |tag| - 1 else |text|;
    NoneLonger(text, tag, length);
    while length > 0
      invariant 0 <= length < |tag| && length <= |text|
      invariant forall m :: length < m ==> !EndsWithPartial(text, tag, m)
    {
      PartialBySlices(text, tag, length);
      if text[|text| - length..] == tag[..length] {
        LongestHeld(text, tag, length);
        return text[..|text| - length], text[|text| - length..];
      }
      length := length - 1;
    }
    PartialBySlices(text, tag, 0);
    LongestHeld(text, tag, 0);
    assert text[..|text|] == text && text[|text|..] == "";
    return text, "";
  }

  lemma NoneLonger(text: string, tag: string, n: nat)
    requires tag != "" && n == if |tag| - 1 <= |text| then |tag| - 1 else |text|
    ensures forall m :: n < m ==> !EndsWithPartial(text, tag, m)
  {}

  lemma PartialBySlices(text: string, tag: string, n: nat)
    requires n < |tag| && n <= |text|
    ensures EndsWithPartial(text, tag, n) <==> text[|text| - n..] == tag[..n]
  {
    if text[|text| - n..] == tag[..n] {
      forall k | 0 <= k < n ensures text[|text| - n + k] == tag[k] { assert text[|text| - n..][k] == tag[..n][k]; }
    }
  }

  lemma LongestHeld(text: string, tag: string, n: nat)
    requires EndsWithPartial(text, tag, n) && forall m :: n < m ==> !EndsWithPartial(text, tag, m)
    ensures HeldLength(text, tag) == n
  {}

  lemma FlushLast(o: Outcome)
    ensures var last := Outcome("", "", o.inThink, o.held).Flush();
            o.Flush() == (o.content + last.0, o.thinking + last.1)
  {
    assert "" + o.held == o.held;
    assert o.content + "" == o.content && o.thinking + "" == o.thinking;
  }

  /** A stream of chunks through one parser, then the final flush. */
  method SplitStream(chunks: seq<string>) returns (content: string, thinking: string)
    ensures (content, thinking) == FeedAll(THINK, false, "", chunks).Flush()
  {
    hide Run;
    var parser := new ThinkTagParser();
    content, thinking := "", "";
    ghost var whole := FeedAll(THINK, false, "", chunks);
    for i := 0 to |chunks|
      invariant parser.tags == THINK
      invariant whole == Outcome(content, thinking, parser.inThink, "")
                         .Then(FeedAll(THINK, parser.inThink, parser.buffer, chunks[i..]))
    {
      ghost var sofar := Outcome(content, thinking, parser.inThink, "");
      ghost var first := Run(THINK, parser.inThink, parser.buffer + chunks[i]);
      assert chunks[i..][1..] == chunks[i + 1..];
      ThenAssociative(sofar, first, FeedAll(THINK, first.inThink, first.held, chunks[i + 1..]));
      var c, t := parser.Feed(chunks[i]);
      content, thinking := content + c, thinking + t;
    }
    assert whole == Outcome(content, thinking, parser.inThink, parser.buffer);
    FlushLast(whole);
    var c, t := parser.Flush();
    content, thinking := content + c, thinking + t;
  }

  // ---------------------------------------------------------------- chunk independence

  /** A tag found before `y` arrived is found at the same place afterwards. */
  lemma FindStable(x: string, y: string, tag: string)
    requires tag != "" && Find(x, tag) >= 0
    ensures Find(x + y, tag) == Find(x, tag)
  {
    assert OccursAt(x + y, tag, Find(x, tag));
    assert OccursAt(x, tag, Find(x + y, tag));
  }

  /** An occurrence in `x + y` that starts in `x`, or a partial one at its end, starts in the held suffix. */
  lemma StartsInHeld(x: string, y: string, tag: string, i: nat, n: nat)
    requires tag != "" && Find(x, tag) == -1
    requires i < |x| && i + n <= |x| + |y| && n <= |tag|
    requires n == |tag| || i + n == |x| + |y|
    requires forall k :: 0 <= k < n ==> (x + y)[i + k] == tag[k]
    ensures i >= |x| - HeldLength(x, tag)
  {
    var w := x + y;
    forall k | 0 <= k < n && i + k < |x| ensures x[i + k] == tag[k] { assert w[i + k] == x[i + k]; }
    if i + |tag| <= |x| {
      assert OccursAt(x, tag, i);
    } else {
      assert EndsWithPartial(x, tag, |x| - i);
    }
  }

  /** Searching a suffix that no occurrence starts before. */
  lemma FindInSuffix(w: string, safe: nat, tag: string)
    requires safe <= |w| && forall i :: OccursAt(w, tag, i) ==> i >= safe
    ensures var k := Find(w[safe..], tag);
            Find(w, tag) == if k >= 0 then safe + k else -1
  {
    var z := w[safe..];
    var j, k := Find(w, tag), Find(z, tag);
    if k >= 0 { assert OccursAt(w, tag, safe + k); }
    if j >= 0 { assert OccursAt(z, tag, j - safe); }
  }

  lemma HeldInSuffix(w: string, safe: nat, tag: string)
    requires tag != "" && safe <= |w| && HeldLength(w, tag) <= |w| - safe
    ensures HeldLength(w, tag) == HeldLength(w[safe..], tag)
  {
    var z := w[safe..];
    var n, m := HeldLength(w, tag), HeldLength(z, tag);
    forall k | 0 <= k < n ensures z[|z| - n + k] == tag[k] { assert z[|z| - n + k] == w[|w| - n + k]; }
    assert EndsWithPartial(z, tag, n);
    forall k | 0 <= k < m ensures w[|w| - m + k] == tag[k] { assert z[|z| - m + k] == w[|w| - m + k]; }
    assert EndsWithPartial(w, tag, m);
  }

  /** Without a tag in `x`, the held suffix is all the parser needs to remember of it. */
  lemma HeldSuffices(x: string, y: string, tag: string)
    requires tag != "" && Find(x, tag) == -1
    ensures var safe := |x| - HeldLength(x, tag);
            && (x + y)[safe..] == x[safe..] + y
            && HeldLength(x + y, tag) == HeldLength(x[safe..] + y, tag)
            && var k := Find(x[safe..] + y, tag);
               Find(x + y, tag) == if k >= 0 then safe + k else -1
  {
    var w := x + y;
    var safe := |x| - HeldLength(x, tag);
    assert w[safe..] == x[safe..] + y;
    forall i | OccursAt(w, tag, i) ensures i >= safe {
      if i < |x| { StartsInHeld(x, y, tag, i, |tag|); }
    }
    FindInSuffix(w, safe, tag);
    var n := HeldLength(w, tag);
    if n > |w| - safe { StartsInHeld(x, y, tag, |w| - n, n); }
    HeldInSuffix(w, safe, tag);
  }

  /** Feeding `x` and then `y` is feeding `x + y`. */
  lemma {:induction false} FeedCompose(tags: Tags, inThink: bool, x: string, y: string)
    ensures var a := Run(tags, inThink, x);
            Run(tags, inThink, x + y) == a.Then(Run(tags, a.inThink, a.held + y))
    decreases |x|
  {
    var tag := tags.Awaited(inThink);
    if Find(x, tag) >= 0 {
      FeedComposeFound(tags, inThink, x, y);
    } else {
      FeedComposeHeld(tags, inThink, x, y);
    }
  }

  lemma {:induction false} FeedComposeFound(tags: Tags, inThink: bool, x: string, y: string)
    requires Find(x, tags.Awaited(inThink)) >= 0
    ensures var a := Run(tags, inThink, x);
            Run(tags, inThink, x + y) == a.Then(Run(tags, a.inThink, a.held + y))
    decreases |x|, 0
  {
    hide Run, HeldLength, Find;
    var tag := tags.Awaited(inThink);
    var idx := Find(x, tag);
    var tail := x[idx + |tag|..];
    FindStable(x, y, tag);
    assert (x + y)[idx + |tag|..] == tail + y;
    assert (x + y)[..idx] == x[..idx];
    RunFound(tags, inThink, x);
    RunFound(tags, inThink, x + y);
    FeedCompose(tags, !inThink, tail, y);
    var a := Run(tags, !inThink, tail);
    ThenAssociative(Emit(inThink, x[..idx], ""), a, Run(tags, a.inThink, a.held + y));
  }

  /** Emitting `a`, holding back nothing of it, and then `b` is emitting `a + b`. */
  lemma EmitJoins(inThink: bool, a: string, held: string, b: string, rest: string)
    ensures Emit(inThink, a, held).Then(Emit(inThink, b, rest)) == Emit(inThink, a + b, rest)
  {}

  lemma {:induction false} FeedComposeHeld(tags: Tags, inThink: bool, x: string, y: string)
    requires Find(x, tags.Awaited(inThink)) == -1
    ensures var a := Run(tags, inThink, x);
            Run(tags, inThink, x + y) == a.Then(Run(tags, a.inThink, a.held + y))
  {
    hide Run, HeldLength, Find, Emit, Outcome.Then;
    var tag := tags.Awaited(inThink);
    var safe := |x| - HeldLength(x, tag);
    var w, z := x + y, x[safe..] + y;
    HeldSuffices(x, y, tag);
    RunHeld(tags, inThink, x);
    var e := Emit(inThink, x[..safe], x[safe..]);
    assert e.inThink == inThink && e.held == x[safe..] by {
      EmitJoins(inThink, "", "", x[..safe], x[safe..]);
      EmitState(inThink, x[..safe], x[safe..]);
    }
    var k := Find(z, tag);
    if k >= 0 {
      RunFound(tags, inThink, w);
      RunFound(tags, inThink, z);
      SuffixPieces(w, x[..safe], z, k, k + |tag|);
      EmitJoins(inThink, x[..safe], x[safe..], z[..k], "");
      ThenAssociative(e, Emit(inThink, z[..k], ""), Run(tags, !inThink, z[k + |tag|..]));
    } else {
      RunHeld(tags, inThink, w);
      RunHeld(tags, inThink, z);
      var cut := |z| - HeldLength(z, tag);
      SuffixPieces(w, x[..safe], z, cut, cut);
      EmitJoins(inThink, x[..safe], x[safe..], z[..cut], z[cut..]);
    }
  }

  lemma EmitState(inThink: bool, text: string, held: string)
    ensures var e := Emit(inThink, text, held); e.inThink == inThink && e.held == held
  {}

  lemma SuffixPieces(w: string, p: string, z: string, i: nat, j: nat)
    requires w == p + z && i <= |z| && j <= |z|
    ensures w[..|p| + i] == p + z[..i] && w[|p| + j..] == z[j..]
  {}

  /** Chunk by chunk, after any prefix `x`, is the same as all at once. */
  lemma {:induction false} FeedAllIsRun(tags: Tags, x: string, chunks: seq<string>)
    ensures var a := Run(tags, false, x);
            Run(tags, false, x + Concat(chunks)) == a.Then(FeedAll(tags, a.inThink, a.held, chunks))
    decreases |chunks|
  {
    hide Run;
    var a := Run(tags, false, x);
    if chunks == [] {
      assert x + Concat(chunks) == x;
      assert a.Then(Outcome("", "", a.inThink, a.held)) == a;
    } else {
      FeedCompose(tags, false, x, chunks[0]);
      var b := Run(tags, a.inThink, a.held + chunks[0]);
      FeedAllIsRun(tags, x + chunks[0], chunks[1..]);
      assert x + chunks[0] + Concat(chunks[1..]) == x + Concat(chunks);
      ThenAssociative(a, b, FeedAll(tags, b.inThink, b.held, chunks[1..]));
    }
  }

  /** However a text is cut, the stream yields the same content and the same thinking text. */
  lemma ChunkIndependence(tags: Tags, cuts: seq<string>, others: seq<string>)
    requires Concat(cuts) == Concat(others)
    ensures FeedAll(tags, false, "", cuts) == FeedAll(tags, false, "", others) == Run(tags, false, Concat(cuts))
  {
    hide Run;
    RunEmpty(tags, false);
    FeedAllIsRun(tags, "", cuts);
    FeedAllIsRun(tags, "", others);
    assert "" + Concat(cuts) == Concat(cuts);
    ThenAfterNothing(FeedAll(tags, false, "", cuts));
    ThenAfterNothing(FeedAll(tags, false, "", others));
  }

  // ---------------------------------------------------------------- agreement with strip_think_tags

  /** An opening tag stands at `i`, and a closing tag somewhere after it. */
  predicate MatchesAt(tags: Tags, text: string, i: int) {
    OccursAt(text, tags.open, i) && Find(text[i + |tags.open|..], tags.close) >= 0
  }

  /** One-shot removal of think blocks: scan left to right; where a match starts, the shortest one is
      dropped, elsewhere one character is kept. */
  function StripThinkTags(tags: Tags, text: string): string
    decreases |text|
  {
    if text == "" then ""
    else if MatchesAt(tags, text, 0) then
      var j := Find(text[|tags.open|..], tags.close);
      StripThinkTags(tags, text[|tags.open| + j + |tags.close|..])
    else [text[0]] + StripThinkTags(tags, text[1..])
  }

  lemma MatchShifts(tags: Tags, text: string, j: nat)
    requires text != "" && MatchesAt(tags, text[1..], j)
    ensures MatchesAt(tags, text, j + 1)
  {
    hide Find;
    var tail := text[1..];
    assert tail[j..j + |tags.open|] == text[j + 1..j + 1 + |tags.open|];
    assert tail[j + |tags.open|..] == text[j + 1 + |tags.open|..];
  }

  /** Text up to the first match is kept as it is. */
  lemma {:induction false} StripSkips(tags: Tags, text: string, i: nat)
    requires i <= |text|
    requires forall j :: 0 <= j < i ==> !MatchesAt(tags, text, j)
    ensures StripThinkTags(tags, text) == text[..i] + StripThinkTags(tags, text[i..])
    decreases |text|
  {
    hide MatchesAt, Find;
    if i == 0 {
      assert text[0..] == text;
    } else {
      var tail := text[1..];
      forall j | 0 <= j < i - 1 ensures !MatchesAt(tags, tail, j) {
        if MatchesAt(tags, tail, j) { MatchShifts(tags, text, j); }
      }
      assert !MatchesAt(tags, text, 0);
      StripSkips(tags, tail, i - 1);
      assert tail[i - 1..] == text[i..];
      assert text[..i] == [text[0]] + tail[..i - 1];
    }
  }

  /** Without any match, nothing is removed. */
  lemma NoMatchKeepsAll(tags: Tags, text: string)
    requires forall j :: 0 <= j < |text| ==> !MatchesAt(tags, text, j)
    ensures StripThinkTags(tags, text) == text
  {
    StripSkips(tags, text, |text|);
    assert text[|text|..] == "";
    assert text[..|text|] == text;
  }

  /** The block left open at the end of the text, with its opening tag; empty when there is none. */
  function OpenBlock(tags: Tags, text: string): string
    decreases |text|
  {
    var i := Find(text, tags.open);
    if i < 0 then ""
    else
      var j := Find(text[i + |tags.open|..], tags.close);
      if j < 0 then text[i..] else OpenBlock(tags, text[i + |tags.open| + j + |tags.close|..])
  }

  /** After an opening tag that is never closed, nothing matches any more. */
  lemma UnclosedNoMatch(tags: Tags, text: string, i: nat)
    requires i == Find(text, tags.open) && Find(text[i + |tags.open|..], tags.close) == -1
    ensures forall j :: 0 <= j < |text| ==> !MatchesAt(tags, text, j)
  {
    hide Find;
    forall j | 0 <= j < |text| && OccursAt(text, tags.open, j) ensures !MatchesAt(tags, text, j) {
      FirstFound(text, tags.open, i, j);
      NotFoundLater(text[i + |tags.open|..], tags.close, j - i);
      assert text[j + |tags.open|..] == text[i + |tags.open|..][j - i..];
    }
  }

  lemma FirstFound(text: string, tag: string, i: nat, j: int)
    requires i == Find(text, tag) && OccursAt(text, tag, j)
    ensures i <= j
  {}

  lemma NotFoundLater(rest: string, tag: string, m: nat)
    requires m <= |rest| && Find(rest, tag) == -1
    ensures Find(rest[m..], tag) == -1
  {
    var k := Find(rest[m..], tag);
    assert k >= 0 ==> OccursAt(rest, tag, m + k);
  }

  /** A closed block at the first opening tag is removed. */
  lemma ClosedBlockRemoved(tags: Tags, text: string, i: nat, j: nat)
    requires i == Find(text, tags.open) && j == Find(text[i + |tags.open|..], tags.close)
    ensures StripThinkTags(tags, text)
         == text[..i] + StripThinkTags(tags, text[i + |tags.open| + j + |tags.close|..])
  {
    var rest := text[i..];
    BlockAtFront(tags, text, i, j);
    BlockInFront(tags, rest, j);
    hide Find, StripThinkTags, OccursAt;
    forall k | OccursAt(text, tags.open, k) ensures i <= k { FirstFound(text, tags.open, i, k); }
    StripSkips(tags, text, i);
  }

  lemma BlockAtFront(tags: Tags, text: string, i: nat, j: nat)
    requires i == Find(text, tags.open) && j == Find(text[i + |tags.open|..], tags.close)
    ensures i + |tags.open| + j + |tags.close| <= |text|
    ensures OccursAt(text[i..], tags.open, 0) && j == Find(text[i..][|tags.open|..], tags.close)
    ensures text[i..][|tags.open| + j + |tags.close|..] == text[i + |tags.open| + j + |tags.close|..]
  {
    assert text[i..][|tags.open|..] == text[i + |tags.open|..];
    assert text[i..][..|tags.open|] == text[i..i + |tags.open|];
  }

  /** The match at the front of the text is dropped. */
  lemma BlockInFront(tags: Tags, text: string, j: nat)
    requires OccursAt(text, tags.open, 0) && j == Find(text[|tags.open|..], tags.close)
    ensures |tags.open| + j + |tags.close| <= |text|
    ensures StripThinkTags(tags, text) == StripThinkTags(tags, text[|tags.open| + j + |tags.close|..])
  {
    assert OccursAt(text[|tags.open|..], tags.close, j);
    hide Find;
    assert MatchesAt(tags, text, 0) by { assert text[0 + |tags.open|..] == text[|tags.open|..]; }
    hide OccursAt, MatchesAt;
  }

  /** One-shot removal keeps exactly what the parser emits as content, and the block left open. */
  lemma {:induction false} StripIsContent(tags: Tags, text: string)
    ensures var o := Run(tags, false, text);
            && StripThinkTags(tags, text) == o.Flush().0 + OpenBlock(tags, text)
            && (o.inThink <==> OpenBlock(tags, text) != "")
    decreases |text|
  {
    hide HeldLength, Find, StripThinkTags, Run;
    var i := Find(text, tags.open);
    if i < 0 {
      NoMatchKeepsAll(tags, text);
      RunHeld(tags, false, text);
    } else {
      RunFound(tags, false, text);
      var rest := text[i + |tags.open|..];
      var j := Find(rest, tags.close);
      if j < 0 {
        UnclosedNoMatch(tags, text, i);
        NoMatchKeepsAll(tags, text);
        RunHeld(tags, true, rest);
      } else {
        RunFound(tags, true, rest);
        ClosedBlockRemoved(tags, text, i, j);
        var after := text[i + |tags.open| + j + |tags.close|..];
        assert rest[j + |tags.close|..] == after;
        StripIsContent(tags, after);
        ContentAfterBlock(text[..i], rest[..j], Run(tags, false, after), OpenBlock(tags, after));
      }
    }
  }

  lemma ContentAfterBlock(before: string, block: string, o: Outcome, tail: string)
    ensures var whole := Emit(false, before, "").Then(Emit(true, block, "").Then(o));
            whole.inThink == o.inThink && whole.Flush().0 + tail == before + (o.Flush().0 + tail)
  {}

  /** For every chunking: the streamed content is the one-shot removal from the whole text exactly when
      the text leaves no block open, that is, when the stream does not end inside one. */
  lemma StreamAgreesWithStrip(tags: Tags, chunks: seq<string>)
    ensures var o := FeedAll(tags, false, "", chunks);
            && (o.Flush().0 == StripThinkTags(tags, Concat(chunks)) <==> OpenBlock(tags, Concat(chunks)) == "")
            && (o.inThink <==> OpenBlock(tags, Concat(chunks)) != "")
  {
    ChunkIndependence(tags, chunks, chunks);
    StripIsContent(tags, Concat(chunks));
  }

  /** A tag, or the start of one at the end of the text, brings its first character with it. */
  lemma TagNeedsFirst(text: string, tag: string)
    requires tag != ""
    ensures Find(text, tag) != -1 || HeldLength(text, tag) > 0 ==> tag[0] in text
  {
    if Find(text, tag) != -1 {
      assert text[Find(text, tag) + 0] == tag[0];
    } else if HeldLength(text, tag) > 0 {
      assert text[|text| - HeldLength(text, tag) + 0] == tag[0];
    }
  }

  /** Text without a '<' goes to the side the parser is on. */
  lemma PlainRun(inThink: bool, text: string)
    requires '<' !in text
    ensures Run(THINK, inThink, text) == Emit(inThink, text, "")
  {
    var tag := THINK.Awaited(inThink);
    assert tag[0] == '<';
    TagNeedsFirst(text, tag);
    assert text[..|text|] == text;
  }

  /** The awaited tag alone switches sides. */
  lemma TagRun(inThink: bool)
    ensures Run(THINK, inThink, THINK.Awaited(inThink)) == Outcome("", "", !inThink, "")
  {
    hide Run, HeldLength;
    var tag := THINK.Awaited(inThink);
    assert OccursAt(tag, tag, 0);
    RunFound(THINK, inThink, tag);
    RunEmpty(THINK, !inThink);
    assert tag[..0] == "" && tag[0 + |tag|..] == "";
  }

  /** An unclosed block: the stream shows no content, the one-shot removal keeps everything. */
  lemma UnclosedBlockDiffers()
    ensures FeedAll(THINK, false, "", ["<think>a"]).Flush() == ("", "a")
    ensures StripThinkTags(THINK, "<think>a") == "<think>a"
  {
    hide Run, StripThinkTags, FeedAll, OpenBlock;
    var text := "<think>a";
    TagRun(false);
    PlainRun(true, "a");
    FeedCompose(THINK, false, "<think>", "a");
    assert "<think>" + "a" == text && "" + "a" == "a" + "" == "a" && "" + "" == "";
    assert Run(THINK, false, text) == Outcome("", "a", true, "");
    assert Concat([text]) == text + Concat([]) == text;
    ChunkIndependence(THINK, [text], [text]);
    StripIsContent(THINK, text);
    OpenBlockOf(text);
  }

  lemma OpenBlockOf(text: string)
    requires text == "<think>a"
    ensures OpenBlock(THINK, text) == text
  {
    assert OccursAt(text, THINK.open, 0);
    assert Find(text, THINK.open) == 0;
    var rest := text[0 + |THINK.open|..];
    assert rest == "a" && text[0..] == text;
    TagNeedsFirst(rest, THINK.close);
    assert THINK.close[0] == '<' != rest[0];
    assert Find(rest, THINK.close) == -1;
  }

  // ---------------------------------------------------------------- in plain terms

  /** What a whole stream comes to, however it is cut: text without "<think>" is content; what follows
      one that is never closed is thinking text; and after a closed one it goes on in the same way. */
  lemma StreamInPlainTerms(chunks: seq<string>)
    ensures var text, whole := Concat(chunks), FeedAll(THINK, false, "", chunks).Flush();
            var i := Find(text, "<think>");
            if i == -1 then whole == (text, "")
            else
              var inside := text[i + 7..];
              var j := Find(inside, "</think>");
              if j == -1 then whole == (text[..i], inside)
              else
                var rest := FeedAll(THINK, false, "", [inside[j + 8..]]).Flush();
                whole == (text[..i] + rest.0, inside[..j] + rest.1)
  {
    hide Run, Find, HeldLength, FeedAll, Concat;
    var text := Concat(chunks);
    ChunkIndependence(THINK, chunks, chunks);
    var i := Find(text, "<think>");
    FindRange(text, "<think>");
    if i == -1 {
      FlushHeld(false, text);
    } else {
      var inside := text[i + 7..];
      var j := Find(inside, "</think>");
      FindRange(inside, "</think>");
      RunFound(THINK, false, text);
      if j == -1 {
        FlushHeld(true, inside);
        FlushAfter(text[..i], "", Run(THINK, true, inside));
        assert text[..i] + "" == text[..i] && "" + inside == inside;
      } else {
        var after := inside[j + 8..];
        RunFound(THINK, true, inside);
        OneChunk(after);
        ThenAssociative(Emit(false, text[..i], ""), Emit(true, inside[..j], ""), Run(THINK, false, after));
        assert text[..i] + "" == text[..i] && "" + inside[..j] == inside[..j];
        FlushAfter(text[..i], inside[..j], Run(THINK, false, after));
      }
    }
  }

  lemma FindRange(text: string, tag: string)
    ensures Find(text, tag) == -1 || 0 <= Find(text, tag) <= |text| - |tag|
  {}

  /** Without the awaited tag, all text ends up on the side the parser is on. */
  lemma FlushHeld(inThink: bool, text: string)
    requires Find(text, THINK.Awaited(inThink)) == -1
    ensures Run(THINK, inThink, text).Flush() == if inThink then ("", text) else (text, "")
  {
    RunHeld(THINK, inThink, text);
    var safe := |text| - HeldLength(text, THINK.Awaited(inThink));
    assert text[..safe] + text[safe..] == text;
  }

  lemma FlushAfter(content: string, thinking: string, o: Outcome)
    ensures forall inThink ::
              Outcome(content, thinking, inThink, "").Then(o).Flush() == (content + o.Flush().0, thinking + o.Flush().1)
  {
    assert content + o.content + o.held == content + (o.content + o.held);
    assert thinking + o.thinking + o.held == thinking + (o.thinking + o.held);
  }

  lemma OneChunk(text: string)
    ensures FeedAll(THINK, false, "", [text]) == Run(THINK, false, text)
  {
    hide Run, FeedAll;
    assert Concat([text]) == text + Concat([]) == text;
    ChunkIndependence(THINK, [text], [text]);
  }
}
