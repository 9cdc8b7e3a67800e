/** The text side of a streamed reply: repeated chunks are dropped, think blocks are separated, and
    tool-call XML is filtered out of the content. */
module Accumulator {
  import opened Text
  import opened ThinkTags
  import X = ToolCallXml

  // ---------------------------------------------------------------- the accumulator as a function

  /** What the chunks so far come to: the text that was not dropped, the content shown, what the
      filter remembers, and the blocks it suppressed. */
  datatype Reply = Reply(kept: string, shown: string, filter: X.FilterState, blocks: seq<string>)

  const NOTHING := Reply("", "", X.FRESH, [])

  /** The content the think parser gives out for a further chunk. */
  function ContentOf(kept: string, delta: string): string {
    var o := Run(THINK, false, kept);
    Run(THINK, o.inThink, o.held + delta).content
  }

  /** Content goes through the filter. */
  function Show(cc: X.CharClass, r: Reply, text: string): Reply {
    if text == "" then r
    else
      var f := X.FilterChunk(cc, r.filter, text);
      r.(shown := r.shown + f.out, filter := f.state, blocks := r.blocks + f.blocks)
  }

  /** One chunk. It is dropped when it equals all content shown so far. */
  function Accept(cc: X.CharClass, r: Reply, delta: string): Reply {
    if delta == "" || delta == r.shown then r else Show(cc, r, ContentOf(r.kept, delta)).(kept := r.kept + delta)
  }

  function Accumulated(cc: X.CharClass, chunks: seq<string>): Reply {
    if chunks == [] then NOTHING
    else Accept(cc, Accumulated(cc, chunks[..|chunks| - 1]), chunks[|chunks| - 1])
  }

  /** End of stream: content and blocks once the parser and the filter gave up what they held back. */
  function Finished(cc: X.CharClass, r: Reply): (string, seq<string>) {
    var o := Run(THINK, false, r.kept);
    var last := Show(cc, r, if o.inThink then "" else o.held);
    X.Filtered(last.shown, last.blocks, last.filter).Flush()
  }

  lemma AccumulatedNext(cc: X.CharClass, chunks: seq<string>, n: nat)
    requires n < |chunks|
    ensures Accumulated(cc, chunks[..n + 1]) == Accept(cc, Accumulated(cc, chunks[..n]), chunks[n])
  {
    assert chunks[..n + 1][..n] == chunks[..n];
  }

  // ---------------------------------------------------------------- the accumulator

  class StreamAccumulator {
    const thinkParser: ThinkTagParser
    const xmlFilter: X.ToolCallXmlFilter
    var contentParts: seq<string>
    var thinkingParts: seq<string>
    ghost var kept: string   // all chunks that were not dropped

    ghost function State(): Reply
      reads this, xmlFilter
    {
      Reply(kept, Concat(contentParts), xmlFilter.State(), xmlFilter.suppressedBlocks)
    }

    ghost predicate Valid()
      reads this, thinkParser, xmlFilter
    {
      && thinkParser.tags == THINK && xmlFilter.Valid() && xmlFilter.Settled() && X.Extends([], xmlFilter.log)
      && Outcome(xmlFilter.fed, Concat(thinkingParts), thinkParser.inThink, thinkParser.buffer)
         == Run(THINK, false, kept)
      && X.EmittedText(xmlFilter.log) == Concat(contentParts)
      && (contentParts == [] <==> Concat(contentParts) == "")
    }

    constructor (cc: X.CharClass)
      ensures Valid() && fresh(thinkParser) && fresh(xmlFilter) && xmlFilter.cc == cc
      ensures State() == NOTHING && thinkingParts == []
    {
      hide Run, X.EmittedText, X.Undecidable, X.Accounts, Find;
      thinkParser := new ThinkTagParser();
      xmlFilter := new X.ToolCallXmlFilter(cc);
      contentParts, thinkingParts, kept := [], [], "";
      new;
      RunEmpty(THINK, false);
    }

    /** One delta. A delta equal to all content so far counts as a repetition of it and is dropped. */
    method FeedText(delta: string)
      requires Valid()
      modifies this, thinkParser, xmlFilter
      ensures Valid()
      ensures State() == Accept(xmlFilter.cc, old(State()), delta)
      ensures kept == old(kept) + (if delta == Concat(old(contentParts)) then "" else delta)
    {
      hide Run, Concat, X.EmittedText, X.Undecidable, X.Accounts, X.FilterChunk, X.Extends, Show;
      if delta == "" {
        assert kept + "" == kept;
        return;
      }
      var isDup := contentParts != [] && delta == Concat(contentParts);
      if isDup {
        assert kept + "" == kept;
        return;
      }
      FeedCompose(THINK, false, kept, delta);
      var contentText, thinkingText := thinkParser.Feed(delta);
      AddContent(contentText);
      ShowKeepsKept(xmlFilter.cc, old(State()), contentText);
      AddThinking(thinkingText);
      kept := kept + delta;
    }

    method AddContent(text: string)
      requires xmlFilter.Valid() && xmlFilter.Settled() && X.Extends([], xmlFilter.log)
      requires X.EmittedText(xmlFilter.log) == Concat(contentParts)
      requires contentParts == [] <==> Concat(contentParts) == ""
      modifies this`contentParts, xmlFilter
      ensures xmlFilter.Valid() && xmlFilter.Settled() && X.Extends([], xmlFilter.log)
      ensures X.EmittedText(xmlFilter.log) == Concat(contentParts)
      ensures contentParts == [] <==> Concat(contentParts) == ""
      ensures xmlFilter.fed == old(xmlFilter.fed) + text
      ensures State() == Show(xmlFilter.cc, old(State()), text)
    {
      hide X.EmittedText, X.Undecidable, X.Accounts, X.FilterChunk, X.Extends;
      if text != "" {
        ghost var logged := xmlFilter.log;
        var filtered := xmlFilter.Feed(text);
        X.ExtendsTransitive([], logged, xmlFilter.log);
        ConcatSnoc(contentParts, filtered);
        if filtered != "" { contentParts := contentParts + [filtered]; }
      } else {
        assert xmlFilter.fed + text == xmlFilter.fed;
      }
    }

    method AddThinking(text: string)
      modifies this`thinkingParts
      ensures Concat(thinkingParts) == Concat(old(thinkingParts)) + text
    {
      ConcatSnoc(thinkingParts, text);
      if text != "" { thinkingParts := thinkingParts + [text]; }
    }

    /** End of stream: what the parser and the filter held back comes out. */
    method Finish()
      requires Valid()
      modifies this, thinkParser, xmlFilter
      ensures kept == old(kept) && xmlFilter.fed == X.Rendered(xmlFilter.log)
      ensures (X.Rendered(xmlFilter.log), Concat(thinkingParts)) == Run(THINK, false, kept).Flush()
      ensures X.EmittedText(xmlFilter.log) == Concat(contentParts)
      ensures (Concat(contentParts), xmlFilter.suppressedBlocks) == Finished(xmlFilter.cc, old(State()))
      ensures X.AllJustified(xmlFilter.cc, xmlFilter.fed, xmlFilter.log) && X.EndsOnce(xmlFilter.log)
      ensures xmlFilter.suppressedBlocks == X.Blocks(xmlFilter.log)
    {
      hide Run, Concat, Show, X.EmittedText, X.Undecidable, X.Accounts, X.Rendered, X.AllJustified, X.Blocks,
        X.Extends, X.EndsOnce;
      FlushLast(Run(THINK, false, kept));
      assert "" + thinkParser.buffer == thinkParser.buffer;
      var flushContent, flushThinking := thinkParser.Flush();
      AddContent(flushContent);
      AddThinking(flushThinking);
      ghost var streamed := xmlFilter.log;
      X.FlushOnTop(X.Filtered(Concat(contentParts), xmlFilter.suppressedBlocks, xmlFilter.State()));
      var xmlRemaining := xmlFilter.Flush();
      X.FlushedOnce(streamed, xmlFilter.log[|streamed|]);
      ConcatSnoc(contentParts, xmlRemaining);
      assert Concat(contentParts) + "" == Concat(contentParts);
      if xmlRemaining != "" { contentParts := contentParts + [xmlRemaining]; }
    }
  }

  lemma ShowKeepsKept(cc: X.CharClass, r: Reply, text: string)
    ensures Show(cc, r, text).kept == r.kept
  {}

  // ---------------------------------------------------------------- a whole stream

  /** The content shown, and the text not dropped, once these chunks have arrived. */
  function Shown(cc: X.CharClass, chunks: seq<string>): string { Accumulated(cc, chunks).shown }

  function Kept(cc: X.CharClass, chunks: seq<string>): string { Accumulated(cc, chunks).kept }

  /** No chunk but an empty one equals the content shown before it. */
  predicate NoneDropped(cc: X.CharClass, chunks: seq<string>) {
    forall i :: 0 <= i < |chunks| ==> Accepted(cc, chunks, i)
  }

  predicate Accepted(cc: X.CharClass, chunks: seq<string>, i: nat)
    requires i < |chunks|
  {
    chunks[i] == "" || chunks[i] != Shown(cc, chunks[..i])
  }

  lemma NoneDroppedSnoc(cc: X.CharClass, chunks: seq<string>)
    requires chunks != []
    ensures var n := |chunks| - 1; NoneDropped(cc, chunks) <==> NoneDropped(cc, chunks[..n]) && Accepted(cc, chunks, n)
  {
    hide Shown;
    var n := |chunks| - 1;
    forall i | 0 <= i < n ensures Accepted(cc, chunks[..n], i) <==> Accepted(cc, chunks, i) {
      assert chunks[..n][..i] == chunks[..i];
    }
  }

  /** One more chunk is kept whole or not at all. */
  lemma KeptSnoc(cc: X.CharClass, chunks: seq<string>)
    requires chunks != []
    ensures var n := |chunks| - 1;
            && Kept(cc, chunks) == Kept(cc, chunks[..n])
                                + (if chunks[n] == Shown(cc, chunks[..n]) then "" else chunks[n])
            && Concat(chunks) == Concat(chunks[..n]) + chunks[n]
  {
    hide Show, ContentOf;
    var n := |chunks| - 1;
    ConcatSnoc(chunks[..n], chunks[n]);
    assert chunks[..n] + [chunks[n]] == chunks;
    assert Kept(cc, chunks[..n]) + "" == Kept(cc, chunks[..n]);
  }

  /** The text kept is the whole text exactly when no chunk equals the content shown before it. */
  lemma {:induction false} KeptWhole(cc: X.CharClass, chunks: seq<string>)
    ensures Kept(cc, chunks) == Concat(chunks) <==> NoneDropped(cc, chunks)
    ensures |Kept(cc, chunks)| <= |Concat(chunks)|
    decreases |chunks|
  {
    if chunks != [] {
      var n := |chunks| - 1;
      KeptWhole(cc, chunks[..n]);
      NoneDroppedSnoc(cc, chunks);
      KeptSnoc(cc, chunks);
      SameTail(Kept(cc, chunks[..n]), Concat(chunks[..n]), chunks[n]);
      hide Kept, Shown, Concat, NoneDropped;
    }
  }

  lemma SameTail(a: string, b: string, tail: string)
    ensures a + tail == b + tail <==> a == b
  {
    if a + tail == b + tail { assert a == (a + tail)[..|a|] && b == (b + tail)[..|b|]; }
  }

  // ---------------------------------------------------------------- a reply with tags

  /** A closing tag outside a block is content. */
  lemma CloseRun()
    ensures Run(THINK, false, THINK.close) == Outcome(THINK.close, "", false, "")
  {
    var text, tag := THINK.close, THINK.open;
    assert text[0 + 1] == '/' && tag[1] == 't';
    forall i ensures !OccursAt(text, tag, i) {
      if i == 0 { assert text[i + 1] != tag[1]; } else if i == 1 { assert text[i + 0] != tag[0]; }
    }
    assert forall j :: 0 <= j < 6 ==> tag[j] != '>';
    forall m | 0 < m < |tag| ensures !EndsWithPartial(text, tag, m) {
      assert m <= |text| ==> text[|text| - m + (m - 1)] == '>' != tag[m - 1];
    }
    assert text[..|text|] == text;
  }

  lemma JudgedPlain(cc: X.CharClass)
    requires !cc.alpha('>')
    ensures X.Judge(cc, "/think>") == X.Plain
  {
    hide Find, StartsWith, X.StripSlashes;
    var rest, check := "/think>", "think>";
    forall p | p in X.TOOL_PREFIXES ensures !StartsWith(rest, p) && !StartsWith(p, rest) { NoToolPrefix(p); }
    SlashStripped();
    FindChar(check, ':');
    assert check[5] == '>';
  }

  lemma SlashStripped()
    ensures X.StripSlashes("/think>") == "think>"
  {
    var rest := "/think>";
    assert rest[1..] == "think>";
  }

  lemma NoToolPrefix(p: string)
    requires p in X.TOOL_PREFIXES
    ensures !StartsWith("/think>", p) && !StartsWith(p, "/think>")
  {
    var rest := "/think>";
    var i := if p[0] != '/' then 0 else if p[1] == 'i' then 1 else 2;
    assert p == "invoke" || p == "tool_call" || p == "/invoke" || p == "/tool_call";
    PrefixAt(rest, p, i);
    PrefixAt(p, rest, i);
  }

  /** The filter lets a closing tag pass. */
  lemma CloseShown(cc: X.CharClass)
    requires !cc.alpha('>')
    ensures X.FilterChunk(cc, X.FRESH, THINK.close) == X.Filtered(THINK.close, [], X.FRESH)
  {
    hide X.Judge, X.Settle, X.SegmentStep, X.TextStep, Find;
    var text, rest := THINK.close, "/think>";
    assert text == "<" + rest && text[1..] == rest && text[0] == '<';
    JudgedPlain(cc);
    assert X.AngleStep(cc, text) == (X.Filtered("<", [], X.FilterState(rest, false, [])), true);
    AngleFirst(cc, text);
    PlainSettles(cc, rest);
    assert "" + text == text;
  }

  /** A '<' at the front that passes is followed by what the rest settles to. */
  lemma AngleFirst(cc: X.CharClass, text: string)
    requires text != "" && text[0] == '<' && X.AngleStep(cc, text).1
    ensures X.Settle(cc, X.FilterState(text, false, []))
         == X.AngleStep(cc, text).0.Then(X.Settle(cc, X.AngleStep(cc, text).0.state))
  {
    hide X.AngleStep;
    assert OccursAt(text, "<", 0);
    assert text[0..] == text && text[..0] == "";
    var f := X.AngleStep(cc, text).0;
    assert "" + f.out == f.out;
  }

  /** Text without a '<' passes the filter. */
  lemma PlainSettles(cc: X.CharClass, text: string)
    requires '<' !in text
    ensures X.Settle(cc, X.FilterState(text, false, [])) == X.Filtered(text, [], X.FRESH)
  {
    FindChar(text, '<');
  }

  /** A third chunk that equals what the first two show is dropped. */
  lemma ThirdDropped(cc: X.CharClass, chunks: seq<string>, r: Reply)
    requires |chunks| == 4 && Accept(cc, Accept(cc, NOTHING, chunks[0]), chunks[1]) == r && r.shown == chunks[2] != ""
    ensures Shown(cc, chunks[..2]) == chunks[2] && !NoneDropped(cc, chunks)
    ensures Accumulated(cc, chunks) == Accept(cc, r, chunks[3])
  {
    hide Show, ContentOf;
    assert chunks[..0] == [] && chunks[..4] == chunks;
    AccumulatedNext(cc, chunks, 0);
    AccumulatedNext(cc, chunks, 1);
    AccumulatedNext(cc, chunks, 2);
    AccumulatedNext(cc, chunks, 3);
    assert !Accepted(cc, chunks, 2);
  }

  /** Text that goes on where nothing is held back. */
  lemma RunOn(kept: string, delta: string, a: Outcome, b: Outcome, both: Outcome)
    requires Run(THINK, false, kept) == a && a.held == "" && Run(THINK, a.inThink, delta) == b
    requires both.content == a.content + b.content && both.thinking == a.thinking + b.thinking
    requires both.inThink == b.inThink && both.held == b.held
    ensures Run(THINK, false, kept + delta) == both
  {
    hide Run;
    FeedCompose(THINK, false, kept, delta);
    assert "" + delta == delta;
  }

  const CLOSE := "</think>"
  const STARTED := "<think>abc"
  const ECHO := [CLOSE, STARTED, CLOSE, "rest"]

  /** What the parser makes of the chunks that are kept, and of all of them. */
  lemma EchoParsed()
    ensures Run(THINK, false, CLOSE) == Outcome(CLOSE, "", false, "")
    ensures Run(THINK, false, STARTED) == Outcome("", "abc", true, "")
    ensures Run(THINK, false, CLOSE + STARTED + "rest") == Outcome(CLOSE, "abc" + "rest", true, "")
    ensures Run(THINK, false, CLOSE + STARTED + CLOSE + "rest") == Outcome(CLOSE + "rest", "abc", false, "")
  {
    hide Run, HeldLength, Find;
    CloseRun();
    TagRun(false);
    TagRun(true);
    PlainRun(true, "abc");
    PlainRun(true, "rest");
    PlainRun(false, "rest");
    assert "<think>" + "abc" == STARTED;
    var shown, inside := Outcome(CLOSE, "", false, ""), Outcome("", "abc", true, "");
    var both := Outcome(CLOSE, "abc", true, "");
    RunOn("<think>", "abc", Outcome("", "", true, ""), inside, inside);
    RunOn(CLOSE, STARTED, shown, inside, both);
    RunOn(CLOSE + STARTED, "rest", both, Outcome("", "rest", true, ""), Outcome(CLOSE, "abc" + "rest", true, ""));
    RunOn(CLOSE + STARTED, CLOSE, both, Outcome("", "", false, ""), Outcome(CLOSE, "abc", false, ""));
    RunOn(CLOSE + STARTED + CLOSE, "rest", Outcome(CLOSE, "abc", false, ""), Outcome("rest", "", false, ""),
          Outcome(CLOSE + "rest", "abc", false, ""));
  }

  /** The first two chunks show the closing tag. */
  lemma EchoShown(cc: X.CharClass)
    requires !cc.alpha('>')
    ensures Accept(cc, Accept(cc, NOTHING, CLOSE), STARTED) == Reply(CLOSE + STARTED, CLOSE, X.FRESH, [])
  {
    hide Run, X.FilterChunk, Find;
    EchoParsed();
    RunEmpty(THINK, false);
    CloseShown(cc);
    assert "" + CLOSE == CLOSE && "" + STARTED == STARTED;
    assert Accept(cc, NOTHING, CLOSE) == Reply(CLOSE, CLOSE, X.FRESH, []);
    assert CLOSE[1] != STARTED[1];
  }

  /** A closing tag that was shown as content, and comes again to close a block: the second one is
      dropped, the block stays open, and what follows counts as thinking. */
  lemma ClosingTagDropped(cc: X.CharClass)
    requires !cc.alpha('>')
    ensures Shown(cc, ECHO[..2]) == ECHO[2] && !NoneDropped(cc, ECHO)
    ensures Run(THINK, false, Kept(cc, ECHO)).Flush() == ("</think>", "abc" + "rest")
    ensures Run(THINK, false, Concat(ECHO)).Flush() == ("</think>" + "rest", "abc")
  {
    hide Run, Show, ContentOf, Accumulated, NoneDropped, Concat;
    EchoShown(cc);
    var r := Reply(CLOSE + STARTED, CLOSE, X.FRESH, []);
    ThirdDropped(cc, ECHO, r);
    assert CLOSE[0] != "rest"[0];
    FourJoined(CLOSE, STARTED, CLOSE, "rest");
    EchoParsed();
    assert ("abc" + "rest") + "" == "abc" + "rest" && (CLOSE + "rest") + "" == CLOSE + "rest";
  }

  lemma FourJoined(a: string, b: string, c: string, d: string)
    ensures Concat([a, b, c, d]) == a + b + c + d
  {
    ConcatSnoc([a, b, c], d);
    ConcatSnoc([a, b], c);
    ConcatSnoc([a], b);
    assert [a] + [b] == [a, b] && [a, b] + [c] == [a, b, c] && [a, b, c] + [d] == [a, b, c, d];
    assert Concat([a]) == a + Concat([]) == a;
  }

  // ---------------------------------------------------------------- replies without a '<'

  /** Some chunk repeats all the text before it. */
  predicate Repeats(chunks: seq<string>) {
    exists k :: 0 <= k < |chunks| && RepeatsAt(chunks, k)
  }

  predicate RepeatsAt(chunks: seq<string>, k: nat)
    requires k < |chunks|
  {
    chunks[k] != "" && chunks[k] == Concat(chunks[..k])
  }

  lemma RepeatsSnoc(chunks: seq<string>)
    requires chunks != []
    ensures var n := |chunks| - 1;
            Repeats(chunks) <==> Repeats(chunks[..n]) || (chunks[n] != "" && chunks[n] == Concat(chunks[..n]))
  {
    var n := |chunks| - 1;
    forall k | 0 <= k < n ensures RepeatsAt(chunks[..n], k) <==> RepeatsAt(chunks, k) {
      assert chunks[..n][..k] == chunks[..k];
    }
    if Repeats(chunks[..n]) {
      var k :| 0 <= k < n && RepeatsAt(chunks[..n], k);
      assert RepeatsAt(chunks, k);
    }
    if chunks[n] != "" && chunks[n] == Concat(chunks[..n]) { assert RepeatsAt(chunks, n); }
  }

  /** A reply whose second half repeats its first half, sent as these two halves, is such a case. */
  lemma HalvesRepeat(half: string)
    requires half != ""
    ensures Repeats([half, half])
  {
    var chunks := [half, half];
    assert chunks[..1] == [half];
    assert Concat([half]) == half + Concat([]) == half;
    assert RepeatsAt(chunks, 1);
  }

  /** The reply holds no '<'. */
  predicate Plain(chunks: seq<string>) { forall c :: c in chunks ==> '<' !in c }

  lemma {:induction false} PlainConcat(chunks: seq<string>)
    ensures '<' !in Concat(chunks) <==> Plain(chunks)
  {
    if chunks != [] {
      PlainConcat(chunks[1..]);
      assert chunks == [chunks[0]] + chunks[1..];
    }
  }

  /** A chunk without a '<' is shown as it is. */
  lemma PlainAccept(cc: X.CharClass, k: string, delta: string)
    requires '<' !in k && '<' !in delta && delta != "" && delta != k
    ensures Accept(cc, Reply(k, k, X.FRESH, []), delta) == Reply(k + delta, k + delta, X.FRESH, [])
  {
    hide Run, X.Settle, Find;
    PlainRun(false, k);
    PlainRun(false, delta);
    PlainSettles(cc, delta);
    assert "" + delta == delta;
  }

  /** All that is kept of such a reply is shown, and nothing is held back. */
  lemma {:induction false} PlainShown(cc: X.CharClass, chunks: seq<string>)
    requires Plain(chunks)
    ensures var k := Kept(cc, chunks); '<' !in k && Accumulated(cc, chunks) == Reply(k, k, X.FRESH, [])
    decreases |chunks|
  {
    if chunks != [] {
      var n := |chunks| - 1;
      PlainShown(cc, chunks[..n]);
      var k := Kept(cc, chunks[..n]);
      assert chunks[n] in chunks;
      if chunks[n] != "" && chunks[n] != k { PlainAccept(cc, k, chunks[n]); }
      hide Show, ContentOf;
    }
  }

  /** Where all kept text is shown as content, it is the whole text exactly when no chunk repeats
      all the text before it. */
  lemma {:induction false} PlainKept(cc: X.CharClass, chunks: seq<string>)
    requires Plain(chunks)
    ensures Kept(cc, chunks) == Concat(chunks) <==> !Repeats(chunks)
    decreases |chunks|
  {
    if chunks != [] {
      var n := |chunks| - 1;
      PlainKept(cc, chunks[..n]);
      PlainShown(cc, chunks[..n]);
      KeptWhole(cc, chunks[..n]);
      RepeatsSnoc(chunks);
      KeptSnoc(cc, chunks);
      SameTail(Kept(cc, chunks[..n]), Concat(chunks[..n]), chunks[n]);
      hide Repeats, Concat, Accept, Accumulated, Plain, NoneDropped;
    }
  }

  // ---------------------------------------------------------------- all replies

  /** What the log of a finished reply and its kept text say about the whole text. */
  lemma WholeStream(cc: X.CharClass, chunks: seq<string>, log: seq<X.Piece>)
    requires X.AllJustified(cc, X.Rendered(log), log)
    requires X.Rendered(log) == Run(THINK, false, Kept(cc, chunks)).Flush().0
    ensures NoneDropped(cc, chunks) ==>
              (X.Rendered(log) == StripThinkTags(THINK, Concat(chunks)) <==> OpenBlock(THINK, Concat(chunks)) == "")
    ensures '<' !in Concat(chunks) ==> (X.EmittedText(log) == Concat(chunks) <==> !Repeats(chunks))
  {
    hide Run, X.AllJustified, X.Rendered, X.EmittedText, Kept, Concat, Repeats, NoneDropped, Plain, OpenBlock;
    PlainConcat(chunks);
    KeptWhole(cc, chunks);
    if NoneDropped(cc, chunks) { StripIsContent(THINK, Concat(chunks)); }
    if Plain(chunks) {
      PlainShown(cc, chunks);
      PlainRun(false, Kept(cc, chunks));
      assert Kept(cc, chunks) + "" == Kept(cc, chunks);
      X.NoAngleNoBlock(cc, X.Rendered(log), log);
      PlainKept(cc, chunks);
    }
  }

  /** A reply streamed in chunks comes to what the functions above say. Content and blocks, put
      together in order, are the content side of the kept text; that is the whole text exactly when no
      chunk equals the content shown before it. Then content and blocks are the whole text without its
      think blocks if and only if none is left open. Text without a '<' comes out unchanged exactly
      when no chunk repeats all the text before it. */
  method AccumulateStream(cc: X.CharClass, chunks: seq<string>)
    returns (content: string, thinking: string, blocks: seq<string>, ghost log: seq<X.Piece>)
    ensures (content, blocks) == Finished(cc, Accumulated(cc, chunks))
    ensures (X.Rendered(log), thinking) == Run(THINK, false, Kept(cc, chunks)).Flush()
    ensures content == X.EmittedText(log) && blocks == X.Blocks(log)
    ensures X.AllJustified(cc, X.Rendered(log), log) && X.EndsOnce(log)
    ensures Kept(cc, chunks) == Concat(chunks) <==> NoneDropped(cc, chunks)
    ensures NoneDropped(cc, chunks) ==>
              (X.Rendered(log) == StripThinkTags(THINK, Concat(chunks)) <==> OpenBlock(THINK, Concat(chunks)) == "")
    ensures '<' !in Concat(chunks) ==> (content == Concat(chunks) <==> !Repeats(chunks))
  {
    hide Run, Accept, Accumulated, NoneDropped, Repeats, Concat, Finished, OpenBlock;
    hide X.AllJustified, X.Rendered, X.EmittedText, X.Blocks, X.EndsOnce;
    var acc := new StreamAccumulator(cc);
    NothingAccumulated(cc);
    assert chunks[..0] == [];
    for i := 0 to |chunks|
      invariant acc.Valid() && acc.xmlFilter.cc == cc && fresh(acc) && fresh(acc.thinkParser) && fresh(acc.xmlFilter)
      invariant acc.State() == Accumulated(cc, chunks[..i])
    {
      AccumulatedNext(cc, chunks, i);
      acc.FeedText(chunks[i]);
    }
    assert chunks[..|chunks|] == chunks;
    acc.Finish();
    content, thinking := Concat(acc.contentParts), Concat(acc.thinkingParts);
    blocks, log := acc.xmlFilter.suppressedBlocks, acc.xmlFilter.log;
    KeptWhole(cc, chunks);
    WholeStream(cc, chunks, log);
  }

  lemma NothingAccumulated(cc: X.CharClass)
    ensures Accumulated(cc, []) == NOTHING
  {}
}
