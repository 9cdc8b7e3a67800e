/** Streaming suppression of XML tool-call fragments: nothing of the input is lost. */
module ToolCallXml {
  import opened Text

  /** The host language's character classes: `str.isalpha`, regex `\w`, `str.isspace`. */
  datatype CharClass = CharClass(alpha: char -> bool, word: char -> bool, space: char -> bool)

  const TOOL_PREFIXES := ["invoke", "tool_call", "/invoke", "/tool_call"]
  const TOOL_CALL := "tool_call"

  function StripSlashes(s: string): string {
    if s != "" && s[0] == '/' then StripSlashes(s[1..]) else s
  }

  datatype Verdict = Tool | Undecided | Plain

  /** What the characters buffered after a '<' say about it. */
  function Judge(cc: CharClass, rest: string): Verdict {
    if exists p :: p in TOOL_PREFIXES && StartsWith(rest, p) then Tool
    else if exists p :: p in TOOL_PREFIXES && |rest| < |p| && StartsWith(p, rest) then Undecided
    else
      var check := StripSlashes(rest);
      var colon := Find(check, ":");
      if 0 < colon < 20 then
        var after := check[colon + 1..];
        if StartsWith(after, TOOL_CALL) then Tool
        else if |after| < |TOOL_CALL| && StartsWith(TOOL_CALL, after) then Undecided
        else Plain
      else if colon == -1 && check != "" && (forall c :: c in check ==> cc.alpha(c)) && |check| < 20 then Undecided
      else Plain
  }

  /** A closing tool-call tag with a namespace stands at `i`, the name running from `i + 2` to `j`. */
  predicate NamespacedClose(cc: CharClass, s: string, i: int, j: int) {
    && OccursAt(s, "</", i) && i + 2 < j && OccursAt(s, ":tool_call>", j)
    && forall k :: i + 2 <= k < j ==> cc.word(s[k])
  }

  /** A consumed piece, up to and including a '>', ends the suppression. */
  predicate EndsSuppression(cc: CharClass, consumed: string) {
    var r := RStrip(cc.space, consumed);
    || (|r| >= 2 && r[|r| - 2..] == "/>")
    || Find(consumed, "</invoke>") != -1
    || Find(consumed, "</tool_call>") != -1
    || exists i, j :: 0 <= i < j < |consumed| && NamespacedClose(cc, consumed, i, j)
  }

  /** Ends at its one '>'. */
  predicate TagSegment(s: string) { s != "" && Find(s, ">") == |s| - 1 }

  /** A '<' and then complete segments, none of which ends the suppression. */
  predicate OpenSegments(cc: CharClass, segments: seq<string>) {
    && segments != [] && segments[0] == "<"
    && forall i :: 1 <= i < |segments| ==> TagSegment(segments[i]) && !EndsSuppression(cc, segments[i])
  }

  // ---------------------------------------------------------------- the filter as a function

  /** What the filter remembers. */
  datatype FilterState = FilterState(buffer: string, suppressing: bool, current: seq<string>)

  const FRESH := FilterState("", false, [])

  /** What some part of a run emits and suppresses, and the state it leads to. */
  datatype Filtered = Filtered(out: string, blocks: seq<string>, state: FilterState) {
    function Then(next: Filtered): Filtered { Filtered(out + next.out, blocks + next.blocks, next.state) }

    /** End of stream: an open block is closed with what is buffered, other text is emitted. */
    function Flush(): (string, seq<string>) {
      if state.suppressing then (out, blocks + [Concat(state.current + [state.buffer])])
      else (out + state.buffer, blocks)
    }
  }

  /** Inside a block: one segment up to the next '>', if there is one. */
  function SegmentStep(cc: CharClass, s: FilterState): (r: (Filtered, bool))
    ensures r.1 ==> |r.0.state.buffer| < |s.buffer|
  {
    var gt := Find(s.buffer, ">");
    if gt == -1 then (Filtered("", [], s), false)
    else
      var consumed, rest := s.buffer[..gt + 1], s.buffer[gt + 1..];
      if EndsSuppression(cc, consumed) then
        (Filtered("", [Concat(s.current + [consumed])], FilterState(rest, false, [])), true)
      else (Filtered("", [], FilterState(rest, true, s.current + [consumed])), true)
  }

  /** A buffer that starts with a '<', outside a block. */
  function AngleStep(cc: CharClass, buffer: string): (r: (Filtered, bool))
    requires buffer != ""
    ensures r.1 ==> |r.0.state.buffer| < |buffer|
  {
    var rest := buffer[1..];
    if |rest| < 2 then (Filtered("", [], FilterState(buffer, false, [])), false)
    else
      match Judge(cc, rest)
      case Tool => (Filtered("", [], FilterState(rest, true, ["<"])), true)
      case Undecided => (Filtered("", [], FilterState(buffer, false, [])), false)
      case Plain => (Filtered("<", [], FilterState(rest, false, [])), true)
  }

  /** Outside a block: the text before the first '<', then that. */
  function TextStep(cc: CharClass, buffer: string): (r: (Filtered, bool))
    requires buffer != ""
    ensures r.1 ==> |r.0.state.buffer| < |buffer|
  {
    var lt := Find(buffer, "<");
    if lt == -1 then (Filtered(buffer, [], FRESH), false)
    else
      var (angle, more) := AngleStep(cc, buffer[lt..]);
      (angle.(out := buffer[..lt] + angle.out), more)
  }

  function StepOf(cc: CharClass, s: FilterState): (r: (Filtered, bool))
    requires s.buffer != ""
    ensures r.1 ==> |r.0.state.buffer| < |s.buffer|
  {
    if s.suppressing then SegmentStep(cc, s) else TextStep(cc, s.buffer)
  }

  /** Steps until the buffer is used up or waits for more. */
  function Settle(cc: CharClass, s: FilterState): Filtered
    decreases |s.buffer|
  {
    if s.buffer == "" then Filtered("", [], s)
    else
      var (f, more) := StepOf(cc, s);
      if more then f.Then(Settle(cc, f.state)) else f
  }

  /** One chunk. */
  function FilterChunk(cc: CharClass, s: FilterState, text: string): Filtered {
    Settle(cc, s.(buffer := s.buffer + text))
  }

  /** A stream of chunks. */
  function FilterAll(cc: CharClass, s: FilterState, chunks: seq<string>): Filtered {
    if chunks == [] then Filtered("", [], s)
    else
      var n := |chunks| - 1;
      var before := FilterAll(cc, s, chunks[..n]);
      before.Then(FilterChunk(cc, before.state, chunks[n]))
  }

  lemma FilterAllSnoc(cc: CharClass, s: FilterState, chunks: seq<string>, text: string)
    ensures var before := FilterAll(cc, s, chunks);
            FilterAll(cc, s, chunks + [text]) == before.Then(FilterChunk(cc, before.state, text))
  {
    assert (chunks + [text])[..|chunks|] == chunks;
  }

  lemma ThenAssociative(a: Filtered, b: Filtered, c: Filtered)
    ensures a.Then(b).Then(c) == a.Then(b.Then(c))
  {}

  // ---------------------------------------------------------------- what became of each piece

  /** What became of one stretch of the input. `seen` is what was buffered after the '<' when it was judged. */
  datatype Piece =
    | Passed(text: string)
    | Angle(seen: string)
    | Suppressed(segments: seq<string>, seen: string)
    | CutOff(segments: seq<string>, seen: string)
    | Leftover(text: string)
  {
    function Text(): string {
      match this
      case Passed(t) => t
      case Angle(_) => "<"
      case Suppressed(s, _) => Concat(s)
      case CutOff(s, _) => Concat(s)
      case Leftover(t) => t
    }

    predicate Emitted() { Passed? || Angle? || Leftover? }

    /** Decided while the stream was running, not by its end. */
    predicate Streamed() { Passed? || Angle? || Suppressed? }
  }

  function Rendered(log: seq<Piece>): string {
    if log == [] then "" else Rendered(log[..|log| - 1]) + log[|log| - 1].Text()
  }

  function EmittedText(log: seq<Piece>): string {
    if log == [] then ""
    else EmittedText(log[..|log| - 1]) + (if log[|log| - 1].Emitted() then log[|log| - 1].Text() else "")
  }

  function Blocks(log: seq<Piece>): seq<string> {
    if log == [] then []
    else Blocks(log[..|log| - 1]) + (if log[|log| - 1].Emitted() then [] else [log[|log| - 1].Text()])
  }

  /** The later log goes on from the earlier one by pieces decided while streaming. */
  predicate Extends(before: seq<Piece>, after: seq<Piece>) {
    && |before| <= |after| && after[..|before|] == before
    && forall i :: |before| <= i < |after| ==> after[i].Streamed()
  }

  lemma ExtendsTransitive(a: seq<Piece>, b: seq<Piece>, c: seq<Piece>)
    requires Extends(a, b) && Extends(b, c)
    ensures Extends(a, c)
  {
    assert c[..|a|] == c[..|b|][..|a|];
    forall i | |a| <= i < |c| ensures c[i].Streamed() {
      if i < |b| { assert c[i] == c[..|b|][i]; }
    }
  }

  lemma ExtendsByOne(log: seq<Piece>, p: Piece)
    requires p.Streamed()
    ensures Extends(log, log + [p]) && Extends(log, log)
  {}

  lemma LogSnoc(log: seq<Piece>, p: Piece)
    ensures Rendered(log + [p]) == Rendered(log) + p.Text()
    ensures EmittedText(log + [p]) == EmittedText(log) + (if p.Emitted() then p.Text() else "")
    ensures Blocks(log + [p]) == Blocks(log) + (if p.Emitted() then [] else [p.Text()])
  {
    assert (log + [p])[..|log|] == log;
  }

  /** At position `at` of the input there is a '<', and the following `seen` was judged `v`. */
  predicate JudgedAt(cc: CharClass, input: string, at: nat, seen: string, v: Verdict) {
    && at + 1 + |seen| <= |input| && input[at] == '<' && |seen| >= 2
    && input[at + 1..at + 1 + |seen|] == seen && Judge(cc, seen) == v
  }

  /** Why this piece, found at position `at` of the input, was treated as it was. */
  predicate Justified(cc: CharClass, input: string, at: nat, p: Piece) {
    match p
    case Passed(t) => '<' !in t
    case Angle(seen) => JudgedAt(cc, input, at, seen, Plain)
    case Suppressed(s, seen) =>
      && JudgedAt(cc, input, at, seen, Tool)
      && |s| >= 2 && OpenSegments(cc, s[..|s| - 1])
      && TagSegment(s[|s| - 1]) && EndsSuppression(cc, s[|s| - 1])
    case CutOff(s, seen) =>
      && JudgedAt(cc, input, at, seen, Tool)
      && |s| >= 2 && OpenSegments(cc, s[..|s| - 1]) && Find(s[|s| - 1], ">") == -1
    case Leftover(t) => Undecidable(cc, t)
  }

  /** Text the filter may hold back outside a block: nothing, or a '<' it cannot judge yet. */
  predicate Undecidable(cc: CharClass, buffer: string) {
    buffer == "" || (buffer[0] == '<' && (|buffer| < 3 || Judge(cc, buffer[1..]) == Undecided))
  }

  predicate AllJustified(cc: CharClass, input: string, log: seq<Piece>) {
    forall i :: 0 <= i < |log| ==> Justified(cc, input, |Rendered(log[..i])|, log[i])
  }

  lemma JustifiedSnoc(cc: CharClass, input: string, log: seq<Piece>, p: Piece)
    requires AllJustified(cc, input, log) && Justified(cc, input, |Rendered(log)|, p)
    ensures AllJustified(cc, input, log + [p])
  {
    hide Justified;
    var grown := log + [p];
    forall i | 0 <= i < |grown| ensures Justified(cc, input, |Rendered(grown[..i])|, grown[i]) {
      assert grown[..i] == log[..i];
      if i == |log| { assert log[..i] == log; }
    }
  }

  lemma JustifiedGrows(cc: CharClass, input: string, more: string, log: seq<Piece>)
    requires AllJustified(cc, input, log)
    ensures AllJustified(cc, input + more, log)
  {
    hide Justified, Rendered;
    forall i | 0 <= i < |log| ensures Justified(cc, input + more, |Rendered(log[..i])|, log[i]) {
      PieceGrows(cc, input, more, |Rendered(log[..i])|, log[i]);
    }
  }

  lemma JudgedGrows(cc: CharClass, input: string, more: string, at: nat, seen: string, v: Verdict)
    requires JudgedAt(cc, input, at, seen, v)
    ensures JudgedAt(cc, input + more, at, seen, v)
  {
    hide Judge;
    assert (input + more)[at + 1..at + 1 + |seen|] == input[at + 1..at + 1 + |seen|];
  }

  lemma PieceGrows(cc: CharClass, input: string, more: string, at: nat, p: Piece)
    requires Justified(cc, input, at, p)
    ensures Justified(cc, input + more, at, p)
  {
    hide JudgedAt, OpenSegments, EndsSuppression, TagSegment, Undecidable, Find;
    match p
    case Passed(_) =>
    case Angle(seen) => JudgedGrows(cc, input, more, at, seen, Plain);
    case Suppressed(_, seen) => JudgedGrows(cc, input, more, at, seen, Tool);
    case CutOff(_, seen) => JudgedGrows(cc, input, more, at, seen, Tool);
    case Leftover(_) =>
  }

  /** The whole input is the logged pieces, the open block and the buffer, in this order, and
      every piece is justified by what the input says at its place. */
  predicate Accounts(cc: CharClass, fed: string, log: seq<Piece>, blocks: seq<string>,
                     suppressing: bool, current: seq<string>, seen: string, buffer: string)
  {
    && fed == Rendered(log) + Concat(current) + buffer
    && blocks == Blocks(log)
    && AllJustified(cc, fed, log)
    && (!suppressing ==> current == [])
    && (suppressing ==> OpenSegments(cc, current) && JudgedAt(cc, fed, |Rendered(log)|, seen, Tool))
  }

  /** A piece joins the log in front of what is left. */
  lemma LogGrows(cc: CharClass, fed: string, log: seq<Piece>, blocks: seq<string>, p: Piece, buffer: string)
    requires fed == Rendered(log) + p.Text() + buffer && blocks == Blocks(log)
    requires AllJustified(cc, fed, log) && Justified(cc, fed, |Rendered(log)|, p)
    ensures Accounts(cc, fed, log + [p], if p.Emitted() then blocks else blocks + [p.Text()], false, [], "", buffer)
  {
    hide Judge, Justified, OpenSegments, JudgedAt, EndsSuppression;
    JustifiedSnoc(cc, fed, log, p);
    LogSnoc(log, p);
    assert Rendered(log) + p.Text() + Concat([]) == Rendered(log) + p.Text();
  }

  lemma SegmentEnds(cc: CharClass, fed: string, log: seq<Piece>, blocks: seq<string>, current: seq<string>,
                    seen: string, consumed: string, rest: string)
    requires Accounts(cc, fed, log, blocks, true, current, seen, consumed + rest)
    requires TagSegment(consumed) && EndsSuppression(cc, consumed)
    ensures var p := Suppressed(current + [consumed], seen);
            && Accounts(cc, fed, log + [p], blocks + [Concat(current + [consumed])], false, [], "", rest)
            && EmittedText(log + [p]) == EmittedText(log)
  {
    hide Judge, EndsSuppression, TagSegment, JudgedAt, AllJustified;
    var segments := current + [consumed];
    ConcatSnoc(current, consumed);
    assert segments[..|segments| - 1] == current;
    assert Rendered(log) + Concat(current) + (consumed + rest) == Rendered(log) + (Concat(current) + consumed) + rest;
    LogGrows(cc, fed, log, blocks, Suppressed(segments, seen), rest);
    LogSnoc(log, Suppressed(segments, seen));
  }

  lemma SegmentContinues(cc: CharClass, fed: string, log: seq<Piece>, blocks: seq<string>, current: seq<string>,
                         seen: string, consumed: string, rest: string)
    requires Accounts(cc, fed, log, blocks, true, current, seen, consumed + rest)
    requires TagSegment(consumed) && !EndsSuppression(cc, consumed)
    ensures Accounts(cc, fed, log, blocks, true, current + [consumed], seen, rest)
  {
    hide Judge, EndsSuppression, TagSegment, JudgedAt, AllJustified;
    ConcatSnoc(current, consumed);
    assert Rendered(log) + Concat(current) + (consumed + rest) == Rendered(log) + (Concat(current) + consumed) + rest;
  }

  /** End of stream inside a block. */
  lemma BlockCutOff(cc: CharClass, fed: string, log: seq<Piece>, blocks: seq<string>, current: seq<string>,
                    seen: string, buffer: string)
    requires Accounts(cc, fed, log, blocks, true, current, seen, buffer) && Find(buffer, ">") == -1
    ensures var p := CutOff(current + [buffer], seen);
            && Accounts(cc, fed, log + [p], blocks + [Concat(current + [buffer])], false, [], "", "")
            && EmittedText(log + [p]) == EmittedText(log)
  {
    hide Judge, EndsSuppression, JudgedAt, AllJustified, Find;
    var segments := current + [buffer];
    ConcatSnoc(current, buffer);
    assert segments[..|segments| - 1] == current;
    assert Rendered(log) + Concat(current) + buffer == Rendered(log) + (Concat(current) + buffer) + "";
    LogGrows(cc, fed, log, blocks, CutOff(segments, seen), "");
    LogSnoc(log, CutOff(segments, seen));
  }

  /** Text outside a block, or the whole held-back buffer at the end of the stream, is emitted. */
  lemma TextPasses(cc: CharClass, fed: string, log: seq<Piece>, blocks: seq<string>, seen: string, p: Piece,
                   rest: string)
    requires Accounts(cc, fed, log, blocks, false, [], seen, p.Text() + rest)
    requires p.Emitted() && Justified(cc, fed, |Rendered(log)|, p)
    ensures forall s :: Accounts(cc, fed, log + [p], blocks, false, [], s, rest)
    ensures EmittedText(log + [p]) == EmittedText(log) + p.Text()
  {
    hide Judge, Justified, OpenSegments, EndsSuppression, JudgedAt, AllJustified;
    assert Rendered(log) + Concat([]) + (p.Text() + rest) == Rendered(log) + p.Text() + rest;
    LogGrows(cc, fed, log, blocks, p, rest);
    LogSnoc(log, p);
  }

  /** The '<' at the front of the buffer is where the logged pieces end. */
  lemma AngleAtEnd(cc: CharClass, fed: string, log: seq<Piece>, blocks: seq<string>, seen: string, rest: string)
    requires Accounts(cc, fed, log, blocks, false, [], seen, "<" + rest) && |rest| >= 2
    ensures JudgedAt(cc, fed, |Rendered(log)|, rest, Judge(cc, rest))
  {
    hide Judge, OpenSegments, EndsSuppression, AllJustified;
    var at := |Rendered(log)|;
    assert fed == Rendered(log) + ("<" + rest);
    assert fed[at + 1..at + 1 + |rest|] == rest;
  }

  lemma BlockOpens(cc: CharClass, fed: string, log: seq<Piece>, blocks: seq<string>, seen: string, rest: string)
    requires Accounts(cc, fed, log, blocks, false, [], seen, "<" + rest) && |rest| >= 2 && Judge(cc, rest) == Tool
    ensures Accounts(cc, fed, log, blocks, true, ["<"], rest, rest)
  {
    hide Judge, JudgedAt, OpenSegments, Rendered, Blocks, AllJustified;
    AngleAtEnd(cc, fed, log, blocks, seen, rest);
    OneAngleOpens(cc);
    assert Rendered(log) + Concat([]) + ("<" + rest) == Rendered(log) + "<" + rest;
  }

  lemma OneAngleOpens(cc: CharClass)
    ensures OpenSegments(cc, ["<"]) && Concat(["<"]) == "<"
  {
    hide EndsSuppression, TagSegment;
    assert Concat(["<"]) == "<" + Concat([]);
  }

  lemma NothingOpen(cc: CharClass, fed: string, log: seq<Piece>, blocks: seq<string>, current: seq<string>,
                    seen: string, buffer: string)
    requires Accounts(cc, fed, log, blocks, false, current, seen, buffer)
    ensures current == []
  {}

  /** More input changes nothing that was accounted for. */
  lemma ChunkJoins(cc: CharClass, fed: string, log: seq<Piece>, blocks: seq<string>, suppressing: bool,
                   current: seq<string>, seen: string, buffer: string, text: string)
    requires Accounts(cc, fed, log, blocks, suppressing, current, seen, buffer)
    ensures Accounts(cc, fed + text, log, blocks, suppressing, current, seen, buffer + text)
  {
    hide JudgedAt, OpenSegments, AllJustified, Rendered, Blocks;
    JustifiedGrows(cc, fed, text, log);
    assert Rendered(log) + Concat(current) + buffer + text == Rendered(log) + Concat(current) + (buffer + text);
    if suppressing { JudgedGrows(cc, fed, text, |Rendered(log)|, seen, Tool); }
  }

  class ToolCallXmlFilter {
    const cc: CharClass
    var buffer: string
    var suppressing: bool
    var suppressedBlocks: seq<string>
    var currentSuppressed: seq<string>
    ghost var fed: string       // all input so far
    ghost var log: seq<Piece>   // what became of it, in order
    ghost var seen: string      // what the open block was judged by

    ghost predicate Valid()
      reads this
    {
      Accounts(cc, fed, log, suppressedBlocks, suppressing, currentSuppressed, seen, buffer)
    }

    function State(): FilterState
      reads this
    {
      FilterState(buffer, suppressing, currentSuppressed)
    }

    /** Nothing more can be decided without further input. */
    ghost predicate Settled()
      reads this
    {
      if suppressing then Find(buffer, ">") == -1 else Undecidable(cc, buffer)
    }

    constructor (cc: CharClass)
      ensures Valid() && Settled() && this.cc == cc
      ensures fed == "" && log == [] && EmittedText(log) == "" && State() == FRESH && suppressedBlocks == []
    {
      this.cc := cc;
      buffer, suppressing, suppressedBlocks, currentSuppressed := "", false, [], [];
      fed, log, seen := "", [], "";
    }

    /** Inside a block: move one segment, up to and including the next '>', into it. */
    method ConsumeSegment() returns (more: bool)
      requires Valid() && suppressing
      modifies this
      ensures Valid() && fed == old(fed) && EmittedText(log) == EmittedText(old(log))
      ensures more ==> |buffer| < |old(buffer)|
      ensures !more ==> Settled()
      ensures var (f, m) := SegmentStep(cc, old(State()));
              more == m && State() == f.state && f.out == "" && suppressedBlocks == old(suppressedBlocks) + f.blocks
      ensures var consumed := old(buffer)[..|old(buffer)| - |buffer|];
              log == if suppressing then old(log)
                     else old(log) + [Suppressed(old(currentSuppressed) + [consumed], old(seen))]
    {
      hide Accounts, EndsSuppression, TagSegment, EmittedText;
      var gt := Find(buffer, ">");
      if gt == -1 {
        return false;
      }
      SegmentOf(buffer, gt);
      var consumed := buffer[..gt + 1];
      assert consumed + buffer[gt + 1..] == buffer;
      buffer := buffer[gt + 1..];
      currentSuppressed := currentSuppressed + [consumed];
      if EndsSuppression(cc, consumed) {
        SegmentEnds(cc, fed, log, suppressedBlocks, old(currentSuppressed), seen, consumed, buffer);
        log := log + [Suppressed(currentSuppressed, seen)];
        seen := "";
        suppressing := false;
        suppressedBlocks := suppressedBlocks + [Concat(currentSuppressed)];
        currentSuppressed := [];
      } else {
        SegmentContinues(cc, fed, log, suppressedBlocks, old(currentSuppressed), seen, consumed, buffer);
      }
      return true;
    }

    /** Outside a block: emit up to the next '<', and judge that. */
    method PassOrOpen() returns (out: string, more: bool)
      requires Valid() && !suppressing && buffer != ""
      modifies this
      ensures Valid() && fed == old(fed) && EmittedText(log) == EmittedText(old(log)) + out
      ensures more ==> |buffer| < |old(buffer)|
      ensures !more ==> Settled()
      ensures (Filtered(out, [], State()), more) == TextStep(cc, old(buffer))
                && suppressedBlocks == old(suppressedBlocks)
      ensures Extends(old(log), log)
    {
      hide Accounts, EmittedText, Find, Rendered, Concat, Undecidable, Judge, Extends, TextStep, AngleStep;
      var lt := Find(buffer, "<");
      FirstAngle(buffer, lt);
      TextStepAt(cc, buffer, lt);
      EmptyUndecided(cc);
      NothingOpen(cc, fed, log, suppressedBlocks, currentSuppressed, seen, buffer);
      out := if lt == -1 then buffer else buffer[..lt];
      assert buffer == out + buffer[|out|..];
      EmitText(out, buffer[|out|..]);
      if buffer == "" {
        return out, false;
      }
      assert buffer[0] == '<';
      ghost var passed := log;
      var angle;
      more, angle := JudgeAngle();
      ExtendsTransitive(old(log), passed, log);
      Regroup(EmittedText(old(log)), out, angle);
      out := out + angle;
    }

    /** Text without a '<' at the front of the buffer, if there is any, leaves it. */
    method EmitText(text: string, rest: string)
      requires Valid() && !suppressing && buffer == text + rest && '<' !in text
      modifies this`buffer, this`log
      ensures Valid() && buffer == rest && EmittedText(log) == EmittedText(old(log)) + text && Extends(old(log), log)
    {
      if text != "" {
        EmitFront(Passed(text), rest);
        ExtendsByOne(old(log), Passed(text));
      } else {
        hide Accounts, EmittedText;
        assert buffer == rest;
      }
    }

    /** The buffer starts with a '<': open a block, wait for more, or let the '<' pass. */
    method JudgeAngle() returns (more: bool, out: string)
      requires Valid() && !suppressing && buffer != "" && buffer[0] == '<'
      modifies this
      ensures Valid() && fed == old(fed) && EmittedText(log) == EmittedText(old(log)) + out
      ensures more ==> |buffer| < |old(buffer)|
      ensures !more ==> Settled()
      ensures (Filtered(out, [], State()), more) == AngleStep(cc, old(buffer))
                && suppressedBlocks == old(suppressedBlocks)
      ensures log == old(log) + (if out == "" then [] else [Angle(old(buffer)[1..])]) && Extends(old(log), log)
    {
      hide Accounts, Judge, EmittedText, JudgedAt;
      out := "";
      var rest := buffer[1..];
      assert buffer == "<" + rest;
      NothingOpen(cc, fed, log, suppressedBlocks, currentSuppressed, seen, buffer);
      if |rest| < 2 {
        return false, "";
      }
      var verdict := Judge(cc, rest);
      match verdict
      case Tool =>
        BlockOpens(cc, fed, log, suppressedBlocks, seen, rest);
        seen := rest;
        suppressing, currentSuppressed := true, ["<"];
        buffer := rest;
        more := true;
      case Undecided =>
        more := false;
      case Plain =>
        AngleAtEnd(cc, fed, log, suppressedBlocks, seen, rest);
        EmitFront(Angle(rest), rest);
        more, out := true, "<";
    }

    /** The front of the buffer leaves it as piece `p`. */
    method EmitFront(ghost p: Piece, rest: string)
      requires Valid() && !suppressing && buffer == p.Text() + rest
      requires p.Emitted() && Justified(cc, fed, |Rendered(log)|, p)
      modifies this`buffer, this`log
      ensures Valid() && buffer == rest && log == old(log) + [p]
      ensures EmittedText(log) == EmittedText(old(log)) + p.Text()
    {
      NothingOpen(cc, fed, log, suppressedBlocks, currentSuppressed, seen, buffer);
      hide Accounts, Justified, EmittedText;
      TextPasses(cc, fed, log, suppressedBlocks, seen, p, rest);
      log := log + [p];
      buffer := rest;
    }

    method Feed(text: string) returns (out: string)
      requires Valid()
      modifies this
      ensures Valid() && Settled() && fed == old(fed) + text
      ensures EmittedText(log) == EmittedText(old(log)) + out && Extends(old(log), log)
      ensures var f := FilterChunk(cc, old(State()), text);
              out == f.out && suppressedBlocks == old(suppressedBlocks) + f.blocks && State() == f.state
    {
      hide Accounts, Judge, EmittedText, Settle, SegmentStep, TextStep, Extends;
      ChunkJoins(cc, fed, log, suppressedBlocks, suppressing, currentSuppressed, seen, buffer, text);
      buffer := buffer + text;
      fed := fed + text;
      out := "";
      ghost var start := State();
      ghost var made: seq<string> := [];
      ExtendsSame(log);
      NothingYet(Settle(cc, start), start);
      while buffer != ""
        invariant Valid() && fed == old(fed) + text && Extends(old(log), log)
        invariant EmittedText(log) == EmittedText(old(log)) + out && suppressedBlocks == old(suppressedBlocks) + made
        invariant Settle(cc, start) == Filtered(out, made, State()).Then(Settle(cc, State()))
        decreases |buffer|
      {
        ghost var before, logged := State(), log;
        ghost var step := StepOf(cc, before);
        SettleNext(cc, start, Filtered(out, made, before));
        ghost var emitted := EmittedText(log);
        var o, more := "", false;
        if suppressing {
          more := ConsumeSegment();
          SegmentLogged(logged, log);
        } else {
          o, more := PassOrOpen();
        }
        Regroup(EmittedText(old(log)), out, o);
        out := out + o;
        RegroupBlocks(old(suppressedBlocks), made, step.0.blocks);
        made := made + step.0.blocks;
        ExtendsTransitive(old(log), logged, log);
        if !more {
          break;
        }
      }
      SettledAtEnd(cc, Filtered(out, made, State()));
    }

    /** End of stream: an open block is kept as it is, held-back text is emitted. */
    method Flush() returns (out: string)
      requires Valid() && Settled()
      modifies this
      ensures Valid() && fed == old(fed)
      ensures fed == Rendered(log) && AllJustified(cc, fed, log) && suppressedBlocks == Blocks(log)
      ensures EmittedText(log) == EmittedText(old(log)) + out
      ensures State() == FRESH
      ensures (out, suppressedBlocks) == Filtered("", old(suppressedBlocks), old(State())).Flush()
      ensures log == old(log) + [if old(suppressing) then CutOff(old(currentSuppressed) + [old(buffer)], old(seen))
                                 else Leftover(old(buffer))]
    {
      hide Accounts, EmittedText, Rendered, Blocks, AllJustified, Undecidable;
      if suppressing {
        BlockCutOff(cc, fed, log, suppressedBlocks, currentSuppressed, seen, buffer);
        currentSuppressed := currentSuppressed + [buffer];
        log := log + [CutOff(currentSuppressed, seen)];
        suppressedBlocks := suppressedBlocks + [Concat(currentSuppressed)];
        seen, currentSuppressed, suppressing, buffer := "", [], false, "";
        out := "";
      } else {
        NothingOpen(cc, fed, log, suppressedBlocks, currentSuppressed, seen, buffer);
        out := buffer;
        assert buffer == out + "" && "" + out == out;
        EmitFront(Leftover(out), "");
      }
      NothingLeft(cc, fed, log, suppressedBlocks, seen);
    }
  }

  lemma ExtendsSame(log: seq<Piece>)
    ensures Extends(log, log)
  {}

  lemma SegmentLogged(before: seq<Piece>, after: seq<Piece>)
    requires |before| <= |after| <= |before| + 1 && after[..|before|] == before
    requires |after| > |before| ==> after[|before|].Suppressed?
    ensures Extends(before, after)
  {}

  lemma NothingYet(f: Filtered, s: FilterState)
    ensures Filtered("", [], s).Then(f) == f
  {}

  /** One more step of the filter, after `done`. */
  lemma SettleNext(cc: CharClass, start: FilterState, done: Filtered)
    requires Settle(cc, start) == done.Then(Settle(cc, done.state)) && done.state.buffer != ""
    ensures var (f, more) := StepOf(cc, done.state);
            && Settle(cc, start) == if more then done.Then(f).Then(Settle(cc, f.state)) else done.Then(f)
  {
    hide StepOf;
    var (f, more) := StepOf(cc, done.state);
    if more { ThenAssociative(done, f, Settle(cc, f.state)); }
  }

  lemma SettledAtEnd(cc: CharClass, done: Filtered)
    ensures done.state.buffer == "" ==> done.Then(Settle(cc, done.state)) == done
  {}

  lemma RegroupBlocks(a: seq<string>, b: seq<string>, c: seq<string>)
    ensures a + b + c == a + (b + c)
  {}

  lemma TextStepAt(cc: CharClass, buffer: string, lt: int)
    requires buffer != "" && lt == Find(buffer, "<")
    ensures lt == -1 ==> TextStep(cc, buffer) == (Filtered(buffer, [], FRESH), false)
    ensures lt >= 0 ==> buffer[lt..] != "" && buffer[|buffer[..lt]|..] == buffer[lt..]
    ensures lt >= 0 ==> (var (angle, more) := AngleStep(cc, buffer[lt..]);
                         TextStep(cc, buffer) == (angle.(out := buffer[..lt] + angle.out), more))
  {}

  lemma EmptyUndecided(cc: CharClass)
    ensures Undecidable(cc, "")
  {}

  lemma Regroup(a: string, b: string, c: string)
    ensures a + b + c == a + (b + c)
  {}

  lemma NothingLeft(cc: CharClass, fed: string, log: seq<Piece>, blocks: seq<string>, seen: string)
    requires Accounts(cc, fed, log, blocks, false, [], seen, "")
    ensures fed == Rendered(log) && AllJustified(cc, fed, log) && blocks == Blocks(log)
  {
    assert Rendered(log) + Concat([]) + "" == Rendered(log);
  }

  lemma SegmentOf(buffer: string, gt: nat)
    requires gt == Find(buffer, ">")
    ensures gt < |buffer| && TagSegment(buffer[..gt + 1])
  {
    var s := buffer[..gt + 1];
    assert OccursAt(s, ">", gt);
    assert OccursAt(buffer, ">", Find(s, ">"));
  }

  lemma FirstAngle(buffer: string, lt: int)
    requires lt == Find(buffer, "<")
    ensures -1 <= lt < |buffer|
    ensures lt == -1 ==> '<' !in buffer
    ensures lt >= 0 ==> buffer[lt] == '<' && '<' !in buffer[..lt]
  {
    forall i | 0 <= i < |buffer| && buffer[i] == '<' ensures 0 <= lt <= i {
      assert OccursAt(buffer, "<", i);
    }
    if lt >= 0 {
      assert buffer[lt + 0] == "<"[0];
    }
  }

  /** The end of the stream decides the last piece of the log and no other. */
  predicate EndsOnce(log: seq<Piece>) {
    log != [] && !log[|log| - 1].Streamed() && forall i :: 0 <= i < |log| - 1 ==> log[i].Streamed()
  }

  lemma FlushedOnce(log: seq<Piece>, p: Piece)
    requires Extends([], log) && !p.Streamed()
    ensures EndsOnce(log + [p])
  {}

  /** A stream of chunks through one filter, then the final flush: emitted text and blocks are those
      of the filter as a function, and nothing is lost. The emitted pieces and the suppressed blocks
      of the log, in order, are the whole input. */
  method FilterStream(cc: CharClass, chunks: seq<string>)
    returns (out: string, blocks: seq<string>, ghost log: seq<Piece>)
    ensures (out, blocks) == FilterAll(cc, FRESH, chunks).Flush()
    ensures Rendered(log) == Concat(chunks)
    ensures out == EmittedText(log) && blocks == Blocks(log)
    ensures AllJustified(cc, Concat(chunks), log) && EndsOnce(log)
    ensures '<' !in Concat(chunks) ==> out == Concat(chunks) && blocks == []
  {
    hide Accounts, AllJustified, EmittedText, Rendered, Blocks, Undecidable, FilterAll, FilterChunk, Extends, EndsOnce;
    var filter := new ToolCallXmlFilter(cc);
    out := "";
    NothingFiltered(cc);
    assert chunks[..0] == [];
    ExtendsSame([]);
    for i := 0 to |chunks|
      invariant filter.Valid() && filter.Settled() && filter.cc == cc && Extends([], filter.log)
      invariant filter.fed + Concat(chunks[i..]) == Concat(chunks)
      invariant out == EmittedText(filter.log)
      invariant Filtered(out, filter.suppressedBlocks, filter.State()) == FilterAll(cc, FRESH, chunks[..i])
    {
      ChunkNext(cc, chunks, i);
      ghost var logged := filter.log;
      var o := filter.Feed(chunks[i]);
      ExtendsTransitive([], logged, filter.log);
      out := out + o;
    }
    assert chunks[..|chunks|] == chunks;
    ghost var streamed := filter.log;
    ghost var open := FilterAll(cc, FRESH, chunks);
    FlushOnTop(open);
    var o := filter.Flush();
    FlushedOnce(streamed, filter.log[|streamed|]);
    out := out + o;
    blocks, log := filter.suppressedBlocks, filter.log;
    assert filter.fed + "" == filter.fed;
    if '<' !in Concat(chunks) {
      NoAngleNoBlock(cc, Concat(chunks), log);
    }
  }

  lemma NothingFiltered(cc: CharClass)
    ensures FilterAll(cc, FRESH, []) == Filtered("", [], FRESH)
  {}

  lemma FlushOnTop(f: Filtered)
    ensures f.Flush() == (f.out + Filtered("", f.blocks, f.state).Flush().0, Filtered("", f.blocks, f.state).Flush().1)
  {
    assert "" + f.state.buffer == f.state.buffer && f.out + "" == f.out;
  }

  lemma ChunkNext(cc: CharClass, chunks: seq<string>, i: nat)
    requires i < |chunks|
    ensures Concat(chunks[i..]) == chunks[i] + Concat(chunks[i + 1..])
    ensures var before := FilterAll(cc, FRESH, chunks[..i]);
            FilterAll(cc, FRESH, chunks[..i + 1]) == before.Then(FilterChunk(cc, before.state, chunks[i]))
  {
    hide FilterChunk;
    assert chunks[i..][1..] == chunks[i + 1..];
    assert chunks[..i + 1] == chunks[..i] + [chunks[i]];
    FilterAllSnoc(cc, FRESH, chunks[..i], chunks[i]);
  }

  /** Every suppressed block starts with a '<' of the input that was judged to open a tool call. */
  lemma {:induction false} BlocksStartWithAngle(cc: CharClass, input: string, log: seq<Piece>)
    requires AllJustified(cc, input, log)
    ensures forall b :: b in Blocks(log) ==> b != "" && b[0] == '<'
  {
    if log != [] {
      var before, last := log[..|log| - 1], log[|log| - 1];
      forall i | 0 <= i < |before| ensures Justified(cc, input, |Rendered(before[..i])|, before[i]) {
        assert before[..i] == log[..i];
      }
      BlocksStartWithAngle(cc, input, before);
      assert Justified(cc, input, |Rendered(log[..|log| - 1])|, last);
      if !last.Emitted() {
        assert last.segments[0] == last.segments[..|last.segments| - 1][0] == "<";
        assert Concat(last.segments) == "<" + Concat(last.segments[1..]);
      }
    }
  }

  /** Without a '<' in the input there is no block and everything is emitted. */
  lemma {:induction false} NoAngleNoBlock(cc: CharClass, input: string, log: seq<Piece>)
    requires '<' !in input && AllJustified(cc, input, log)
    ensures Blocks(log) == [] && EmittedText(log) == Rendered(log)
  {
    hide Judge, EndsSuppression, OpenSegments;
    if log != [] {
      var before, last := log[..|log| - 1], log[|log| - 1];
      forall i | 0 <= i < |before| ensures Justified(cc, input, |Rendered(before[..i])|, before[i]) {
        assert before[..i] == log[..i];
      }
      NoAngleNoBlock(cc, input, before);
      assert Justified(cc, input, |Rendered(log[..|log| - 1])|, last);
    }
  }
}
