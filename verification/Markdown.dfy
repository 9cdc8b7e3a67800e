/** Header-aware markdown chunking with a stack of enclosing headers. */
module Markdown {
  import opened Text

  /** A header found in the body; headers come in the order of their positions. */
  datatype Header = Header(pos: nat, level: nat, title: string)

  datatype Chunk = Chunk(content: string, contextPrefix: string)

  /** `space` is the host language's `str.isspace`. */
  datatype Config = Config(space: char -> bool, sourceLabel: string, maxChunk: int, preserveHierarchy: bool)

  const PARAGRAPH := "\n\n"

  // ---------------------------------------------------------------- whitespace

  function LStrip(cfg: Config, s: string): string {
    if s != "" && cfg.space(s[0]) then LStrip(cfg, s[1..]) else s
  }

  function Strip(cfg: Config, s: string): string { RStrip(cfg.space, LStrip(cfg, s)) }

  /** The characters of `s` that are not whitespace, in order. */
  function Visible(cfg: Config, s: string): string {
    if s == "" then "" else (if cfg.space(s[0]) then "" else [s[0]]) + Visible(cfg, s[1..])
  }

  lemma {:induction false} VisibleConcat(cfg: Config, a: string, b: string)
    ensures Visible(cfg, a + b) == Visible(cfg, a) + Visible(cfg, b)
  {
    if a == "" {
      assert a + b == b;
    } else {
      assert (a + b)[1..] == a[1..] + b;
      VisibleConcat(cfg, a[1..], b);
    }
  }

  lemma {:induction false} LStripVisible(cfg: Config, s: string)
    ensures Visible(cfg, LStrip(cfg, s)) == Visible(cfg, s)
  {
    if s != "" && cfg.space(s[0]) { LStripVisible(cfg, s[1..]); }
  }

  lemma {:induction false} RStripVisible(cfg: Config, s: string)
    ensures Visible(cfg, RStrip(cfg.space, s)) == Visible(cfg, s) && |RStrip(cfg.space, s)| <= |s|
  {
    if s != "" && cfg.space(s[|s| - 1]) {
      RStripVisible(cfg, s[..|s| - 1]);
      assert s == s[..|s| - 1] + [s[|s| - 1]];
      VisibleConcat(cfg, s[..|s| - 1], [s[|s| - 1]]);
    }
  }

  lemma StripVisible(cfg: Config, s: string)
    ensures Visible(cfg, Strip(cfg, s)) == Visible(cfg, s)
  {
    LStripVisible(cfg, s);
    RStripVisible(cfg, LStrip(cfg, s));
  }

  lemma {:induction false} LStripShorter(cfg: Config, s: string)
    ensures |LStrip(cfg, s)| <= |s|
  {
    if s != "" && cfg.space(s[0]) { LStripShorter(cfg, s[1..]); }
  }

  lemma StripShorter(cfg: Config, s: string)
    ensures |Strip(cfg, s)| <= |s|
  {
    LStripShorter(cfg, s);
    RStripVisible(cfg, LStrip(cfg, s));
  }

  // ---------------------------------------------------------------- paragraph packing

  /** The text cut at each blank line. */
  function SplitParagraphs(text: string): seq<string>
    decreases |text|
  {
    var j := Find(text, PARAGRAPH);
    if j < 0 then [text] else [text[..j]] + SplitParagraphs(text[j + 2..])
  }

  /** The chunks still to come when `current` is being filled. */
  function Pack(cfg: Config, paragraphs: seq<string>, current: string): seq<string> {
    if paragraphs == [] then (if Strip(cfg, current) != "" then [Strip(cfg, current)] else [])
    else
      var para := paragraphs[0];
      if current != "" && |current| + |para| + 2 > cfg.maxChunk then
        [Strip(cfg, current)] + Pack(cfg, paragraphs[1..], para)
      else
        Pack(cfg, paragraphs[1..], current + (if current != "" then PARAGRAPH else "") + para)
  }

  function Labelled(contents: seq<string>, prefix: string): seq<Chunk> {
    seq(|contents|, i requires 0 <= i < |contents| => Chunk(contents[i], prefix))
  }

  function Oversized(cfg: Config, text: string): seq<string> {
    if |text| <= cfg.maxChunk then [text] else Pack(cfg, SplitParagraphs(text), "")
  }

  lemma PackNext(cfg: Config, paragraphs: seq<string>, current: string)
    requires paragraphs != []
    ensures var para, rest := paragraphs[0], paragraphs[1..];
            Pack(cfg, paragraphs, current) ==
              if current != "" && |current| + 2 + |para| > cfg.maxChunk
              then [Strip(cfg, current)] + Pack(cfg, rest, para)
              else Pack(cfg, rest, current + (if current != "" then "\n\n" else "") + para)
  {
    hide Strip;
  }

  lemma PackEnds(cfg: Config, current: string)
    ensures Pack(cfg, [], current) == if Strip(cfg, current) != "" then [Strip(cfg, current)] else []
  {
    hide Strip;
  }

  lemma LabelledSnoc(contents: seq<string>, c: string, prefix: string)
    ensures Labelled(contents + [c], prefix) == Labelled(contents, prefix) + [Chunk(c, prefix)]
  {}

  lemma LabelledNone(prefix: string)
    ensures Labelled([], prefix) == []
  {}

  lemma LabelledOne(text: string, prefix: string)
    ensures Labelled([text], prefix) == [Chunk(text, prefix)]
  {}

  lemma Regroup(a: seq<string>, b: seq<string>, c: seq<string>)
    ensures a + (b + c) == a + b + c
  {}

  method SplitOversized(cfg: Config, text: string, prefix: string) returns (chunks: seq<Chunk>)
    ensures chunks == Labelled(Oversized(cfg, text), prefix)
  {
    hide SplitParagraphs, Strip, Pack, Labelled;
    if |text| <= cfg.maxChunk {
      LabelledOne(text, prefix);
      return [Chunk(text, prefix)];
    }
    var paragraphs := SplitParagraphs(text);
    chunks := [];
    var current := "";
    ghost var contents: seq<string> := [];
    LabelledNone(prefix);
    assert paragraphs[0..] == paragraphs && [] + Pack(cfg, paragraphs, "") == Pack(cfg, paragraphs, "");
    for i := 0 to |paragraphs|
      invariant chunks == Labelled(contents, prefix)
      invariant contents + Pack(cfg, paragraphs[i..], current) == Pack(cfg, paragraphs, "")
    {
      var para := paragraphs[i];
      assert paragraphs[i..][1..] == paragraphs[i + 1..];
      PackNext(cfg, paragraphs[i..], current);
      if current != "" && |current| + |para| + 2 > cfg.maxChunk {
        LabelledSnoc(contents, Strip(cfg, current), prefix);
        Regroup(contents, [Strip(cfg, current)], Pack(cfg, paragraphs[i + 1..], para));
        chunks := chunks + [Chunk(Strip(cfg, current), prefix)];
        contents := contents + [Strip(cfg, current)];
        current := para;
      } else {
        current := current + (if current != "" then PARAGRAPH else "") + para;
      }
    }
    PackEnds(cfg, current);
    assert paragraphs[|paragraphs|..] == [];
    LabelledSnoc(contents, Strip(cfg, current), prefix);
    assert contents + [] == contents;
    if Strip(cfg, current) != "" {
      chunks := chunks + [Chunk(Strip(cfg, current), prefix)];
      contents := contents + [Strip(cfg, current)];
    }
  }

  function VisibleAll(cfg: Config, texts: seq<string>): string {
    if texts == [] then "" else Visible(cfg, texts[0]) + VisibleAll(cfg, texts[1..])
  }

  lemma {:induction false} VisibleAllConcat(cfg: Config, a: seq<string>, b: seq<string>)
    ensures VisibleAll(cfg, a + b) == VisibleAll(cfg, a) + VisibleAll(cfg, b)
  {
    if a == [] {
      assert a + b == b;
    } else {
      assert (a + b)[1..] == a[1..] + b;
      VisibleAllConcat(cfg, a[1..], b);
    }
  }

  lemma {:induction false} SplitKeepsVisible(cfg: Config, text: string)
    requires cfg.space('\n')
    ensures VisibleAll(cfg, SplitParagraphs(text)) == Visible(cfg, text)
    decreases |text|
  {
    var j := Find(text, PARAGRAPH);
    if j < 0 {
      assert VisibleAll(cfg, [text]) == Visible(cfg, text) + VisibleAll(cfg, []);
    } else {
      var a, c := text[..j], text[j + 2..];
      assert OccursAt(text, PARAGRAPH, j);
      assert text[j + 0] == PARAGRAPH[0] && text[j + 1] == PARAGRAPH[1];
      assert text == a + (PARAGRAPH + c);
      VisibleConcat(cfg, a, PARAGRAPH + c);
      BlankLineVisible(cfg, c);
      SplitKeepsVisible(cfg, c);
    }
  }

  lemma BlankLineVisible(cfg: Config, c: string)
    requires cfg.space('\n')
    ensures Visible(cfg, PARAGRAPH + c) == Visible(cfg, c)
  {
    assert (PARAGRAPH + c)[1..] == ['\n'] + c;
    assert (['\n'] + c)[1..] == c;
  }

  lemma {:induction false} PackKeepsVisible(cfg: Config, paragraphs: seq<string>, current: string)
    requires cfg.space('\n')
    ensures VisibleAll(cfg, Pack(cfg, paragraphs, current)) == Visible(cfg, current) + VisibleAll(cfg, paragraphs)
    decreases |paragraphs|
  {
    hide Strip;
    StripVisible(cfg, current);
    if paragraphs == [] {
      NothingVisible(cfg);
    } else {
      var para := paragraphs[0];
      if current != "" && |current| + |para| + 2 > cfg.maxChunk {
        PackKeepsVisible(cfg, paragraphs[1..], para);
      } else {
        var gap := if current != "" then PARAGRAPH else "";
        PackKeepsVisible(cfg, paragraphs[1..], current + gap + para);
        GapVisible(cfg);
        VisibleConcat(cfg, current + gap, para);
        VisibleConcat(cfg, current, gap);
      }
    }
  }

  lemma GapVisible(cfg: Config)
    requires cfg.space('\n')
    ensures Visible(cfg, PARAGRAPH) == Visible(cfg, "") == ""
  {
    BlankLineVisible(cfg, "");
    assert PARAGRAPH + "" == PARAGRAPH;
  }

  lemma NothingVisible(cfg: Config)
    ensures VisibleAll(cfg, []) == "" && Visible(cfg, "") == ""
  {}

  /** No visible character is lost, added or moved when an oversized text is split. */
  lemma SplitOversizedKeepsVisible(cfg: Config, text: string)
    requires cfg.space('\n')
    ensures VisibleAll(cfg, Oversized(cfg, text)) == Visible(cfg, text)
  {
    NothingVisible(cfg);
    if |text| <= cfg.maxChunk {
      assert VisibleAll(cfg, [text]) == Visible(cfg, text) + VisibleAll(cfg, []);
    } else {
      PackKeepsVisible(cfg, SplitParagraphs(text), "");
      SplitKeepsVisible(cfg, text);
    }
  }

  /** A chunk is longer than allowed only if it is a single paragraph. */
  predicate FitsOrSingle(cfg: Config, paragraphs: seq<string>, c: string) {
    |c| <= cfg.maxChunk || exists p :: p in paragraphs && c == Strip(cfg, p)
  }

  lemma {:induction false} PackFits(cfg: Config, all: seq<string>, paragraphs: seq<string>, current: string)
    requires forall p :: p in paragraphs ==> p in all
    requires current == "" || |current| <= cfg.maxChunk || current in all
    ensures forall c :: c in Pack(cfg, paragraphs, current) ==> FitsOrSingle(cfg, all, c)
    decreases |paragraphs|
  {
    hide Strip;
    StripShorter(cfg, current);
    assert current != "" ==> FitsOrSingle(cfg, all, Strip(cfg, current));
    if paragraphs != [] {
      var para := paragraphs[0];
      assert para in paragraphs;
      if current != "" && |current| + |para| + 2 > cfg.maxChunk {
        PackFits(cfg, all, paragraphs[1..], para);
      } else {
        var next := current + (if current != "" then PARAGRAPH else "") + para;
        if current == "" { assert next == para; }
        PackFits(cfg, all, paragraphs[1..], next);
      }
    } else if current == "" {
      assert Strip(cfg, "") == "";
    }
  }

  /** Splitting an oversized text leaves no chunk over the limit but single long paragraphs. */
  lemma OversizedFits(cfg: Config, text: string)
    ensures forall c :: c in Oversized(cfg, text) ==> FitsOrSingle(cfg, SplitParagraphs(text), c)
  {
    if |text| > cfg.maxChunk { PackFits(cfg, SplitParagraphs(text), SplitParagraphs(text), ""); }
  }

  // ---------------------------------------------------------------- the header stack

  /** The headers that still enclose the end of `headers`: every later one is strictly deeper. */
  function OpenHeaders(headers: seq<Header>): seq<Header> {
    if headers == [] then []
    else
      (if Encloses(headers) then [headers[0]] else []) + OpenHeaders(headers[1..])
  }

  /** The stack once its deeper and equal headers have been taken off the top. */
  function PopTo(stack: seq<Header>, level: nat): seq<Header> {
    if stack != [] && stack[|stack| - 1].level >= level then PopTo(stack[..|stack| - 1], level) else stack
  }

  lemma {:induction false} PopKeepsBottom(x: Header, stack: seq<Header>, level: nat)
    requires x.level < level
    ensures PopTo([x] + stack, level) == [x] + PopTo(stack, level)
    decreases |stack|
  {
    var whole := [x] + stack;
    if stack == [] {
      assert whole == [x];
    } else if stack[|stack| - 1].level >= level {
      assert whole[..|whole| - 1] == [x] + stack[..|stack| - 1];
      PopKeepsBottom(x, stack[..|stack| - 1], level);
    }
  }

  lemma {:induction false} PopAll(stack: seq<Header>, level: nat)
    requires forall h :: h in stack ==> h.level >= level
    ensures PopTo(stack, level) == []
  {
    if stack != [] {
      assert stack[|stack| - 1] in stack;
      PopAll(stack[..|stack| - 1], level);
    }
  }

  lemma {:induction false} OpenAreHeaders(headers: seq<Header>)
    ensures forall h :: h in OpenHeaders(headers) ==> h in headers
  {
    if headers != [] { OpenAreHeaders(headers[1..]); }
  }

  /** All later headers are strictly deeper than the first. */
  predicate Encloses(headers: seq<Header>)
    requires headers != []
  {
    forall k :: 0 < k < |headers| ==> headers[k].level > headers[0].level
  }

  lemma EnclosesSnoc(headers: seq<Header>, h: Header)
    requires headers != []
    ensures Encloses(headers + [h]) <==> Encloses(headers) && h.level > headers[0].level
  {
    var grown := headers + [h];
    assert grown[|headers|] == h;
    assert forall k :: 0 <= k < |headers| ==> grown[k] == headers[k];
  }

  /** Popping to a header's level and pushing it keeps exactly the enclosing headers. */
  lemma {:induction false} PushKeepsOpen(headers: seq<Header>, h: Header)
    ensures OpenHeaders(headers + [h]) == PopTo(OpenHeaders(headers), h.level) + [h]
    decreases |headers|
  {
    if headers == [] {
      assert [h][1..] == [];
      assert headers + [h] == [h];
    } else {
      var x, t := headers[0], headers[1..];
      var grown := headers + [h];
      assert grown[1..] == t + [h];
      assert headers == [x] + t;
      PushKeepsOpen(t, h);
      EnclosesSnoc(headers, h);
      var popped := PopTo(OpenHeaders(t), h.level);
      assert OpenHeaders(grown) == (if Encloses(grown) then [x] else []) + (popped + [h]);
      if Encloses(headers) {
        PopUnder(x, t, h.level);
        assert OpenHeaders(headers) == [x] + OpenHeaders(t);
      } else {
        assert OpenHeaders(headers) == OpenHeaders(t);
      }
    }
  }

  /** Below an enclosing header `x`, a shallower or equal level pops everything, `x` included. */
  lemma PopUnder(x: Header, t: seq<Header>, level: nat)
    requires Encloses([x] + t)
    ensures PopTo([x] + OpenHeaders(t), level) == (if level > x.level then [x] else []) + PopTo(OpenHeaders(t), level)
  {
    OpenAreHeaders(t);
    forall y | y in t ensures y.level > x.level {
      var k :| 0 <= k < |t| && t[k] == y;
      assert ([x] + t)[k + 1] == y;
    }
    if level > x.level {
      PopKeepsBottom(x, OpenHeaders(t), level);
    } else {
      PopAll(OpenHeaders(t), level);
      PopAll([x] + OpenHeaders(t), level);
    }
  }

  /** On the stack, levels strictly increase; its top is the last header. */
  lemma {:induction false} OpenLevelsIncrease(headers: seq<Header>)
    ensures var s := OpenHeaders(headers);
            && (forall i, j :: 0 <= i < j < |s| ==> s[i].level < s[j].level)
            && (headers != [] ==> s != [] && s[|s| - 1] == headers[|headers| - 1])
  {
    if headers != [] {
      var t := headers[1..];
      OpenLevelsIncrease(t);
      OpenAreHeaders(t);
      var s, st := OpenHeaders(headers), OpenHeaders(t);
      if |s| > |st| {
        assert forall j :: 0 <= j < |st| ==> st[j] in t;
      }
      if t == [] { assert s == [headers[0]]; } else { assert t[|t| - 1] == headers[|headers| - 1]; }
    }
  }

  // ---------------------------------------------------------------- the whole body

  function Hashes(n: nat): string { seq(n, _ => '#') }

  function Line(h: Header): string { Hashes(h.level) + " " + h.title }

  function HeaderPath(stack: seq<Header>): string {
    if stack == [] then "" else if |stack| == 1 then Line(stack[0])
    else HeaderPath(stack[..|stack| - 1]) + " > " + Line(stack[|stack| - 1])
  }

  /** The prefix of the section under the last of `headers`. */
  function Prefix(cfg: Config, headers: seq<Header>): string
    requires headers != []
  {
    var path := if cfg.preserveHierarchy then HeaderPath(OpenHeaders(headers)) else Line(headers[|headers| - 1]);
    if cfg.sourceLabel != "" then cfg.sourceLabel + "\n" + path else path
  }

  /** The last header that is shallower than the given level, or -1. */
  function ParentOf(headers: seq<Header>, level: nat): (p: int)
    ensures -1 <= p < |headers| && (p >= 0 ==> headers[p].level < level)
    ensures forall k :: p < k < |headers| ==> headers[k].level >= level
  {
    if headers == [] then -1
    else if headers[|headers| - 1].level < level then |headers| - 1
    else ParentOf(headers[..|headers| - 1], level)
  }

  lemma {:induction false} PopTwice(stack: seq<Header>, first: nat, second: nat)
    requires first >= second
    ensures PopTo(PopTo(stack, first), second) == PopTo(stack, second)
  {
    if stack != [] && stack[|stack| - 1].level >= first { PopTwice(stack[..|stack| - 1], first, second); }
  }

  /** A further header is popped with what is under it, or stops the popping. */
  lemma PopPushed(stack: seq<Header>, h: Header, level: nat)
    ensures PopTo(PopTo(stack, h.level) + [h], level)
         == if h.level < level then PopTo(stack, h.level) + [h] else PopTo(stack, level)
  {
    var popped := PopTo(stack, h.level);
    assert (popped + [h])[..|popped|] == popped;
    if h.level >= level { PopTwice(stack, h.level, level); }
  }

  /** Popping to a level leaves the stack as it was at the parent header. */
  lemma {:induction false} PoppedIsParentStack(headers: seq<Header>, level: nat)
    ensures PopTo(OpenHeaders(headers), level) == OpenHeaders(headers[..ParentOf(headers, level) + 1])
  {
    if headers != [] {
      hide PopTo, OpenHeaders, ParentOf;
      var before, last := headers[..|headers| - 1], headers[|headers| - 1];
      PushKeepsOpen(before, last);
      PopPushed(OpenHeaders(before), last, level);
      ParentStep(headers, level);
      if last.level >= level { PoppedIsParentStack(before, level); }
    } else {
      assert headers[..0] == [];
    }
  }

  /** The headers up to the parent, with one more header at the end. */
  lemma ParentStep(headers: seq<Header>, level: nat)
    requires headers != []
    ensures var before, last := headers[..|headers| - 1], headers[|headers| - 1];
            && headers == before + [last]
            && -1 <= ParentOf(before, level) < |before| && -1 <= ParentOf(headers, level) < |headers|
            && headers[..ParentOf(headers, level) + 1]
               == if last.level < level then headers else before[..ParentOf(before, level) + 1]
  {
    var before := headers[..|headers| - 1];
    assert headers[..|headers|] == headers;
    assert headers[..ParentOf(before, level) + 1] == before[..ParentOf(before, level) + 1];
  }

  /** The prefix of a section is that of its parent, the last shallower header before it, extended by
      the section's own header; without a parent it starts with that header. */
  lemma PrefixExtendsParent(cfg: Config, headers: seq<Header>, i: nat)
    requires cfg.preserveHierarchy && i < |headers|
    ensures var p := ParentOf(headers[..i], headers[i].level);
            Prefix(cfg, headers[..i + 1])
            == if p == -1 then (if cfg.sourceLabel != "" then cfg.sourceLabel + "\n" else "") + Line(headers[i])
               else Prefix(cfg, headers[..p + 1]) + " > " + Line(headers[i])
  {
    hide OpenHeaders, PopTo, HeaderPath, Line, ParentOf;
    var before, h := headers[..i], headers[i];
    ParentRange(before, h.level);
    var p := ParentOf(before, h.level);
    assert headers[..i + 1] == before + [h] && before[..p + 1] == headers[..p + 1];
    PushKeepsOpen(before, h);
    PoppedIsParentStack(before, h.level);
    PathGrows(OpenHeaders(headers[..p + 1]), h);
    if p == -1 {
      NoneOpen();
      assert headers[..p + 1] == [];
      assert cfg.sourceLabel + "\n" + Line(h) == (cfg.sourceLabel + "\n") + Line(h) && "" + Line(h) == Line(h);
    } else {
      LastIsOpen(headers[..p + 1]);
      LabelJoins(cfg.sourceLabel + "\n", HeaderPath(OpenHeaders(headers[..p + 1])), " > ", Line(h));
    }
  }

  lemma ParentRange(headers: seq<Header>, level: nat)
    ensures -1 <= ParentOf(headers, level) < |headers|
  {}

  lemma LastIsOpen(headers: seq<Header>)
    requires headers != []
    ensures OpenHeaders(headers) != []
  {
    OpenLevelsIncrease(headers);
  }

  lemma LabelJoins(intro: string, path: string, arrow: string, line: string)
    ensures intro + (path + arrow + line) == intro + path + arrow + line
  {}

  lemma PathGrows(stack: seq<Header>, h: Header)
    ensures HeaderPath(stack + [h]) == if stack == [] then Line(h) else HeaderPath(stack) + " > " + Line(h)
  {
    assert (stack + [h])[..|stack|] == stack;
  }

  predicate InOrder(headers: seq<Header>, body: string) {
    && (forall i :: 0 <= i < |headers| ==> headers[i].pos < |body|)
    && (forall i, j :: 0 <= i < j < |headers| ==> headers[i].pos < headers[j].pos)
  }

  function SectionEnd(headers: seq<Header>, body: string, i: nat): nat
    requires i < |headers|
  {
    if i + 1 < |headers| then headers[i + 1].pos else |body|
  }

  /** Where a section would end at the next header of the same or a shallower level. */
  function NextShallow(headers: seq<Header>, body: string, from: nat, level: nat): nat
    decreases |headers| - from
  {
    if from >= |headers| then |body|
    else if headers[from].level <= level then headers[from].pos
    else NextShallow(headers, body, from + 1, level)
  }

  lemma {:induction false} NextShallowLater(headers: seq<Header>, body: string, from: nat, level: nat)
    requires InOrder(headers, body) && 0 < from <= |headers|
    ensures NextShallow(headers, body, from, level) > headers[from - 1].pos
    decreases |headers| - from
  {
    if from < |headers| && headers[from].level > level { NextShallowLater(headers, body, from + 1, level); }
  }

  /** A section ends at the next header of the same or a shallower level exactly when no deeper one
      follows it directly. */
  lemma SectionEndsByLevel(headers: seq<Header>, body: string, i: nat)
    requires InOrder(headers, body) && i < |headers|
    ensures SectionEnd(headers, body, i) == NextShallow(headers, body, i + 1, headers[i].level)
            <==> i + 1 == |headers| || headers[i + 1].level <= headers[i].level
  {
    if i + 1 < |headers| && headers[i + 1].level > headers[i].level {
      NextShallowLater(headers, body, i + 2, headers[i].level);
    }
  }

  /** The section of a header with a subsection stops short of it. */
  lemma SubsectionCutOff()
    ensures var body, headers := "# A\n## B", [Header(0, 1, "A"), Header(4, 2, "B")];
            InOrder(headers, body) && SectionEnd(headers, body, 0) == 4
              && NextShallow(headers, body, 1, 1) == |body| == 8
  {
    var body, headers := "# A\n## B", [Header(0, 1, "A"), Header(4, 2, "B")];
    assert NextShallow(headers, body, 2, 1) == |body|;
  }

  /** From a header to the next one. */
  function Section(headers: seq<Header>, body: string, i: nat): string
    requires InOrder(headers, body) && i < |headers|
  {
    body[headers[i].pos..SectionEnd(headers, body, i)]
  }

  function SectionChunks(cfg: Config, text: string, prefix: string): seq<Chunk> {
    if Strip(cfg, text) == "" then [] else Labelled(Oversized(cfg, Strip(cfg, text)), prefix)
  }

  /** The chunks of the sections from the `i`-th header on. */
  function ChunksFrom(cfg: Config, headers: seq<Header>, body: string, i: nat): seq<Chunk>
    requires InOrder(headers, body) && i <= |headers|
    decreases |headers| - i
  {
    if i == |headers| then []
    else SectionChunks(cfg, Section(headers, body, i), Prefix(cfg, headers[..i + 1]))
         + ChunksFrom(cfg, headers, body, i + 1)
  }

  function Markdown(cfg: Config, headers: seq<Header>, body: string): seq<Chunk>
    requires InOrder(headers, body)
  {
    if Strip(cfg, body) == "" then []
    else if headers == [] then Labelled(Oversized(cfg, Strip(cfg, body)), "")
    else SectionChunks(cfg, body[..headers[0].pos], "") + ChunksFrom(cfg, headers, body, 0)
  }

  /** One stretch of the body under its prefix: nothing when it is blank. */
  method ChunkSection(cfg: Config, text: string, prefix: string) returns (chunks: seq<Chunk>)
    ensures chunks == SectionChunks(cfg, text, prefix)
  {
    hide Strip, Oversized, Labelled;
    var sectionText := Strip(cfg, text);
    if sectionText == "" {
      return [];
    }
    chunks := SplitOversized(cfg, sectionText, prefix);
  }

  method ChunkMarkdown(cfg: Config, headers: seq<Header>, body: string) returns (chunks: seq<Chunk>)
    requires InOrder(headers, body)
    ensures chunks == Markdown(cfg, headers, body)
  {
    hide Strip, Oversized, Prefix, OpenHeaders, PopTo, Labelled, SectionChunks, ChunksFrom;
    if Strip(cfg, body) == "" {
      return [];
    }
    if headers == [] {
      chunks := SplitOversized(cfg, Strip(cfg, body), "");
      return;
    }
    chunks := ChunkSection(cfg, body[..headers[0].pos], "");
    var stack: seq<Header> := [];
    ghost var whole := chunks + ChunksFrom(cfg, headers, body, 0);
    NoneOpen();
    assert headers[..0] == [];
    for idx := 0 to |headers|
      invariant stack == OpenHeaders(headers[..idx])
      invariant whole == chunks + ChunksFrom(cfg, headers, body, idx)
    {
      var h := headers[idx];
      stack := PushHeader(stack, h);
      NextHeader(headers, idx);
      var prefix := MakePrefix(cfg, stack, h, headers[..idx + 1]);
      var sectionEnd := if idx + 1 < |headers| then headers[idx + 1].pos else |body|;
      var section := ChunkSection(cfg, body[h.pos..sectionEnd], prefix);
      SectionNext(cfg, headers, body, idx, chunks);
      chunks := chunks + section;
    }
    NoneLeft(cfg, headers, body);
  }

  lemma NextHeader(headers: seq<Header>, idx: nat)
    requires idx < |headers|
    ensures OpenHeaders(headers[..idx + 1]) == PopTo(OpenHeaders(headers[..idx]), headers[idx].level) + [headers[idx]]
    ensures headers[..idx + 1] != [] && headers[..idx + 1][|headers[..idx + 1]| - 1] == headers[idx]
  {
    assert headers[..idx + 1] == headers[..idx] + [headers[idx]];
    PushKeepsOpen(headers[..idx], headers[idx]);
  }

  /** The chunks of one section, put between what is there and what is to come. */
  lemma SectionNext(cfg: Config, headers: seq<Header>, body: string, idx: nat, chunks: seq<Chunk>)
    requires InOrder(headers, body) && idx < |headers|
    ensures chunks + ChunksFrom(cfg, headers, body, idx)
         == chunks + SectionChunks(cfg, Section(headers, body, idx), Prefix(cfg, headers[..idx + 1]))
            + ChunksFrom(cfg, headers, body, idx + 1)
  {
    hide SectionChunks, Section, Prefix;
    var section := SectionChunks(cfg, Section(headers, body, idx), Prefix(cfg, headers[..idx + 1]));
    assert chunks + (section + ChunksFrom(cfg, headers, body, idx + 1))
        == chunks + section + ChunksFrom(cfg, headers, body, idx + 1);
  }

  lemma NoneLeft(cfg: Config, headers: seq<Header>, body: string)
    requires InOrder(headers, body)
    ensures ChunksFrom(cfg, headers, body, |headers|) == []
  {}

  lemma NoneOpen()
    ensures OpenHeaders([]) == []
  {}

  method PushHeader(stack: seq<Header>, h: Header) returns (pushed: seq<Header>)
    ensures pushed == PopTo(stack, h.level) + [h]
  {
    pushed := stack;
    while pushed != [] && pushed[|pushed| - 1].level >= h.level
      invariant PopTo(pushed, h.level) == PopTo(stack, h.level)
      decreases |pushed|
    {
      pushed := pushed[..|pushed| - 1];
    }
    pushed := pushed + [h];
  }

  method MakePrefix(cfg: Config, stack: seq<Header>, h: Header, ghost headers: seq<Header>) returns (prefix: string)
    requires headers != [] && headers[|headers| - 1] == h && stack == OpenHeaders(headers)
    ensures prefix == Prefix(cfg, headers)
  {
    var headerPath := if cfg.preserveHierarchy then HeaderPath(stack) else Line(h);
    prefix := if cfg.sourceLabel != "" then cfg.sourceLabel + "\n" + headerPath else headerPath;
  }

  // ---------------------------------------------------------------- nothing visible is lost

  function SectionsFrom(headers: seq<Header>, body: string, i: nat): seq<string>
    requires InOrder(headers, body) && i <= |headers|
  {
    seq(|headers| - i, k requires 0 <= k < |headers| - i => Section(headers, body, i + k))
  }

  /** The sections from the `i`-th header on are the rest of the body. */
  lemma {:induction false} SectionsPartition(headers: seq<Header>, body: string, i: nat)
    requires InOrder(headers, body) && i < |headers|
    ensures Concat(SectionsFrom(headers, body, i)) == body[headers[i].pos..]
    decreases |headers| - i
  {
    var all := SectionsFrom(headers, body, i);
    if i + 1 < |headers| {
      var rest := SectionsFrom(headers, body, i + 1);
      assert all[1..] == rest;
      SectionsPartition(headers, body, i + 1);
      assert body[headers[i].pos..] == Section(headers, body, i) + body[headers[i + 1].pos..];
    } else {
      assert all[1..] == [];
      assert Section(headers, body, i) + "" == body[headers[i].pos..];
    }
  }

  function Contents(chunks: seq<Chunk>): seq<string> {
    seq(|chunks|, i requires 0 <= i < |chunks| => chunks[i].content)
  }

  lemma ContentsConcat(a: seq<Chunk>, b: seq<Chunk>)
    ensures Contents(a + b) == Contents(a) + Contents(b)
  {}

  lemma SectionKeepsVisible(cfg: Config, text: string, prefix: string)
    requires cfg.space('\n')
    ensures VisibleAll(cfg, Contents(SectionChunks(cfg, text, prefix))) == Visible(cfg, text)
  {
    hide Strip, Oversized;
    StripVisible(cfg, text);
    NothingVisible(cfg);
    var s := Strip(cfg, text);
    SplitOversizedKeepsVisible(cfg, s);
    if s == "" {
      assert Contents([]) == [];
    } else {
      assert Contents(Labelled(Oversized(cfg, s), prefix)) == Oversized(cfg, s);
    }
  }

  lemma {:induction false} ChunksKeepVisible(cfg: Config, headers: seq<Header>, body: string, i: nat)
    requires cfg.space('\n') && InOrder(headers, body) && i < |headers|
    ensures VisibleAll(cfg, Contents(ChunksFrom(cfg, headers, body, i))) == Visible(cfg, body[headers[i].pos..])
    decreases |headers| - i
  {
    hide SectionChunks, Prefix;
    var section := Section(headers, body, i);
    var first := SectionChunks(cfg, section, Prefix(cfg, headers[..i + 1]));
    SectionKeepsVisible(cfg, section, Prefix(cfg, headers[..i + 1]));
    var rest := ChunksFrom(cfg, headers, body, i + 1);
    assert Contents(first + rest) == Contents(first) + Contents(rest);
    VisibleAllConcat(cfg, Contents(first), Contents(rest));
    if i + 1 < |headers| {
      ChunksKeepVisible(cfg, headers, body, i + 1);
      assert body[headers[i].pos..] == section + body[headers[i + 1].pos..];
      VisibleConcat(cfg, section, body[headers[i + 1].pos..]);
    } else {
      assert rest == [] && Contents(rest) == [];
      NothingVisible(cfg);
      assert section == body[headers[i].pos..];
    }
  }

  /** Every visible character of the body appears in the chunks, once and in order. */
  lemma MarkdownKeepsVisible(cfg: Config, headers: seq<Header>, body: string)
    requires cfg.space('\n') && InOrder(headers, body)
    ensures VisibleAll(cfg, Contents(Markdown(cfg, headers, body))) == Visible(cfg, body)
  {
    hide Strip, SectionChunks, Oversized;
    StripVisible(cfg, body);
    NothingVisible(cfg);
    if Strip(cfg, body) == "" {
      assert Contents([]) == [];
    } else if headers == [] {
      var s := Strip(cfg, body);
      SplitOversizedKeepsVisible(cfg, s);
      assert Contents(Labelled(Oversized(cfg, s), "")) == Oversized(cfg, s);
    } else {
      HeadersKeepVisible(cfg, headers, body);
    }
  }

  lemma HeadersKeepVisible(cfg: Config, headers: seq<Header>, body: string)
    requires cfg.space('\n') && InOrder(headers, body) && headers != []
    ensures var all := SectionChunks(cfg, body[..headers[0].pos], "") + ChunksFrom(cfg, headers, body, 0);
            VisibleAll(cfg, Contents(all)) == Visible(cfg, body)
  {
    hide SectionChunks, ChunksFrom, Contents, VisibleAll, Visible, Section;
    var pre, post := body[..headers[0].pos], body[headers[0].pos..];
    var first, rest := SectionChunks(cfg, pre, ""), ChunksFrom(cfg, headers, body, 0);
    SectionKeepsVisible(cfg, pre, "");
    ChunksKeepVisible(cfg, headers, body, 0);
    ContentsConcat(first, rest);
    VisibleAllConcat(cfg, Contents(first), Contents(rest));
    assert body == pre + post;
    VisibleConcat(cfg, pre, post);
  }
}
