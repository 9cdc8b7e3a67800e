/** The whole text that the tool-call filter keeps off, for every text without a namespaced tool call and
    every way of cutting it into chunks. */
module ToolCallSkim {
  import opened Text
  import opened ToolCallXml
  import opened ToolCallTags

  /** The text outside the blocks and the blocks: a block starts at the leftmost '<' that one of the four
      names follows, and reaches to the first tag that closes it or to the end. */
  ghost function Skim(cc: CharClass, text: string): (string, seq<string>)
    decreases |text|, 0
  {
    if text == "" then ("", [])
    else if text[0] == '<' && !Unnamed(text[1..]) then SkimBlock(cc, "<", text[1..])
    else
      var rest := Skim(cc, text[1..]);
      ([text[0]] + rest.0, rest.1)
  }

  /** The rest of a block of which `done` was read. */
  ghost function SkimBlock(cc: CharClass, done: string, v: string): (string, seq<string>)
    decreases |v|, 1
  {
    if StaysOpen(cc, v) then ("", [done + v])
    else
      var p := FirstClose(cc, v);
      var rest := Skim(cc, v[p + 1..]);
      (rest.0, [done + v[..p + 1]] + rest.1)
  }

  ghost function FirstClose(cc: CharClass, v: string): (p: nat)
    requires !StaysOpen(cc, v)
    ensures p < |v| && ClosesAt(cc, v, p) && forall k :: 0 <= k < p ==> !ClosesAt(cc, v, k)
  {
    if ClosesAt(cc, v, 0) then 0 else CloseFrom(cc, v, 0)
  }

  ghost function CloseFrom(cc: CharClass, v: string, i: nat): (p: nat)
    requires i < |v| && !StaysOpen(cc, v) && forall k :: 0 <= k <= i ==> !ClosesAt(cc, v, k)
    ensures p < |v| && ClosesAt(cc, v, p) && forall k :: 0 <= k < p ==> !ClosesAt(cc, v, k)
    decreases |v| - i
  {
    if i + 1 < |v| && ClosesAt(cc, v, i + 1) then i + 1 else CloseFrom(cc, v, i + 1)
  }

  /** What is still to come when the filter is in state `s`. */
  ghost function SkimFrom(cc: CharClass, s: FilterState): (string, seq<string>) {
    if s.suppressing then SkimBlock(cc, Concat(s.current), s.buffer) else Skim(cc, s.buffer)
  }

  function Both(a: (string, seq<string>), b: (string, seq<string>)): (string, seq<string>) { (a.0 + b.0, a.1 + b.1) }

  lemma CloseIsFirst(cc: CharClass, v: string, p: nat)
    requires p < |v| && ClosesAt(cc, v, p) && forall k :: 0 <= k < p ==> !ClosesAt(cc, v, k)
    ensures !StaysOpen(cc, v) && FirstClose(cc, v) == p
  {
    hide ClosesAt;
  }

  /** A tag that closes nothing moves to what was read. */
  lemma SkimMoves(cc: CharClass, done: string, v: string, gt: nat)
    requires Sane(cc) && gt < |v| && v[gt] == '>' && forall k :: 0 <= k <= gt ==> !ClosesAt(cc, v, k)
    ensures SkimBlock(cc, done, v) == SkimBlock(cc, done + v[..gt + 1], v[gt + 1..])
  {
    hide ClosesAt, Sane, Skim;
    var rest := v[gt + 1..];
    if StaysOpen(cc, v) {
      OpenBehind(cc, v, rest, gt, "");
      assert done + v[..gt + 1] + rest == done + v;
    } else {
      var p := FirstClose(cc, v);
      ClosesBehind(cc, v, rest, gt, p);
      CloseIsFirst(cc, rest, p - gt - 1);
      assert done + v[..gt + 1] + rest[..p - gt] == done + v[..p + 1];
      assert rest[p - gt..] == v[p + 1..];
    }
  }

  /** Text in front of the first '<' stays outside. */
  lemma {:induction false} SkimText(cc: CharClass, x: string, y: string)
    requires '<' !in x
    ensures Skim(cc, x + y) == Both((x, []), Skim(cc, y))
  {
    hide SkimBlock, Unnamed;
    if x == "" {
      assert x + y == y;
      assert "" + Skim(cc, y).0 == Skim(cc, y).0 && [] + Skim(cc, y).1 == Skim(cc, y).1;
    } else {
      assert (x + y)[1..] == x[1..] + y;
      SkimText(cc, x[1..], y);
      assert [x[0]] + (x[1..] + Skim(cc, y).0) == x + Skim(cc, y).0;
    }
  }

  /** No opening tag of a tool call stands in the text. */
  ghost predicate Blockless(text: string) {
    && !Holds(text, "<invoke") && !Holds(text, "<tool_call")
    && !Holds(text, "</invoke") && !Holds(text, "</tool_call")
  }

  /** The text ends as a namespaced tool call might begin. */
  predicate Dangling(text: string) { exists k :: 1 <= k < 10 && EndsWith(text, ":tool_call"[..k]) }

  lemma {:induction false} StripIsSuffix(w: string)
    ensures |StripSlashes(w)| <= |w| && EndsWith(w, StripSlashes(w))
    ensures forall i :: 0 <= i < |w| - |StripSlashes(w)| ==> w[i] == '/'
  {
    if w != "" && w[0] == '/' {
      StripIsSuffix(w[1..]);
      var check := StripSlashes(w[1..]);
      EndOf(w, 1);
      Ends(w, w[1..], check);
      forall i | 0 <= i < |w| - |check| ensures w[i] == '/' {
        assert i > 0 ==> w[i] == w[1..][i - 1];
      }
    } else {
      EndOf(w, 0);
      assert w[0..] == w;
    }
  }

  lemma NamespaceHeld(w: string)
    requires ByNamespace(StripSlashes(w))
    ensures Holds(w, ":tool_call")
  {
    StripIsSuffix(w);
    var check := StripSlashes(w);
    hide StripSlashes;
    var colon := Find(check, ":");
    FindChar(check, ':');
    hide Find;
    var i := |w| - |check| + colon;
    assert check[colon..colon + 10] == [':'] + check[colon + 1..][..9] == ":tool_call";
    assert w[i..i + 10] == check[colon..colon + 10];
    OccursSlice(w, ":tool_call", i);
  }

  lemma HeldInPart(a: string, b: string, c: string, pat: string)
    ensures Holds(b, pat) ==> Holds(a + b + c, pat)
  {
    if i :| OccursAt(b, pat, i) {
      OccursSlice(b, pat, i);
      assert (a + b + c)[|a| + i..|a| + i + |pat|] == b[i..i + |pat|];
      OccursSlice(a + b + c, pat, |a| + i);
    }
  }

  /** Without a namespaced tool call the names alone decide. */
  lemma NamesDecide(cc: CharClass, w: string, y: string)
    requires !Holds(w, ":tool_call")
    ensures Judge(cc, w) == Tool ==> !Unnamed(w + y)
    ensures Judge(cc, w) == Plain ==> Unnamed(w + y)
  {
    hide Judge, StripSlashes, StartsWith, ByNamespace, Holds;
    ToolBy(cc, w);
    BareOnes();
    if ByNamespace(StripSlashes(w)) { NamespaceHeld(w); }
    forall name | Bare(name)
      ensures StartsWith(w, name) ==> StartsWith(w + y, name)
      ensures StartsWith(w + y, name) ==> StartsWith(w, name) || (|w| < |name| && StartsWith(name, w))
    {
      PrefixMore(w, y, name);
      ShorterPrefix(w, y, name);
    }
    NamesJudged(cc, w);
  }

  lemma NamesJudged(cc: CharClass, w: string)
    ensures forall name :: Bare(name) && StartsWith(w, name) ==> Judge(cc, w) == Tool
    ensures forall name :: Bare(name) && |w| < |name| && StartsWith(name, w) ==> Judge(cc, w) != Plain
  {
    hide Judge, StartsWith;
    forall name | Bare(name) ensures StartsWith(w, name) ==> Judge(cc, w) == Tool {
      NameJudged(cc, name, w);
    }
    forall name | Bare(name) ensures |w| < |name| && StartsWith(name, w) ==> Judge(cc, w) != Plain {
      NameJudged(cc, name, w);
    }
  }

  lemma ShorterPrefix(w: string, y: string, name: string)
    ensures StartsWith(w + y, name) ==> StartsWith(w, name) || (|w| < |name| && StartsWith(name, w))
  {
    if StartsWith(w + y, name) {
      assert |name| <= |w| ==> w[..|name|] == (w + y)[..|name|];
      assert |w| < |name| ==> name[..|w|] == (w + y)[..|name|][..|w|] == w;
    }
  }

  predicate Clear(s: FilterState, y: string) { s.suppressing || s.current == [] }

  /** One step of the filter does what reading the rest of the text at once would do. */
  lemma AngleKeeps(cc: CharClass, w: string, y: string)
    requires !Holds(w, ":tool_call")
    ensures var f := AngleStep(cc, "<" + w).0;
            Skim(cc, "<" + w + y) == Both((f.out, f.blocks), SkimFrom(cc, Longer(f.state, y)))
  {
    hide Judge, Holds, Unnamed, SkimBlock;
    assert ("<" + w)[1..] == w && ("<" + w + y)[1..] == w + y && "<" + w + y == "<" + (w + y);
    NamesDecide(cc, w, y);
    var next := SkimFrom(cc, Longer(AngleStep(cc, "<" + w).0.state, y));
    assert "" + next.0 == next.0 && [] + next.1 == next.1;
    assert Concat(["<"]) == "<";
  }

  lemma TextKeeps(cc: CharClass, b: string, y: string)
    requires b != "" && !Holds(b, ":tool_call")
    ensures var f := TextStep(cc, b).0;
            Skim(cc, b + y) == Both((f.out, f.blocks), SkimFrom(cc, Longer(f.state, y)))
  {
    hide Judge, Holds, Skim, SkimBlock, AngleStep;
    FindChar(b, '<');
    var lt := Find(b, "<");
    if lt == -1 {
      SkimText(cc, b, y);
      assert "" + y == y;
    } else {
      var x, w := b[..lt], b[lt + 1..];
      assert b[lt..] == "<" + w && b + y == x + ("<" + w + y);
      SkimText(cc, x, "<" + w + y);
      HeldInPart(b[..lt + 1], w, "", ":tool_call");
      assert b[..lt + 1] + w + "" == b;
      AngleKeeps(cc, w, y);
      var f := AngleStep(cc, "<" + w).0;
      var next := SkimFrom(cc, Longer(f.state, y));
      assert x + (f.out + next.0) == x + f.out + next.0;
      assert [] + (f.blocks + next.1) == f.blocks + next.1;
    }
  }

  lemma SegmentKeeps(cc: CharClass, s: FilterState, y: string)
    requires Sane(cc) && s.suppressing && s.buffer != ""
    ensures var f := SegmentStep(cc, s).0;
            SkimFrom(cc, Longer(s, y)) == Both((f.out, f.blocks), SkimFrom(cc, Longer(f.state, y)))
  {
    hide SegmentStep, Skim, SkimBlock, Sane, ClosesAt;
    var v := s.buffer;
    FindChar(v, '>');
    var gt := Find(v, ">");
    assert s == FilterState(v, true, s.current);
    if gt == -1 {
      assert SegmentStep(cc, s) == (Filtered("", [], s), false) by { NoSegmentStep(cc, s); }
      SkimmedNothing(cc, Longer(s, y));
    } else {
      SegmentStepAt(cc, v, s.current, gt);
      SegmentSkimmed(cc, Concat(s.current), v, y, gt);
      assert "" + y == y;
      if !ClosesAt(cc, v, gt) {
        ConcatSnoc(s.current, v[..gt + 1]);
        SkimmedNothing(cc, FilterState(v[gt + 1..] + y, true, s.current + [v[..gt + 1]]));
      }
    }
  }

  lemma NoSegmentStep(cc: CharClass, s: FilterState)
    requires Find(s.buffer, ">") == -1
    ensures SegmentStep(cc, s) == (Filtered("", [], s), false)
  {}

  /** The first tag of the rest of a block ends it or joins it. */
  lemma SegmentSkimmed(cc: CharClass, done: string, v: string, y: string, gt: nat)
    requires Sane(cc) && gt < |v| && v[gt] == '>' && '>' !in v[..gt]
    ensures SkimBlock(cc, done, v + y) == if ClosesAt(cc, v, gt)
              then Both(("", [done + v[..gt + 1]]), Skim(cc, v[gt + 1..] + y))
              else SkimBlock(cc, done + v[..gt + 1], v[gt + 1..] + y)
  {
    hide ClosesAt, Skim, Sane;
    var w := v + y;
    forall k | 0 <= k < gt ensures !ClosesAt(cc, w, k) {
      assert w[k] == v[..gt][k];
      NoAngleNoClose(cc, w, k);
    }
    ClosesAlike(cc, v, y, gt);
    assert w[..gt + 1] == v[..gt + 1] && w[gt + 1..] == v[gt + 1..] + y;
    if ClosesAt(cc, v, gt) {
      CloseIsFirst(cc, w, gt);
      assert "" + Skim(cc, v[gt + 1..] + y).0 == Skim(cc, v[gt + 1..] + y).0;
    } else {
      SkimMoves(cc, done, w, gt);
    }
  }

  /** What the filter has done so far and what is still to come make the whole. */
  lemma {:induction false} SettleKeeps(cc: CharClass, s: FilterState, y: string)
    requires Sane(cc) && !Holds(s.buffer, ":tool_call")
    ensures var f := Settle(cc, s);
            SkimFrom(cc, Longer(s, y)) == Both((f.out, f.blocks), SkimFrom(cc, Longer(f.state, y)))
    ensures EndsWith(s.buffer, Settle(cc, s).state.buffer)
    decreases |s.buffer|
  {
    hide Holds, Skim, SkimBlock, SegmentStep, TextStep, Sane;
    if s.buffer == "" {
      SkimmedNothing(cc, Longer(s, y));
    } else {
      var (f, more) := StepOf(cc, s);
      StepKeeps(cc, s, y);
      StepPart(cc, s);
      if more {
        SettleKeeps(cc, f.state, y);
        var g := Settle(cc, f.state);
        BothAssociative((f.out, f.blocks), (g.out, g.blocks), SkimFrom(cc, Longer(g.state, y)));
      }
    }
  }

  lemma BothAssociative(a: (string, seq<string>), b: (string, seq<string>), c: (string, seq<string>))
    ensures Both(a, Both(b, c)) == Both((a.0 + b.0, a.1 + b.1), c)
  {
    assert a.0 + (b.0 + c.0) == a.0 + b.0 + c.0 && a.1 + (b.1 + c.1) == a.1 + b.1 + c.1;
  }

  lemma SkimmedNothing(cc: CharClass, s: FilterState)
    ensures SkimFrom(cc, s) == Both(("", []), SkimFrom(cc, s))
  {
    hide Skim, SkimBlock;
    var next := SkimFrom(cc, s);
    assert "" + next.0 == next.0 && [] + next.1 == next.1;
  }

  lemma StepKeeps(cc: CharClass, s: FilterState, y: string)
    requires Sane(cc) && !Holds(s.buffer, ":tool_call") && s.buffer != ""
    ensures var f := StepOf(cc, s).0;
            SkimFrom(cc, Longer(s, y)) == Both((f.out, f.blocks), SkimFrom(cc, Longer(f.state, y)))
  {
    hide Holds, Skim, SkimBlock, SegmentStep, TextStep, Sane;
    if s.suppressing { SegmentKeeps(cc, s, y); } else { TextKeeps(cc, s.buffer, y); }
  }

  /** What stays buffered is an end of what was buffered. */
  lemma StepPart(cc: CharClass, s: FilterState)
    requires s.buffer != ""
    ensures EndsWith(s.buffer, StepOf(cc, s).0.state.buffer)
    ensures !Holds(s.buffer, ":tool_call") ==> !Holds(StepOf(cc, s).0.state.buffer, ":tool_call")
  {
    hide StepOf, Holds;
    var rest := StepOf(cc, s).0.state.buffer;
    BufferShrinks(cc, s);
    PartIsClean(s.buffer, rest);
  }

  lemma EndOf(b: string, k: nat)
    requires k <= |b|
    ensures EndsWith(b, b[k..])
  {
    assert |b| - |b[k..]| == k;
  }

  lemma BufferShrinks(cc: CharClass, s: FilterState)
    requires s.buffer != ""
    ensures EndsWith(s.buffer, StepOf(cc, s).0.state.buffer)
  {
    if s.suppressing { SegmentShrinks(cc, s); } else { TextShrinks(cc, s.buffer); }
    hide SegmentStep, TextStep;
  }

  lemma SegmentShrinks(cc: CharClass, s: FilterState)
    ensures EndsWith(s.buffer, SegmentStep(cc, s).0.state.buffer)
  {
    hide EndsSuppression, Find, OccursAt, EndsWith;
    var b := s.buffer;
    FindChar(b, '>');
    var gt := Find(b, ">");
    assert SegmentStep(cc, s).0.state.buffer == if gt == -1 then b else b[gt + 1..];
    if gt == -1 {
      WholeIsEnd(b);
    } else {
      EndOf(b, gt + 1);
    }
  }

  lemma WholeIsEnd(b: string)
    ensures EndsWith(b, b)
  {
    assert b[0..] == b;
  }

  lemma AngleShrinks(cc: CharClass, b: string)
    requires b != ""
    ensures AngleStep(cc, b).0.state.buffer == b || AngleStep(cc, b).0.state.buffer == b[1..]
  {
    hide Judge;
  }

  lemma TextShrinks(cc: CharClass, b: string)
    requires b != ""
    ensures EndsWith(b, TextStep(cc, b).0.state.buffer)
  {
    hide AngleStep, Find;
    FindChar(b, '<');
    var lt := Find(b, "<");
    if lt == -1 {
      EndOf(b, |b|);
      assert TextStep(cc, b).0.state.buffer == b[|b|..];
    } else {
      AngleShrinks(cc, b[lt..]);
      EndOf(b, lt);
      EndOf(b, lt + 1);
      assert b[lt..][1..] == b[lt + 1..];
    }
  }

  /** A filter that waits for more holds nothing that is decided. */
  predicate Waits(cc: CharClass, s: FilterState) {
    if s.suppressing then '>' !in s.buffer
    else s.buffer == "" || (s.buffer[0] == '<' && (|s.buffer| < 3 || Judge(cc, s.buffer[1..]) == Undecided))
  }

  lemma {:induction false} SettleWaits(cc: CharClass, s: FilterState)
    ensures Waits(cc, Settle(cc, s).state)
    decreases |s.buffer|
  {
    hide Judge, EndsSuppression;
    FindChar(s.buffer, '<');
    FindChar(s.buffer, '>');
    hide Find;
    if s.buffer != "" {
      var (f, more) := StepOf(cc, s);
      if more { SettleWaits(cc, f.state); }
    }
  }

  lemma Ends(a: string, b: string, c: string)
    requires EndsWith(a, b) && EndsWith(b, c)
    ensures EndsWith(a, c)
  {
    assert b[|b| - |c|..] == a[|a| - |c|..];
  }

  lemma PartIsClean(text: string, part: string)
    requires EndsWith(text, part)
    ensures !Holds(text, ":tool_call") ==> !Holds(part, ":tool_call")
    ensures !Dangling(text) ==> !Dangling(part)
    ensures Blockless(text) ==> Blockless(part)
  {
    forall pat: string ensures Holds(part, pat) ==> Holds(text, pat) {
      HeldInPart(text[..|text| - |part|], part, "", pat);
      assert text[..|text| - |part|] + part + "" == text;
    }
    hide Holds;
    forall k | 1 <= k < 10 && EndsWith(part, ":tool_call"[..k]) ensures EndsWith(text, ":tool_call"[..k]) {
      Ends(text, part, ":tool_call"[..k]);
    }
  }

  lemma UndecidedBy(cc: CharClass, w: string)
    requires Judge(cc, w) == Undecided
    ensures var check := StripSlashes(w);
            || (exists p :: p in TOOL_PREFIXES && |w| < |p| && StartsWith(p, w))
            || (forall c :: c in check ==> cc.alpha(c))
            || (exists colon: nat :: colon < |check| && check[colon] == ':'
                                     && StartsWith("tool_call", check[colon + 1..]) && |check[colon + 1..]| < 9)
  {
    FindChar(StripSlashes(w), ':');
    hide StripSlashes, StartsWith, Find;
  }

  /** Text that is held back undecided holds no further '<'. */
  lemma UndecidedPlain(cc: CharClass, w: string)
    requires Sane(cc) && Judge(cc, w) == Undecided && !Dangling(w)
    ensures '<' !in w && Unnamed(w)
  {
    hide Judge, StripSlashes, StartsWith, Dangling, EndsWith, Sane;
    UndecidedIsUnnamed(cc, w);
    UndecidedBy(cc, w);
    StripIsSuffix(w);
    var check := StripSlashes(w);
    if forall c :: c in check ==> cc.alpha(c) {
      OnlyLetters(cc, w, check);
    } else if p :| p in TOOL_PREFIXES && |w| < |p| && StartsWith(p, w) {
      NamePart(p, w);
    } else {
      var colon: nat :| colon < |check| && check[colon] == ':' && StartsWith("tool_call", check[colon + 1..])
                        && |check[colon + 1..]| < 9;
      DanglesFrom(w, check, colon);
    }
  }

  lemma UndecidedIsUnnamed(cc: CharClass, w: string)
    requires Judge(cc, w) == Undecided
    ensures Unnamed(w)
  {
    NamesJudged(cc, w);
    hide Judge, StartsWith;
    assert Bare("invoke") && Bare("tool_call") && Bare("/invoke") && Bare("/tool_call");
  }

  lemma OnlyLetters(cc: CharClass, w: string, check: string)
    requires Sane(cc) && EndsWith(w, check) && forall c :: c in check ==> cc.alpha(c)
    requires forall i :: 0 <= i < |w| - |check| ==> w[i] == '/'
    ensures '<' !in w
  {
    var n := |w| - |check|;
    assert forall i :: n <= i < |w| ==> w[i] == w[n..][i - n] && w[i] in check;
  }

  lemma DanglesFrom(w: string, check: string, colon: nat)
    requires EndsWith(w, check) && colon < |check| && check[colon] == ':'
    requires StartsWith("tool_call", check[colon + 1..]) && |check[colon + 1..]| < 9
    ensures Dangling(w)
  {
    hide Dangling;
    var after := check[colon + 1..];
    var k := |after| + 1;
    assert ":tool_call"[..k] == [':'] + "tool_call"[..|after|];
    assert check[colon..] == [':'] + after;
    EndOf(check, colon);
    Ends(w, check, check[colon..]);
    Dangles(w, k);
  }

  lemma Dangles(w: string, k: nat)
    requires 1 <= k < 10 && EndsWith(w, ":tool_call"[..k])
    ensures Dangling(w)
  {}

  /** Whatever came so far, the rest of the text is read from where the filter stands. */
  lemma {:induction false} ChunksKeep(cc: CharClass, chunks: seq<string>, y: string)
    requires Sane(cc) && !Holds(Concat(chunks), ":tool_call")
    ensures var g := FilterAll(cc, FRESH, chunks);
            && Skim(cc, Concat(chunks) + y) == Both((g.out, g.blocks), SkimFrom(cc, Longer(g.state, y)))
            && EndsWith(Concat(chunks), g.state.buffer) && Waits(cc, g.state)
  {
    hide Sane, Holds, Skim, SkimBlock, Settle;
    if chunks == [] {
      NothingFiltered(cc);
      SkimmedNothing(cc, Longer(FRESH, y));
      EndOf("", 0);
    } else {
      var n := |chunks| - 1;
      var x, c := Concat(chunks[..n]), chunks[n];
      ConcatSnoc(chunks[..n], c);
      assert chunks == chunks[..n] + [c];
      EndOf(x + c, |x|);
      PartOfStart(x, c);
      ChunksKeep(cc, chunks[..n], c + y);
      var g := FilterAll(cc, FRESH, chunks[..n]);
      assert x + c + y == x + (c + y);
      ChunkKeeps(cc, x, c, y, g);
    }
  }

  lemma PartOfStart(x: string, c: string)
    ensures Holds(x, ":tool_call") ==> Holds(x + c, ":tool_call")
  {
    HeldInPart("", x, c, ":tool_call");
    assert "" + x + c == x + c;
  }

  lemma ChunkKeeps(cc: CharClass, x: string, c: string, y: string, g: Filtered)
    requires Sane(cc) && !Holds(x + c, ":tool_call") && EndsWith(x, g.state.buffer)
    requires Skim(cc, x + (c + y)) == Both((g.out, g.blocks), SkimFrom(cc, Longer(g.state, c + y)))
    ensures var all := g.Then(FilterChunk(cc, g.state, c));
            && Skim(cc, x + (c + y)) == Both((all.out, all.blocks), SkimFrom(cc, Longer(all.state, y)))
            && EndsWith(x + c, all.state.buffer) && Waits(cc, all.state)
  {
    hide Sane, Holds, Skim, SkimBlock, Settle, Waits, SkimFrom;
    var s := Longer(g.state, c);
    EndsLonger(x, g.state.buffer, c);
    PartIsClean(x + c, s.buffer);
    SettleKeeps(cc, s, y);
    SettleWaits(cc, s);
    var f := Settle(cc, s);
    assert g.state.buffer + c + y == g.state.buffer + (c + y);
    assert Longer(s, y) == Longer(g.state, c + y);
    BothAssociative((g.out, g.blocks), (f.out, f.blocks), SkimFrom(cc, Longer(f.state, y)));
    Ends(x + c, s.buffer, f.state.buffer);
  }

  lemma EndsLonger(a: string, b: string, c: string)
    requires EndsWith(a, b)
    ensures EndsWith(a + c, b + c)
  {
    assert (a + c)[|a| - |b|..] == a[|a| - |b|..] + c;
  }

  /** At the end of the stream nothing more comes. */
  lemma WaitEnds(cc: CharClass, s: FilterState)
    requires Sane(cc) && Waits(cc, s) && (!Dangling(s.buffer) || Blockless(s.buffer))
    ensures SkimFrom(cc, s) == if s.suppressing then ("", [Concat(s.current) + s.buffer]) else (s.buffer, [])
  {
    hide Judge;
    var b := s.buffer;
    if s.suppressing {
      forall k | 0 <= k < |b| ensures !ClosesAt(cc, b, k) { NoAngleNoClose(cc, b, k); }
      hide ClosesAt;
    } else if Blockless(b) {
      SkimBlockless(cc, b);
    } else if b != "" {
      hide Blockless;
      var w := b[1..];
      assert b == "<" + w;
      EndOf(b, 1);
      PartIsClean(b, w);
      if |w| >= 2 { UndecidedPlain(cc, w); }
      hide Dangling;
      SkimShort(cc, w);
    }
  }

  lemma SkimShort(cc: CharClass, w: string)
    requires |w| < 2 || ('<' !in w && Unnamed(w))
    ensures Skim(cc, "<" + w) == ("<" + w, [])
  {
    assert Unnamed("") && Unnamed(w);
    assert Skim(cc, w) == (w, []) by {
      SkimPlain(cc, w);
    }
    SkimNext(cc, '<', w);
  }

  lemma SkimNext(cc: CharClass, c: char, w: string)
    requires c != '<' || Unnamed(w)
    ensures Skim(cc, [c] + w) == Both(([c], []), Skim(cc, w))
  {
    assert ([c] + w)[1..] == w;
    assert [] + Skim(cc, w).1 == Skim(cc, w).1;
  }

  lemma SkimPlain(cc: CharClass, w: string)
    requires |w| < 2 || '<' !in w
    ensures Skim(cc, w) == (w, [])
  {
    if '<' !in w {
      SkimText(cc, w, "");
      assert w + "" == w;
    } else {
      assert w == ['<'] + "" && Unnamed("");
      SkimNext(cc, '<', "");
    }
  }

  /** In text that holds no namespaced tool call the filter keeps off just the blocks that four names open,
      wherever the stream is cut; text that holds such a name must not end as a namespaced one might begin. */
  lemma FilterIsSkim(cc: CharClass, chunks: seq<string>)
    requires Sane(cc) && !Holds(Concat(chunks), ":tool_call")
    requires !Dangling(Concat(chunks)) || Blockless(Concat(chunks))
    ensures FilterAll(cc, FRESH, chunks).Flush() == Skim(cc, Concat(chunks))
  {
    hide Sane, Holds, Skim, Waits, Dangling, Blockless, SkimFrom, FilterAll, EndsWith, Concat, Filtered.Flush;
    var g := FilterAll(cc, FRESH, chunks);
    ChunksKeep(cc, chunks, "");
    assert Concat(chunks) + "" == Concat(chunks) && g.state.buffer + "" == g.state.buffer;
    PartIsClean(Concat(chunks), g.state.buffer);
    WaitEnds(cc, g.state);
    FlushEnds(g);
  }

  lemma FlushEnds(g: Filtered)
    ensures g.Flush() == Both((g.out, g.blocks), if g.state.suppressing
                                then ("", [Concat(g.state.current) + g.state.buffer]) else (g.state.buffer, []))
  {
    ConcatSnoc(g.state.current, g.state.buffer);
    assert g.out + "" == g.out && g.blocks + [] == g.blocks;
  }

  lemma NamedAt(text: string, i: nat, name: string)
    requires i < |text| && text[i] == '<'
    ensures StartsWith(text[i + 1..], name) <==> OccursAt(text, "<" + name, i)
  {
    OccursSlice(text, "<" + name, i);
    if i + 1 + |name| <= |text| {
      assert text[i..i + 1 + |name|] == ['<'] + text[i + 1..][..|name|];
      assert ("<" + name)[1..] == name && (['<'] + text[i + 1..][..|name|])[1..] == text[i + 1..][..|name|];
    }
  }

  lemma OpensAt(text: string, i: nat)
    requires i < |text| && text[i] == '<'
    ensures !Unnamed(text[i + 1..]) <==>
              OccursAt(text, "<invoke", i) || OccursAt(text, "<tool_call", i) ||
              OccursAt(text, "</invoke", i) || OccursAt(text, "</tool_call", i)
  {
    hide StartsWith, OccursAt;
    NamedAt(text, i, "invoke");
    NamedAt(text, i, "tool_call");
    NamedAt(text, i, "/invoke");
    NamedAt(text, i, "/tool_call");
    assert "<" + "invoke" == "<invoke" && "<" + "tool_call" == "<tool_call";
    assert "<" + "/invoke" == "</invoke" && "<" + "/tool_call" == "</tool_call";
  }

  /** No block starts before `i`. */
  predicate NoneBefore(text: string, i: int) {
    forall k :: 0 <= k < i && k < |text| && text[k] == '<' ==> Unnamed(text[k + 1..])
  }

  lemma BlocklessIsNone(text: string)
    ensures Blockless(text) <==> NoneBefore(text, |text|)
  {
    hide Unnamed, OccursAt;
    forall k | 0 <= k < |text| && text[k] == '<'
      ensures !Unnamed(text[k + 1..]) <==>
                OccursAt(text, "<invoke", k) || OccursAt(text, "<tool_call", k) ||
                OccursAt(text, "</invoke", k) || OccursAt(text, "</tool_call", k)
    {
      OpensAt(text, k);
    }
    forall pat: string, k | OccursAt(text, pat, k) && pat != "" && pat[0] == '<'
      ensures 0 <= k < |text| && text[k] == '<'
    {
      OccursSlice(text, pat, k);
      assert text[k] == text[k..k + |pat|][0];
    }
  }

  lemma NoneShift(text: string, i: nat)
    requires 0 < i <= |text| && NoneBefore(text, i)
    ensures NoneBefore(text[1..], i - 1)
  {
    hide Unnamed;
    var rest := text[1..];
    forall k | 0 <= k < i - 1 && k < |rest| && rest[k] == '<' ensures Unnamed(rest[k + 1..]) {
      assert rest[k] == text[k + 1] && rest[k + 1..] == text[k + 2..];
      assert Unnamed(text[(k + 1) + 1..]);
    }
  }

  /** Text in front of the first block is emitted. */
  lemma {:induction false} SkimFront(cc: CharClass, text: string, i: nat)
    requires i <= |text| && NoneBefore(text, i)
    ensures Skim(cc, text) == Both((text[..i], []), Skim(cc, text[i..]))
  {
    hide Unnamed;
    if i == 0 {
      assert text[0..] == text;
      var s := Skim(cc, text);
      assert "" + s.0 == s.0 && [] + s.1 == s.1;
    } else {
      NoneShift(text, i);
      SkimFront(cc, text[1..], i - 1);
      assert text[1..][i - 1..] == text[i..];
      assert [text[0]] + text[1..] == text && [text[0]] + text[1..][..i - 1] == text[..i];
      SkimNext(cc, text[0], text[1..]);
      BothAssociative(([text[0]], []), (text[1..][..i - 1], []), Skim(cc, text[i..]));
    }
  }

  lemma BothNothing(a: (string, seq<string>))
    ensures Both(a, ("", [])) == a && Both(("", []), a) == a
  {
    assert a.0 + "" == a.0 && "" + a.0 == a.0 && a.1 + [] == a.1 && [] + a.1 == a.1;
  }

  lemma SkimBlockless(cc: CharClass, text: string)
    requires Blockless(text)
    ensures Skim(cc, text) == (text, [])
  {
    BlocklessIsNone(text);
    SkimFront(cc, text, |text|);
    assert text[..|text|] == text && text[|text|..] == "";
    assert Skim(cc, "") == ("", []);
    BothNothing((text, []));
  }

  /** The text and its blocks without the recursion: everything in front of the leftmost opening tag is
      emitted, the block is the text from there up to the first tag that closes it, or all that is left,
      and the text behind the block is treated in the same way. */
  lemma SkimInPlainTerms(cc: CharClass, text: string, i: nat)
    requires i < |text| && text[i] == '<' && !Unnamed(text[i + 1..]) && NoneBefore(text, i)
    ensures StaysOpen(cc, text[i + 1..]) ==> Skim(cc, text) == (text[..i], [text[i..]])
    ensures forall e :: i + 1 < e <= |text| && Whole(cc, text[i + 1..e]) ==>
              Skim(cc, text) == Both((text[..i], [text[i..e]]), Skim(cc, text[e..]))
  {
    hide Unnamed, Whole, StaysOpen, SkimBlock;
    SkimFront(cc, text, i);
    var v := text[i + 1..];
    assert text[i..][1..] == v && text[i..] == "<" + v;
    SkimOpening(cc, v);
    OpenSkimmed(cc, v);
    assert Both((text[..i], []), ("", ["<" + v])) == (text[..i], [text[i..]]) by {
      assert text[..i] + "" == text[..i] && [] + ["<" + v] == ["<" + v];
    }
    forall e | i + 1 < e <= |text| && Whole(cc, text[i + 1..e])
      ensures Skim(cc, text) == Both((text[..i], [text[i..e]]), Skim(cc, text[e..]))
    {
      var u := text[i + 1..e];
      assert v == u + text[e..] && text[i..e] == "<" + u;
      WholeSkimmed(cc, u, text[e..]);
      BothAssociative((text[..i], []), ("", ["<" + u]), Skim(cc, text[e..]));
      assert text[..i] + "" == text[..i] && [] + ["<" + u] == ["<" + u];
    }
  }

  lemma SkimOpening(cc: CharClass, v: string)
    requires !Unnamed(v)
    ensures Skim(cc, "<" + v) == SkimBlock(cc, "<", v)
  {
    assert ("<" + v)[1..] == v;
  }

  lemma OpenSkimmed(cc: CharClass, v: string)
    ensures StaysOpen(cc, v) ==> SkimBlock(cc, "<", v) == ("", ["<" + v])
  {}

  lemma WholeSkimmed(cc: CharClass, u: string, a: string)
    requires Whole(cc, u)
    ensures SkimBlock(cc, "<", u + a) == Both(("", ["<" + u]), Skim(cc, a))
  {
    hide ClosesAt;
    var w, p := u + a, |u| - 1;
    forall k | 0 <= k < |u| ensures ClosesAt(cc, w, k) <==> ClosesAt(cc, u, k) { ClosesAlike(cc, u, a, k); }
    CloseIsFirst(cc, w, p);
    assert w[..p + 1] == u && w[p + 1..] == a;
    assert "" + Skim(cc, a).0 == Skim(cc, a).0;
  }

  /** Text without such tags passes through as it is. */
  lemma PassesUnchanged(cc: CharClass, chunks: seq<string>)
    requires Sane(cc) && Blockless(Concat(chunks)) && !Holds(Concat(chunks), ":tool_call")
    ensures FilterAll(cc, FRESH, chunks).Flush() == (Concat(chunks), [])
  {
    hide Blockless, Holds, Sane;
    FilterIsSkim(cc, chunks);
    SkimBlockless(cc, Concat(chunks));
  }

  /** A block is kept off exactly when one of the four opening tags stands in the text. */
  lemma BlocksExactly(cc: CharClass, chunks: seq<string>)
    requires Sane(cc) && !Holds(Concat(chunks), ":tool_call") && !Dangling(Concat(chunks))
    ensures FilterAll(cc, FRESH, chunks).Flush().1 == [] <==> Blockless(Concat(chunks))
  {
    var text := Concat(chunks);
    FilterIsSkim(cc, chunks);
    BlocklessIsNone(text);
    hide Blockless, Holds, Sane, Dangling, Skim, SkimBlock, Unnamed, Settle;
    if Blockless(text) {
      SkimBlockless(cc, text);
    } else {
      var i := FirstOpening(text, 0);
      SkimFront(cc, text, i);
      OpeningSkimmed(cc, text[i..]);
    }
  }

  lemma OpeningSkimmed(cc: CharClass, text: string)
    requires text != "" && text[0] == '<' && !Unnamed(text[1..])
    ensures Skim(cc, text).1 != []
  {}

  lemma FirstOpening(text: string, from: nat) returns (i: nat)
    requires !NoneBefore(text, |text|) && from <= |text| && NoneBefore(text, from)
    ensures i < |text| && text[i] == '<' && !Unnamed(text[i + 1..]) && NoneBefore(text, i)
    decreases |text| - from
  {
    hide Unnamed;
    i := from;
    if text[from] != '<' || Unnamed(text[from + 1..]) {
      i := FirstOpening(text, from + 1);
    }
  }

  /** Such text may be cut anywhere. */
  lemma CutsDoNotMatter(cc: CharClass, chunks: seq<string>, others: seq<string>)
    requires Sane(cc) && Concat(chunks) == Concat(others)
    requires !Holds(Concat(chunks), ":tool_call") && (!Dangling(Concat(chunks)) || Blockless(Concat(chunks)))
    ensures FilterAll(cc, FRESH, chunks).Flush() == FilterAll(cc, FRESH, others).Flush()
  {
    FilterIsSkim(cc, chunks);
    FilterIsSkim(cc, others);
    hide FilterAll, Holds, Dangling, Sane, Filtered.Flush;
  }

  /** With a namespaced tool call the cut can matter: a short tag with such a name right behind it opens a
      block when it comes at once, and passes when the cut lies between them. */
  lemma CutMatters(cc: CharClass, tag: string)
    requires Sane(cc) && 2 <= |tag| < 20 && tag[0] != '/' && '>' in tag && '<' !in tag && ':' !in tag
    requires Unnamed(tag) && StaysOpen(cc, tag)
    ensures FilterAll(cc, FRESH, ["<" + (tag + ":tool_call")]).Flush() == ("", ["<" + (tag + ":tool_call")])
    ensures FilterAll(cc, FRESH, ["<" + tag, ":tool_call"]).Flush() == ("<" + tag + ":tool_call", [])
  {
    hide Judge, FilterAll, Unnamed, Sane, StaysOpen;
    NamespaceFound(cc, tag);
    StillOpen(cc, tag, ":tool_call");
    OpenAlone(cc, tag + ":tool_call");
    TagIsPlain(cc, tag);
    PlainCut(cc, tag, ":tool_call");
  }

  lemma StillOpen(cc: CharClass, v: string, y: string)
    requires StaysOpen(cc, v) && '>' !in y
    ensures StaysOpen(cc, v + y)
  {
    hide ClosesAt;
    forall k | 0 <= k < |v + y| ensures !ClosesAt(cc, v + y, k) {
      if k < |v| { ClosesAlike(cc, v, y, k); } else { NoAngleNoClose(cc, v + y, k); }
    }
  }

  lemma NamespaceFound(cc: CharClass, tag: string)
    requires 0 < |tag| < 20 && tag[0] != '/' && ':' !in tag
    ensures Judge(cc, tag + ":tool_call") == Tool
  {
    hide Judge, StartsWith, Find, StripSlashes, OccursAt;
    var name := "tool_call";
    var w := tag + ":" + name;
    assert w == tag + ":tool_call";
    Stripped(w);
    assert w[|tag|] == ':' && w[..|tag|] == tag && w[|tag| + 1..] == name;
    FirstChar(w, ':', |tag|);
    JudgedByName(cc, w, w, name);
    WholeStarts(name);
  }

  lemma WholeStarts(name: string)
    ensures StartsWith(name, name)
  {}

  lemma TagIsPlain(cc: CharClass, tag: string)
    requires Sane(cc) && |tag| >= 2 && tag[0] != '/' && '>' in tag && ':' !in tag && Unnamed(tag)
    ensures Judge(cc, tag) == Plain
  {
    FindChar(tag, ':');
    Stripped(tag);
    forall p | p in TOOL_PREFIXES ensures !StartsWith(p, tag) {
      BareOnes();
      NamePart(p, tag);
    }
    BareOnes();
    hide Find, StripSlashes, StartsWith;
  }

  lemma OneChunk(cc: CharClass, text: string)
    ensures FilterAll(cc, FRESH, [text]) == Reading(cc, text)
  {
    FilterAllSnoc(cc, FRESH, [], text);
    NothingFiltered(cc);
    assert [] + [text] == [text] && Longer(FRESH, text) == FilterState(text, false, []) by {
      assert "" + text == text;
    }
    NothingYet(Reading(cc, text), FRESH);
    hide Settle;
  }

  lemma OpenAlone(cc: CharClass, u: string)
    requires Sane(cc) && |u| >= 2 && Judge(cc, u) == Tool && StaysOpen(cc, u)
    ensures FilterAll(cc, FRESH, ["<" + u]).Flush() == ("", ["<" + u])
  {
    hide Judge, Settle, StaysOpen, Sane;
    OneChunk(cc, "<" + u);
    AngleReading(cc, u);
    BlockStaysOpen(cc, u, ["<"], "");
    assert Concat(["<"]) + u == "<" + u && [] + ["<" + u] == ["<" + u];
  }

  lemma HeldAlone(cc: CharClass, w: string)
    requires Judge(cc, w) == Undecided
    ensures FilterAll(cc, FRESH, ["<" + w]).Flush() == ("<" + w, [])
  {
    hide Judge, Settle;
    OneChunk(cc, "<" + w);
    AngleReading(cc, w);
    assert "" + ("<" + w) == "<" + w;
  }

  lemma PlainCut(cc: CharClass, w: string, y: string)
    requires |w| >= 2 && Judge(cc, w) == Plain && '<' !in w && '<' !in y
    ensures FilterAll(cc, FRESH, ["<" + w, y]).Flush() == ("<" + w + y, [])
  {
    hide Judge, Settle;
    OneChunk(cc, "<" + w);
    AngleReading(cc, w);
    ReadingText(cc, w);
    FilterAllSnoc(cc, FRESH, ["<" + w], y);
    ReadingText(cc, y);
    assert ["<" + w] + [y] == ["<" + w, y];
    assert Longer(FRESH, y) == FilterState(y, false, []) by { assert "" + y == y; }
    assert FilterAll(cc, FRESH, ["<" + w, y]) == Filtered("<" + w + y, [], FRESH);
    assert "<" + w + y + "" == "<" + w + y;
  }

  lemma FirstDiffers(p: string, w: string)
    requires p in TOOL_PREFIXES && w != "" && w[0] == 'a'
    ensures !StartsWith(w, p) && !StartsWith(p, w)
  {
    PrefixAt(w, p, 0);
    PrefixAt(p, w, 0);
  }

  /** A name behind an undecided '<' is not seen: held back to the end of the stream, it is emitted. */
  lemma HeldNameEmitted(cc: CharClass, text: string)
    requires text == "<a<invoke:"
    ensures FilterAll(cc, FRESH, [text]).Flush() == (text, [])
    ensures !Blockless(text) && Dangling(text)
  {
    HeldIsName(text);
    HeldHere(cc, text[1..]);
    hide Judge, FilterAll, Settle, Blockless, Dangling;
    HeldAlone(cc, text[1..]);
    assert "<" + text[1..] == text;
  }

  lemma HeldIsName(text: string)
    requires text == "<a<invoke:"
    ensures !Blockless(text) && Dangling(text)
  {
    assert text[2..9] == "<invoke";
    OccursSlice(text, "<invoke", 2);
    assert Holds(text, "<invoke");
    assert text[9..] == ":" && ":tool_call"[..1] == ":";
    assert EndsWith(text, ":tool_call"[..1]);
    hide OccursAt, EndsWith;
  }

  lemma HeldHere(cc: CharClass, w: string)
    requires w == "a<invoke:"
    ensures Judge(cc, w) == Undecided
  {
    assert w[8] == ':' && ':' !in w[..8] && w[9..] == "";
    FirstChar(w, ':', 8);
    assert StripSlashes(w) == w;
    forall p | p in TOOL_PREFIXES ensures !StartsWith(w, p) { FirstDiffers(p, w); }
    assert StartsWith("tool_call", "") && !StartsWith("", "tool_call");
    hide Find, StripSlashes, StartsWith;
  }
}
