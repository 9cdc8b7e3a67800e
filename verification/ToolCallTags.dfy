/** What the tool-call filter does with one block, with the names and endings of the tags spelled out, for
    every way of cutting the stream into chunks. */
module ToolCallTags {
  import opened Text
  import opened ToolCallXml

  predicate EndsWith(s: string, suffix: string) { |suffix| <= |s| && s[|s| - |suffix|..] == suffix }

  ghost predicate Holds(s: string, pat: string) { exists i :: OccursAt(s, pat, i) }

  /** '>' belongs neither to a name nor to the whitespace. */
  predicate Sane(cc: CharClass) {
    !cc.word('>') && !cc.space('>') && !cc.alpha('>') && !cc.alpha('<') && !cc.alpha(':')
    && !cc.alpha('/')
  }

  /** A closing tag `</ns:tool_call>` stands at the end, its namespace starting at `i + 2`. */
  predicate NamespaceFrom(cc: CharClass, s: string, i: nat) {
    && i + 2 < |s| - 11 && s[i..i + 2] == "</" && EndsWith(s, ":tool_call>")
    && forall k :: i + 2 <= k < |s| - 11 ==> cc.word(s[k])
  }

  /** Text that ends in a self-closing tag or in the closing tag of a tool call. */
  ghost predicate Closing(cc: CharClass, s: string) {
    || EndsWith(s, "/>") || EndsWith(s, "</invoke>") || EndsWith(s, "</tool_call>")
    || exists i: nat :: NamespaceFrom(cc, s, i)
  }

  /** A block with the text `u` behind its '<' ends with the character at `p`. */
  ghost predicate ClosesAt(cc: CharClass, u: string, p: nat) { p < |u| && Closing(cc, u[..p + 1]) }

  /** `u` is all of a block behind its '<', and not more. */
  ghost predicate Whole(cc: CharClass, u: string) {
    && u != "" && ClosesAt(cc, u, |u| - 1)
    && forall p :: 0 <= p < |u| - 1 ==> !ClosesAt(cc, u, p)
  }

  /** A tool call starts with one of these behind its '<'. */
  ghost predicate Opening(cc: CharClass, name: string) {
    || name == "invoke" || name == "tool_call" || name == "/invoke" || name == "/tool_call"
    || exists ns :: Namespace(cc, ns) && (name == ns + ":tool_call" || name == "/" + ns + ":tool_call")
  }

  predicate Namespace(cc: CharClass, ns: string) { 0 < |ns| < 20 && forall c :: c in ns ==> cc.alpha(c) }

  function Longer(s: FilterState, more: string): FilterState { s.(buffer := s.buffer + more) }

  // ---------------------------------------------------------------- closing tags

  lemma EndsWithAt(s: string, suffix: string)
    requires |suffix| <= |s|
    ensures EndsWith(s, suffix) <==> OccursAt(s, suffix, |s| - |suffix|)
  {
    var tail := s[|s| - |suffix|..];
    assert forall k :: 0 <= k < |suffix| ==> tail[k] == s[|s| - |suffix| + k];
  }

  lemma OnlyAtEnd(s: string, pat: string)
    requires TagSegment(s) && pat != "" && pat[|pat| - 1] == '>'
    ensures EndsWith(s, pat) <==> Find(s, pat) != -1
    ensures forall i :: OccursAt(s, pat, i) ==> i == |s| - |pat|
  {
    FindChar(s, '>');
    forall i | OccursAt(s, pat, i) ensures i == |s| - |pat| {
      assert s[i + (|pat| - 1)] == '>';
      assert s[..|s| - 1] + [s[|s| - 1]] == s;
    }
    if |pat| <= |s| { EndsWithAt(s, pat); }
  }

  lemma NamespaceAtEnd(cc: CharClass, s: string)
    requires TagSegment(s)
    ensures (exists i: nat :: NamespaceFrom(cc, s, i)) <==>
              exists i, j :: 0 <= i < j < |s| && NamespacedClose(cc, s, i, j)
  {
    if i: nat :| NamespaceFrom(cc, s, i) { FromIsClose(cc, s, i); }
    if i, j :| 0 <= i < j < |s| && NamespacedClose(cc, s, i, j) { CloseIsFrom(cc, s, i, j); }
    hide NamespaceFrom, NamespacedClose;
  }

  lemma FromIsClose(cc: CharClass, s: string, i: nat)
    requires TagSegment(s) && NamespaceFrom(cc, s, i)
    ensures i < |s| - 11 && NamespacedClose(cc, s, i, |s| - 11)
  {
    hide TagSegment, OccursAt;
    EndsWithAt(s, ":tool_call>");
    OccursSlice(s, "</", i);
  }

  lemma CloseIsFrom(cc: CharClass, s: string, i: nat, j: nat)
    requires TagSegment(s) && NamespacedClose(cc, s, i, j)
    ensures NamespaceFrom(cc, s, i)
  {
    OnlyAtEnd(s, ":tool_call>");
    assert j == |s| - 11 by { assert OccursAt(s, ":tool_call>", j); }
    hide TagSegment, OccursAt;
    EndsWithAt(s, ":tool_call>");
    OccursSlice(s, "</", i);
  }

  /** The filter recognises just these endings. */
  lemma EndsInPlainTerms(cc: CharClass, s: string)
    requires Sane(cc) && TagSegment(s)
    ensures EndsSuppression(cc, s) <==> Closing(cc, s)
  {
    FindChar(s, '>');
    assert RStrip(cc.space, s) == s;
    OnlyAtEnd(s, "</invoke>");
    OnlyAtEnd(s, "</tool_call>");
    NamespaceAtEnd(cc, s);
    hide NamespaceFrom, NamespacedClose;
  }

  lemma EndsWithLonger(a: string, b: string, suffix: string)
    requires |suffix| <= |b|
    ensures EndsWith(a + b, suffix) <==> EndsWith(b, suffix)
  {
    assert (a + b)[|a + b| - |suffix|..] == b[|b| - |suffix|..];
  }

  /** Characters in front of a tag that starts behind a '>' play no role. */
  lemma SuffixBehind(a: string, b: string, suffix: string)
    requires a != "" && a[|a| - 1] == '>' && b != ""
    requires suffix != "" && forall k :: 0 <= k < |suffix| - 1 ==> suffix[k] != '>'
    ensures EndsWith(a + b, suffix) <==> EndsWith(b, suffix)
  {
    if |suffix| <= |b| {
      EndsWithLonger(a, b, suffix);
    } else if |suffix| <= |a + b| {
      var s, o, k := a + b, |a + b| - |suffix|, |suffix| - |b| - 1;
      EndsWithAt(s, suffix);
      assert s[o + k] == '>' && suffix[k] != '>';
    }
  }

  lemma NamespaceBehind(cc: CharClass, a: string, b: string)
    requires Sane(cc) && a != "" && a[|a| - 1] == '>' && b != ""
    ensures (exists i: nat :: NamespaceFrom(cc, a + b, i)) <==> exists i: nat :: NamespaceFrom(cc, b, i)
  {
    var s := a + b;
    if i: nat :| NamespaceFrom(cc, s, i) {
      BehindFrom(cc, a, b, i);
      assert NamespaceFrom(cc, b, i - |a|);
    }
    if i: nat :| NamespaceFrom(cc, b, i) {
      SuffixBehind(a, b, ":tool_call>");
      assert s[|a| + i..|a| + i + 2] == b[i..i + 2];
      assert NamespaceFrom(cc, s, |a| + i);
    }
  }

  lemma BehindFrom(cc: CharClass, a: string, b: string, i: nat)
    requires Sane(cc) && a != "" && a[|a| - 1] == '>' && b != ""
    requires NamespaceFrom(cc, a + b, i)
    ensures i >= |a| && NamespaceFrom(cc, b, i - |a|)
  {
    var s, tag := a + b, ":tool_call>";
    SuffixBehind(a, b, tag);
    assert |a| - 1 < |s| - 11;
    assert s[|a| - 1] == '>' && s[i..i + 2][0] == s[i] == '<' && s[i..i + 2][1] == s[i + 1] == '/';
    assert i >= |a|;
    assert b[i - |a|..i - |a| + 2] == s[i..i + 2];
    assert forall k :: 0 <= k < |b| ==> b[k] == s[|a| + k];
    assert EndsWith(b, tag);
  }

  lemma ClosingBehind(cc: CharClass, a: string, b: string)
    requires Sane(cc) && a != "" && a[|a| - 1] == '>' && b != ""
    ensures Closing(cc, a + b) <==> Closing(cc, b)
  {
    SuffixBehind(a, b, "/>");
    SuffixBehind(a, b, "</invoke>");
    SuffixBehind(a, b, "</tool_call>");
    NamespaceBehind(cc, a, b);
    hide NamespaceFrom, EndsWith;
  }

  /** A block ends with a '>'. */
  lemma ClosesWithAngle(cc: CharClass, u: string, p: nat)
    requires ClosesAt(cc, u, p)
    ensures u[p] == '>'
  {
    var s := u[..p + 1];
    forall suffix: string | suffix != "" && EndsWith(s, suffix) ensures u[p] == suffix[|suffix| - 1] {
      assert s[|s| - |suffix|..][|suffix| - 1] == s[p];
    }
    if i: nat :| NamespaceFrom(cc, s, i) {
      assert EndsWith(s, ":tool_call>");
    }
  }

  /** Behind the first '>' at `gt`, which ends nothing, the block ends where it ended before. */
  lemma ClosesShift(cc: CharClass, u: string, gt: nat, p: nat)
    requires Sane(cc) && gt < p < |u| && u[gt] == '>'
    ensures ClosesAt(cc, u, p) <==> ClosesAt(cc, u[gt + 1..], p - gt - 1)
  {
    var a, b := u[..gt + 1], u[gt + 1..p + 1];
    assert u[..p + 1] == a + b && u[gt + 1..][..p - gt] == b;
    assert a[|a| - 1] == '>';
    ClosingBehind(cc, a, b);
    hide Closing;
  }

  // ---------------------------------------------------------------- inside a block

  lemma SegmentStepAt(cc: CharClass, v: string, cur: seq<string>, gt: nat)
    requires Sane(cc) && gt == Find(v, ">")
    ensures v[gt] == '>' && '>' !in v[..gt]
    ensures var (f, more) := SegmentStep(cc, FilterState(v, true, cur));
            && more
            && f == if ClosesAt(cc, v, gt)
                 then Filtered("", [Concat(cur) + v[..gt + 1]], FilterState(v[gt + 1..], false, []))
                 else Filtered("", [], FilterState(v[gt + 1..], true, cur + [v[..gt + 1]]))
  {
    hide Closing, EndsSuppression;
    FindChar(v, '>');
    SegmentOf(v, gt);
    EndsInPlainTerms(cc, v[..gt + 1]);
    ConcatSnoc(cur, v[..gt + 1]);
  }

  lemma SettleOne(cc: CharClass, s: FilterState)
    requires s.suppressing && s.buffer != "" && SegmentStep(cc, s).1
    ensures var f := SegmentStep(cc, s).0; Settle(cc, s) == f.Then(Settle(cc, f.state))
  {
    hide SegmentStep;
  }

  /** The block is done and `rest` is read afresh. */
  function Closed(cc: CharClass, block: string, rest: string): Filtered {
    Filtered("", [block], FRESH).Then(Settle(cc, FilterState(rest, false, [])))
  }

  /** A segment that ends nothing joins the block. */
  lemma SegmentJoins(cc: CharClass, v: string, cur: seq<string>, gt: nat)
    requires Sane(cc) && gt == Find(v, ">") && gt < |v| && !ClosesAt(cc, v, gt)
    ensures Settle(cc, FilterState(v, true, cur)) == Settle(cc, FilterState(v[gt + 1..], true, cur + [v[..gt + 1]]))
  {
    hide ClosesAt, SegmentStep, Sane, Find, Settle;
    SegmentStepAt(cc, v, cur, gt);
    SettleOne(cc, FilterState(v, true, cur));
    var next := FilterState(v[gt + 1..], true, cur + [v[..gt + 1]]);
    NothingYet(Settle(cc, next), next);
  }

  lemma SegmentCloses(cc: CharClass, v: string, cur: seq<string>, gt: nat)
    requires Sane(cc) && gt == Find(v, ">") && ClosesAt(cc, v, gt)
    ensures gt < |v|
    ensures Settle(cc, FilterState(v, true, cur)) == Closed(cc, Concat(cur) + v[..gt + 1], v[gt + 1..])
  {
    assert gt < |v|;
    hide ClosesAt, SegmentStep, Sane, Find, Settle;
    SegmentStepAt(cc, v, cur, gt);
    SettleOne(cc, FilterState(v, true, cur));
  }

  /** The block ends with the first tag that closes it, and the text behind it is read afresh. */
  lemma {:induction false} BlockCloses(cc: CharClass, v: string, cur: seq<string>, p: nat)
    requires Sane(cc) && p < |v| && ClosesAt(cc, v, p) && forall k :: 0 <= k < p ==> !ClosesAt(cc, v, k)
    ensures Settle(cc, FilterState(v, true, cur)) == Closed(cc, Concat(cur) + v[..p + 1], v[p + 1..])
    decreases |v|
  {
    hide ClosesAt, SegmentStep, Settle, Sane, Find, OccursAt, Concat, Closed;
    ClosesWithAngle(cc, v, p);
    FindChar(v, '>');
    var gt := Find(v, ">");
    FoundBy(v, '>', p);
    if gt == p {
      SegmentCloses(cc, v, cur, gt);
    } else {
      var rest, next := v[gt + 1..], cur + [v[..gt + 1]];
      SegmentJoins(cc, v, cur, gt);
      ClosesBehind(cc, v, rest, gt, p);
      BlockCloses(cc, rest, next, p - gt - 1);
      ConcatSnoc(cur, v[..gt + 1]);
      assert Concat(next) + rest[..p - gt] == Concat(cur) + v[..p + 1];
      assert rest[p - gt..] == v[p + 1..];
    }
  }

  lemma ClosesBehind(cc: CharClass, v: string, rest: string, gt: nat, p: nat)
    requires Sane(cc) && gt < p < |v| && v[gt] == '>' && rest == v[gt + 1..]
    requires ClosesAt(cc, v, p) && forall k :: 0 <= k < p ==> !ClosesAt(cc, v, k)
    ensures ClosesAt(cc, rest, p - gt - 1)
    ensures forall k :: 0 <= k < p - gt - 1 ==> !ClosesAt(cc, rest, k)
  {
    hide ClosesAt;
    forall k | 0 <= k < p - gt - 1 ensures !ClosesAt(cc, rest, k) {
      ClosesShift(cc, v, gt, gt + 1 + k);
    }
    ClosesShift(cc, v, gt, p);
  }

  ghost predicate StaysOpen(cc: CharClass, v: string) { forall k :: 0 <= k < |v| ==> !ClosesAt(cc, v, k) }

  lemma OpenBehind(cc: CharClass, v: string, rest: string, gt: nat, more: string)
    requires Sane(cc) && gt < |v| && v[gt] == '>' && rest == v[gt + 1..] && StaysOpen(cc, v)
    ensures StaysOpen(cc, rest) && !ClosesAt(cc, v, gt) && !ClosesAt(cc, v + more, gt)
  {
    hide Closing;
    forall k | 0 <= k < |rest| ensures !ClosesAt(cc, rest, k) {
      ClosesShift(cc, v, gt, gt + 1 + k);
    }
    assert (v + more)[..gt + 1] == v[..gt + 1];
  }

  /** Without such a tag nothing is emitted, all text is kept, and more text is read as if it had come at once. */
  lemma {:induction false} BlockStaysOpen(cc: CharClass, v: string, cur: seq<string>, more: string)
    requires Sane(cc) && StaysOpen(cc, v)
    ensures var f := Settle(cc, FilterState(v, true, cur));
            && f.out == "" && f.blocks == [] && f.state.suppressing
            && Concat(f.state.current + [f.state.buffer]) == Concat(cur) + v
            && Settle(cc, Longer(f.state, more)) == Settle(cc, FilterState(v + more, true, cur))
    decreases |v|
  {
    hide ClosesAt, Settle, SegmentStep, Sane, Find, Concat, StaysOpen;
    FindChar(v, '>');
    var gt := Find(v, ">");
    if gt == -1 {
      ConcatSnoc(cur, v);
      NoSegment(cc, v, cur);
    } else {
      var rest, next := v[gt + 1..], cur + [v[..gt + 1]];
      OpenBehind(cc, v, rest, gt, more);
      SegmentJoins(cc, v, cur, gt);
      SegmentWithMore(v, gt, more);
      SegmentJoins(cc, v + more, cur, gt);
      BlockStaysOpen(cc, rest, next, more);
      ConcatSnoc(cur, v[..gt + 1]);
      assert Concat(next) + rest == Concat(cur) + v;
    }
  }

  lemma NoSegment(cc: CharClass, v: string, cur: seq<string>)
    requires Find(v, ">") == -1
    ensures Settle(cc, FilterState(v, true, cur)) == Filtered("", [], FilterState(v, true, cur))
  {}

  /** The first segment does not change when more text follows. */
  lemma SegmentWithMore(v: string, gt: nat, more: string)
    requires gt == Find(v, ">") && gt < |v|
    ensures Find(v + more, ">") == gt && (v + more)[..gt + 1] == v[..gt + 1]
    ensures (v + more)[gt + 1..] == v[gt + 1..] + more
  {
    FindChar(v, '>');
    var w := v + more;
    assert w[gt] == '>' && w[..gt] == v[..gt];
    FirstChar(w, '>', gt);
    assert w[gt + 1..] == v[gt + 1..] + more;
    assert w[..gt + 1] == v[..gt + 1];
  }

  // ---------------------------------------------------------------- outside a block

  /** All of `x` at once, by a filter that remembers nothing. */
  function Reading(cc: CharClass, x: string): Filtered { Settle(cc, FilterState(x, false, [])) }

  function Said(x: string): Filtered { Filtered(x, [], FRESH) }

  lemma ReadingText(cc: CharClass, x: string)
    requires '<' !in x
    ensures Reading(cc, x) == Said(x)
  {
    FindChar(x, '<');
  }

  /** Text in front of a '<' is emitted, whatever follows. */
  lemma PlainFront(cc: CharClass, x: string, y: string)
    requires '<' !in x
    ensures Reading(cc, x + y) == Said(x).Then(Reading(cc, y))
  {
    if y == "" {
      ReadingText(cc, x);
      assert x + y == x;
    } else {
      hide Find, AngleStep;
      FindChar(y, '<');
      FindChar(x + y, '<');
      var lt := Find(y, "<");
      if lt == -1 {
        ReadingText(cc, x + y);
        ReadingText(cc, y);
      } else {
        assert (x + y)[..|x| + lt] == x + y[..lt];
        FirstChar(x + y, '<', |x| + lt);
        assert (x + y)[|x| + lt..] == y[lt..];
        FrontStep(cc, x, y, lt);
      }
    }
  }

  lemma FrontStep(cc: CharClass, x: string, y: string, lt: nat)
    requires lt < |y| && lt == Find(y, "<") && |x| + lt == Find(x + y, "<")
    requires (x + y)[..|x| + lt] == x + y[..lt] && (x + y)[|x| + lt..] == y[lt..]
    ensures Reading(cc, x + y) == Said(x).Then(Reading(cc, y))
  {
    hide AngleStep, Find;
    var (angle, more) := AngleStep(cc, y[lt..]);
    assert TextStep(cc, y) == (angle.(out := y[..lt] + angle.out), more);
    assert x + y[..lt] + angle.out == x + (y[..lt] + angle.out);
    assert TextStep(cc, x + y) == (angle.(out := x + (y[..lt] + angle.out)), more);
    if more {
      var next := Settle(cc, angle.state);
      assert x + (y[..lt] + angle.out) + next.out == x + (y[..lt] + angle.out + next.out);
    }
  }

  lemma AngleFirst(cc: CharClass, w: string)
    ensures TextStep(cc, "<" + w) == AngleStep(cc, "<" + w) && ("<" + w)[1..] == w
  {
    hide Find, AngleStep;
    var b := "<" + w;
    FirstChar(b, '<', 0);
    assert b[0..] == b && b[..0] == "";
    var (angle, more) := AngleStep(cc, b);
    assert "" + angle.out == angle.out;
  }

  /** What happens to a '<' with `w` behind it. */
  lemma AngleReading(cc: CharClass, w: string)
    ensures |w| < 2 || Judge(cc, w) == Undecided ==>
              Reading(cc, "<" + w) == Filtered("", [], FilterState("<" + w, false, []))
    ensures |w| >= 2 && Judge(cc, w) == Tool ==> Reading(cc, "<" + w) == Settle(cc, FilterState(w, true, ["<"]))
    ensures |w| >= 2 && Judge(cc, w) == Plain ==> Reading(cc, "<" + w) == Said("<").Then(Reading(cc, w))
  {
    hide Judge, Find, TextStep;
    AngleFirst(cc, w);
    var s := FilterState(w, true, ["<"]);
    NothingYet(Settle(cc, s), s);
  }

  // ---------------------------------------------------------------- what opens a tool call

  predicate Bare(name: string) {
    name == "invoke" || name == "tool_call" || name == "/invoke" || name == "/tool_call"
  }

  lemma BareOnes()
    ensures forall name :: name in TOOL_PREFIXES <==> Bare(name)
  {}

  lemma Starts(name: string, w: string, k: nat)
    requires k <= |name| && k <= |w| && StartsWith(w, name[..k])
    ensures forall i :: 0 <= i < k ==> w[i] == name[i]
  {
    assert forall i :: 0 <= i < k ==> w[..k][i] == name[..k][i];
  }

  lemma NameJudged(cc: CharClass, name: string, w: string)
    requires Bare(name)
    ensures StartsWith(w, name) ==> Judge(cc, w) == Tool
    ensures |w| < |name| && StartsWith(name, w) ==> Judge(cc, w) != Plain
  {
    BareOnes();
    hide Bare;
  }

  /** Text behind a '<' that starts with no such name. */
  predicate Unnamed(w: string) {
    && !StartsWith(w, "invoke") && !StartsWith(w, "tool_call")
    && !StartsWith(w, "/invoke") && !StartsWith(w, "/tool_call")
  }

  lemma Stripped(s: string)
    requires s != "" && s[0] != '/'
    ensures StripSlashes(s) == s && StripSlashes("/" + s) == s
  {
    assert ("/" + s)[1..] == s;
  }

  predicate Slash(s: string) { s == "" || s == "/" }

  lemma NamespaceJudged(cc: CharClass, slash: string, ns: string, rest: string)
    requires Sane(cc) && Namespace(cc, ns) && Slash(slash)
    ensures StartsWith(rest, "tool_call") ==> Judge(cc, slash + ns + ":" + rest) == Tool
    ensures |rest| < 9 && StartsWith("tool_call", rest) ==> Judge(cc, slash + ns + ":" + rest) != Plain
  {
    hide Find, StripSlashes, Judge, StartsWith;
    var check := ns + ":" + rest;
    var w := slash + ns + ":" + rest;
    assert ns[0] in ns && check[0] == ns[0];
    Stripped(check);
    assert w == if slash == "" then check else "/" + check;
    assert ':' !in ns && check[..|ns|] == ns && check[|ns| + 1..] == rest;
    FirstChar(check, ':', |ns|);
    assert w[|slash| + |ns|] == ':';
    JudgedByName(cc, w, check, rest);
  }

  lemma JudgedByName(cc: CharClass, w: string, check: string, after: string)
    requires ':' in w
    requires check == StripSlashes(w) && 0 < Find(check, ":") < 20 && after == check[Find(check, ":") + 1..]
    ensures StartsWith(after, "tool_call") ==> Judge(cc, w) == Tool
    ensures |after| < 9 && StartsWith("tool_call", after) ==> Judge(cc, w) != Plain
  {
    hide Judge, Find, StripSlashes, StartsWith;
    BareOnes();
    forall p | p in TOOL_PREFIXES ensures !StartsWith(p, w) { NamePart(p, w); }
    JudgedByColon(cc, w, check, after);
  }

  lemma JudgedByColon(cc: CharClass, w: string, check: string, after: string)
    requires forall p :: p in TOOL_PREFIXES ==> !StartsWith(p, w)
    requires check == StripSlashes(w) && 0 < Find(check, ":") < 20 && after == check[Find(check, ":") + 1..]
    ensures StartsWith(after, "tool_call") ==> Judge(cc, w) == Tool
    ensures |after| < 9 && StartsWith("tool_call", after) ==> Judge(cc, w) != Plain
  {
    hide Find, StripSlashes, StartsWith;
    assert |"tool_call"| == 9;
  }

  /** The names hold none of these characters. */
  lemma NamePart(name: string, w: string)
    requires Bare(name)
    ensures StartsWith(name, w) ==> '<' !in w && '>' !in w && ':' !in w
  {
    assert |w| <= |name| ==> forall k :: 0 <= k < |w| ==> name[..|w|][k] == name[k];
  }

  lemma NamespaceBegun(cc: CharClass, slash: string, ns: string)
    requires Sane(cc) && Namespace(cc, ns) && Slash(slash)
    ensures Judge(cc, slash + ns) != Plain
  {
    hide Judge, StripSlashes, Find;
    assert ns[0] in ns && ns[0] != '/';
    Stripped(ns);
    assert slash == "" ==> slash + ns == ns;
    FindChar(ns, ':');
    assert ':' !in ns;
    LettersJudged(cc, slash + ns, ns);
  }

  lemma LettersJudged(cc: CharClass, w: string, check: string)
    requires check == StripSlashes(w) && Find(check, ":") == -1 && Namespace(cc, check)
    ensures Judge(cc, w) != Plain
  {
    hide Find, StripSlashes, StartsWith;
  }

  lemma {:induction false} StrippedMore(w: string, y: string)
    ensures StripSlashes(w) != "" ==> StripSlashes(w + y) == StripSlashes(w) + y
  {
    if w != "" && w[0] == '/' {
      assert (w + y)[1..] == w[1..] + y;
      StrippedMore(w[1..], y);
    }
  }

  lemma PrefixMore(w: string, y: string, name: string)
    ensures StartsWith(w, name) ==> StartsWith(w + y, name)
    ensures StartsWith(name, w + y) ==> StartsWith(name, w)
  {
    assert |name| <= |w| ==> (w + y)[..|name|] == w[..|name|];
    assert |w + y| <= |name| && name[..|w + y|] == w + y ==> name[..|w|] == name[..|w + y|][..|w|] == w;
  }

  /** A namespace of a tool call stands in `check`, the text without its slashes. */
  predicate ByNamespace(check: string) {
    var colon := Find(check, ":");
    0 < colon < 20 && StartsWith(check[colon + 1..], "tool_call")
  }

  lemma ToolBy(cc: CharClass, w: string)
    ensures Judge(cc, w) == Tool <==>
              (exists p :: p in TOOL_PREFIXES && StartsWith(w, p)) ||
              (ByNamespace(StripSlashes(w)) && forall p :: p in TOOL_PREFIXES && |w| < |p| ==> !StartsWith(p, w))
  {
    hide Find, StripSlashes, StartsWith;
  }

  lemma NamespaceStays(w: string, y: string)
    requires ByNamespace(StripSlashes(w))
    ensures ByNamespace(StripSlashes(w + y))
  {
    var check := StripSlashes(w);
    hide StripSlashes;
    var colon := Find(check, ":");
    FindChar(check, ':');
    StrippedMore(w, y);
    assert (check + y)[..colon] == check[..colon] && (check + y)[colon] == ':';
    FirstChar(check + y, ':', colon);
    hide Find;
    assert (check + y)[colon + 1..] == check[colon + 1..] + y;
    PrefixMore(check[colon + 1..], y, "tool_call");
  }

  /** Once recognised, a tool call stays one with more text. */
  lemma ToolStays(cc: CharClass, w: string, y: string)
    requires Judge(cc, w) == Tool
    ensures Judge(cc, w + y) == Tool
  {
    hide Judge, ByNamespace, StripSlashes, StartsWith;
    ToolBy(cc, w);
    ToolBy(cc, w + y);
    forall p | p in TOOL_PREFIXES ensures (StartsWith(w, p) ==> StartsWith(w + y, p)) &&
                                          (StartsWith(p, w + y) ==> StartsWith(p, w)) {
      PrefixMore(w, y, p);
    }
    if ByNamespace(StripSlashes(w)) { NamespaceStays(w, y); }
  }

  lemma OpeningJudged(cc: CharClass, name: string, w: string)
    requires Sane(cc) && Opening(cc, name) && StartsWith(w, name)
    ensures |w| >= 2 && Judge(cc, w) == Tool
  {
    if Bare(name) {
      NameJudged(cc, name, w);
    } else {
      var ns :| Namespace(cc, ns) && (name == ns + ":tool_call" || name == "/" + ns + ":tool_call");
      WithNamespace(cc, if name == ns + ":tool_call" then "" else "/", ns, name, w);
    }
  }

  lemma WithNamespace(cc: CharClass, slash: string, ns: string, name: string, w: string)
    requires Sane(cc) && Namespace(cc, ns) && Slash(slash) && name == slash + ns + ":tool_call" && StartsWith(w, name)
    ensures |w| >= 2 && Judge(cc, w) == Tool
  {
    hide Judge, Sane, Slash, Namespace;
    assert StartsWith("tool_call", "tool_call");
    NamespaceJudged(cc, slash, ns, "tool_call");
    assert slash + ns + ":" + "tool_call" == name;
    ToolStays(cc, name, w[|name|..]);
    assert name + w[|name|..] == w;
  }

  lemma BeginJudged(cc: CharClass, name: string, w: string)
    requires Sane(cc) && Opening(cc, name) && |w| < |name| && StartsWith(name, w) && |w| >= 2
    ensures Judge(cc, w) != Plain
  {
    if Bare(name) {
      NameJudged(cc, name, w);
    } else {
      var ns :| Namespace(cc, ns) && (name == ns + ":tool_call" || name == "/" + ns + ":tool_call");
      NamespacePart(cc, if name == ns + ":tool_call" then "" else "/", ns, name, w);
    }
  }

  lemma NamespacePart(cc: CharClass, slash: string, ns: string, name: string, w: string)
    requires Sane(cc) && Namespace(cc, ns) && Slash(slash) && name == slash + ns + ":tool_call"
    requires 2 <= |w| < |name| && StartsWith(name, w)
    ensures Judge(cc, w) != Plain
  {
    hide Judge;
    var k := |slash| + |ns|;
    if |w| <= k {
      var part := ns[..|w| - |slash|];
      assert w == slash + part;
      NamespaceBegun(cc, slash, part);
    } else {
      var rest := "tool_call"[..|w| - k - 1];
      assert w == slash + ns + ":" + rest;
      NamespaceJudged(cc, slash, ns, rest);
    }
  }

  // ---------------------------------------------------------------- one block, however the stream is cut

  /** Reading `x` and then `y` is reading both at once. */
  predicate GoesOn(cc: CharClass, x: string, y: string) {
    Reading(cc, x).Then(Settle(cc, Longer(Reading(cc, x).state, y))) == Reading(cc, x + y)
  }

  predicate PrefixOf(x: string, w: string) { |x| <= |w| && w[..|x|] == x }

  /** `u` behind a '<' is a block and `after` the text behind it. */
  ghost predicate Block(cc: CharClass, name: string, u: string, after: string) {
    && Opening(cc, name) && StartsWith(u, name) && '<' !in after
    && (Whole(cc, u) || (StaysOpen(cc, u) && after == ""))
  }

  lemma HeldGoesOn(cc: CharClass, x: string, y: string)
    requires Reading(cc, x) == Filtered("", [], FilterState(x, false, []))
    ensures GoesOn(cc, x, y)
  {
    hide Settle;
    NothingYet(Reading(cc, x + y), FilterState(x, false, []));
  }

  lemma OpenGoesOn(cc: CharClass, x: string, y: string)
    requires Sane(cc) && |x| >= 2 && Judge(cc, x) == Tool && StaysOpen(cc, x)
    ensures GoesOn(cc, "<" + x, y)
  {
    hide Settle, Judge, StaysOpen, Filtered.Flush;
    ToolStays(cc, x, y);
    AngleReading(cc, x);
    AngleReading(cc, x + y);
    BlockStaysOpen(cc, x, ["<"], y);
    assert "<" + x + y == "<" + (x + y);
    NothingYet(Settle(cc, FilterState(x + y, true, ["<"])), Reading(cc, "<" + x).state);
  }

  /** A whole block is kept, and the text behind it emitted. */
  lemma WholeRead(cc: CharClass, u: string, a: string)
    requires Sane(cc) && |u| >= 2 && Judge(cc, u) == Tool && Whole(cc, u)
    ensures Reading(cc, "<" + u + a) == Filtered("", ["<" + u], FRESH).Then(Reading(cc, a))
  {
    hide Settle, Judge, ClosesAt;
    var w := u + a;
    ToolStays(cc, u, a);
    AngleReading(cc, w);
    assert "<" + u + a == "<" + w;
    forall k | 0 <= k < |u| ensures ClosesAt(cc, w, k) <==> ClosesAt(cc, u, k) {
      ClosesAlike(cc, u, a, k);
    }
    BlockCloses(cc, w, ["<"], |u| - 1);
    assert Concat(["<"]) == "<" && w[..|u|] == u && w[|u|..] == a;
  }

  lemma ClosesAlike(cc: CharClass, u: string, a: string, k: nat)
    requires k < |u|
    ensures ClosesAt(cc, u + a, k) <==> ClosesAt(cc, u, k)
  {
    hide Closing;
    assert (u + a)[..k + 1] == u[..k + 1];
  }

  lemma BlockDoneGoesOn(cc: CharClass, u: string, a: string, y: string)
    requires Sane(cc) && |u| >= 2 && Judge(cc, u) == Tool && Whole(cc, u) && '<' !in a
    ensures GoesOn(cc, "<" + u + a, y)
  {
    hide Settle, Judge, Whole, Sane;
    WholeRead(cc, u, a);
    WholeRead(cc, u, a + y);
    ReadingText(cc, a);
    PlainFront(cc, a, y);
    assert "<" + u + a + y == "<" + u + (a + y) && "" + y == y;
    ThenAssociative(Filtered("", ["<" + u], FRESH), Said(a), Reading(cc, y));
  }

  lemma PrefixJudged(cc: CharClass, name: string, x: string, w: string)
    requires Sane(cc) && Opening(cc, name) && StartsWith(w, name) && PrefixOf(x, w) && |x| >= 2
    ensures Judge(cc, x) != Plain
    ensures |x| >= |name| ==> Judge(cc, x) == Tool
  {
    hide Judge, Opening;
    if |x| >= |name| {
      assert x[..|name|] == w[..|name|];
      OpeningJudged(cc, name, x);
    } else {
      assert name[..|x|] == w[..|name|][..|x|] == x;
      BeginJudged(cc, name, x);
    }
  }

  lemma OpenPart(cc: CharClass, u: string, x: string)
    requires PrefixOf(x, u) && (StaysOpen(cc, u) || (Whole(cc, u) && |x| < |u|))
    ensures StaysOpen(cc, x)
  {
    hide ClosesAt;
    forall k | 0 <= k < |x| ensures !ClosesAt(cc, x, k) {
      assert x + u[|x|..] == u;
      ClosesAlike(cc, x, u[|x|..], k);
    }
  }

  lemma InsideGoesOn(cc: CharClass, name: string, u: string, after: string, x: string, y: string)
    requires Sane(cc) && Block(cc, name, u, after) && PrefixOf(x, u + after)
    ensures GoesOn(cc, "<" + x, y)
  {
    hide Judge, GoesOn, Whole, StaysOpen, Opening, Settle, Sane;
    assert StartsWith(u + after, name) by { assert (u + after)[..|name|] == u[..|name|]; }
    OpeningJudged(cc, name, u);
    if |x| >= 2 { PrefixJudged(cc, name, x, u + after); }
    AngleReading(cc, x);
    if |x| < 2 || Judge(cc, x) == Undecided {
      HeldGoesOn(cc, "<" + x, y);
    } else if |x| < |u| || !Whole(cc, u) {
      assert |x| >= |u| ==> u + after == u;
      assert x == u[..|x|];
      OpenPart(cc, u, x);
      OpenGoesOn(cc, x, y);
    } else {
      var a := x[|u|..];
      assert x == u + a && "<" + x == "<" + u + a && a == after[..|a|];
      BlockDoneGoesOn(cc, u, a, y);
    }
  }

  lemma FrontGoesOn(cc: CharClass, before: string, x: string, y: string)
    requires '<' !in before && GoesOn(cc, x, y)
    ensures GoesOn(cc, before + x, y)
  {
    hide Settle;
    PlainFront(cc, before, x);
    PlainFront(cc, before, x + y);
    assert before + x + y == before + (x + y);
    ThenAssociative(Said(before), Reading(cc, x), Settle(cc, Longer(Reading(cc, x).state, y)));
  }

  lemma TextGoesOn(cc: CharClass, x: string, y: string)
    requires '<' !in x
    ensures GoesOn(cc, x, y)
  {
    hide Settle;
    ReadingText(cc, x);
    PlainFront(cc, x, y);
    assert "" + y == y;
  }

  lemma BlockGoesOn(cc: CharClass, before: string, name: string, u: string, after: string, x: string, y: string)
    requires Sane(cc) && '<' !in before && Block(cc, name, u, after)
    requires PrefixOf(x, before + "<" + u + after)
    ensures GoesOn(cc, x, y)
  {
    hide Sane, Block, GoesOn;
    var all := before + "<" + u + after;
    if |x| <= |before| {
      assert x == before[..|x|];
      assert forall k :: 0 <= k < |x| ==> x[k] == before[k];
      assert '<' !in x;
      TextGoesOn(cc, x, y);
      assert GoesOn(cc, x, y);
    } else {
      var r := x[|before| + 1..];
      assert x[..|before|] == all[..|before|] == before && x[|before|] == all[|before|] == '<';
      assert x == before + ("<" + r);
      assert r == (u + after)[..|r|];
      InsideGoesOn(cc, name, u, after, r, y);
      FrontGoesOn(cc, before, "<" + r, y);
      assert GoesOn(cc, x, y);
    }
  }

  /** What comes in chunks is read as if it had come at once. */
  lemma {:induction false} BlockChunks(cc: CharClass, before: string, name: string, u: string, after: string,
                                       chunks: seq<string>)
    requires Sane(cc) && '<' !in before && Block(cc, name, u, after)
    requires PrefixOf(Concat(chunks), before + "<" + u + after)
    ensures FilterAll(cc, FRESH, chunks) == Reading(cc, Concat(chunks))
  {
    hide Sane, Block, Settle;
    ReadingText(cc, "");
    if chunks != [] {
      var n := |chunks| - 1;
      var x, y := Concat(chunks[..n]), chunks[n];
      ConcatSnoc(chunks[..n], y);
      assert chunks == chunks[..n] + [y];
      var all := before + "<" + u + after;
      assert all[..|x|] == all[..|x + y|][..|x|] == x;
      BlockChunks(cc, before, name, u, after, chunks[..n]);
      BlockGoesOn(cc, before, name, u, after, x, y);
    }
  }

  /** A block whose '<' is followed by one of the names is kept off the text and recorded, up to the
      first tag that closes it; the text around it is emitted, wherever the stream is cut. */
  lemma BlockKeptOff(cc: CharClass, before: string, name: string, u: string, after: string, chunks: seq<string>)
    requires Sane(cc) && '<' !in before && '<' !in after
    requires Opening(cc, name) && StartsWith(u, name) && Whole(cc, u)
    requires Concat(chunks) == before + "<" + u + after
    ensures FilterAll(cc, FRESH, chunks).Flush() == (before + after, ["<" + u])
  {
    hide Opening, Whole, Settle, Judge;
    var all := before + "<" + u + after;
    assert all[..|all|] == all;
    BlockChunks(cc, before, name, u, after, chunks);
    OpeningJudged(cc, name, u);
    WholeRead(cc, u, after);
    assert all == before + ("<" + u + after);
    PlainFront(cc, before, "<" + u + after);
    ReadingText(cc, after);
    assert before + ("" + after) + "" == before + after;
    assert [] + (["<" + u] + []) == ["<" + u];
  }

  /** A block that nothing closes is recorded when the stream ends. */
  lemma OpenBlockKeptOff(cc: CharClass, before: string, name: string, u: string, chunks: seq<string>)
    requires Sane(cc) && '<' !in before
    requires Opening(cc, name) && StartsWith(u, name) && StaysOpen(cc, u)
    requires Concat(chunks) == before + "<" + u
    ensures FilterAll(cc, FRESH, chunks).Flush() == (before, ["<" + u])
  {
    hide Opening, StaysOpen, Settle, Judge;
    var all := before + "<" + u + "";
    assert all[..|all|] == all == before + "<" + u;
    BlockChunks(cc, before, name, u, "", chunks);
    OpeningJudged(cc, name, u);
    AngleReading(cc, u);
    BlockStaysOpen(cc, u, ["<"], "");
    assert all == before + ("<" + u);
    PlainFront(cc, before, "<" + u);
    var f := Settle(cc, FilterState(u, true, ["<"]));
    assert FilterAll(cc, FRESH, chunks) == Said(before).Then(f);
    assert u + "" == u && before + "" == before;
    assert Concat(["<"]) == "<";
    assert [] + f.blocks + ["<" + u] == ["<" + u];
  }

  /** A closing tag that closes nothing opens a block: the text behind it is kept off with it. */
  lemma StrayCloseKeepsOff(cc: CharClass, before: string, after: string, chunks: seq<string>)
    requires Sane(cc) && '<' !in before && '>' !in after
    requires Concat(chunks) == before + "</invoke>" + after
    ensures FilterAll(cc, FRESH, chunks).Flush() == (before, ["</invoke>" + after])
  {
    var u := "/invoke>" + after;
    forall k | 0 <= k < |u| ensures !ClosesAt(cc, u, k) { StrayStaysOpen(cc, after, k); }
    assert "<" + u == "</invoke>" + after;
    assert before + "<" + u == before + "</invoke>" + after;
    assert u[..7] == "/invoke";
    hide ClosesAt;
    OpenBlockKeptOff(cc, before, "/invoke", u, chunks);
  }

  lemma StrayStaysOpen(cc: CharClass, after: string, k: nat)
    requires '>' !in after && k < |after| + 8
    ensures !ClosesAt(cc, "/invoke>" + after, k)
  {
    var u := "/invoke>" + after;
    if k == 7 {
      assert u[..8] == "/invoke>" && "/invoke>"[6..] == "e>" && "e>"[0] != "/>"[0];
    } else {
      assert u[k] == if k < 7 then "/invoke>"[k] else after[k - 8];
      NoAngleNoClose(cc, u, k);
    }
  }

  lemma NoAngleNoClose(cc: CharClass, v: string, k: nat)
    requires k < |v| && v[k] != '>'
    ensures !ClosesAt(cc, v, k)
  {
    if ClosesAt(cc, v, k) { ClosesWithAngle(cc, v, k); }
  }
}
