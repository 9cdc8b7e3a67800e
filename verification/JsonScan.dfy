/** Brace-counting search for JSON objects in free text, and cutting the found spans out. */
module JsonScan {
  import opened Wrappers

  // ---------------------------------------------------------------- reference syntax

  /** One character of a string body, or an escape sequence (string syntax of section 7 of RFC 8259). */
  datatype StrChar = Unescaped(c: char) | Escaped(c: char)

  /** Brace-structured text: other characters, string literals, and nested groups. */
  datatype Item = Other(c: char) | Literal(body: seq<StrChar>) | Group(items: Items)
  datatype Items = Nil | Cons(head: Item, tail: Items)

  function RenderBody(body: seq<StrChar>): string {
    if body == [] then ""
    else (if body[0].Escaped? then ['\\', body[0].c] else [body[0].c]) + RenderBody(body[1..])
  }

  function RenderItem(item: Item): string {
    match item
    case Other(c) => [c]
    case Literal(body) => ['"'] + RenderBody(body) + ['"']
    case Group(items) => ['{'] + RenderItems(items) + ['}']
  }

  function RenderItems(items: Items): string {
    match items
    case Nil => ""
    case Cons(h, t) => RenderItem(h) + RenderItems(t)
  }

  predicate LegalBody(body: seq<StrChar>) {
    forall s :: s in body && s.Unescaped? ==> s.c != '"' && s.c != '\\'
  }

  predicate LegalItem(item: Item) {
    match item
    case Other(c) => c != '{' && c != '}' && c != '"'
    case Literal(body) => LegalBody(body)
    case Group(items) => Legal(items)
  }

  predicate Legal(items: Items) {
    match items
    case Nil => true
    case Cons(h, t) => LegalItem(h) && Legal(t)
  }

  /** `text[i..e]` is a brace group: it runs from a '{' to its matching '}'. */
  ghost predicate IsGroup(text: string, i: int, e: int) {
    0 <= i <= e <= |text| && exists items :: Legal(items) && text[i..e] == RenderItem(Group(items))
  }

  // ---------------------------------------------------------------- the scanner

  /** Where the scan that has read `text` up to `j` meets depth 0 again: the index after that
      '}', or -1 when the text ends first. */
  function CloseOf(text: string, j: nat, depth: int, inString: bool, escape: bool): (e: int)
    requires j <= |text|
    ensures e == -1 || j < e <= |text|
    decreases |text| - j
  {
    if j == |text| then -1
    else
      var ch := text[j];
      if escape then CloseOf(text, j + 1, depth, inString, false)
      else if ch == '\\' then CloseOf(text, j + 1, depth, inString, inString)
      else if ch == '"' then CloseOf(text, j + 1, depth, !inString, false)
      else if !inString && ch == '{' then CloseOf(text, j + 1, depth + 1, false, false)
      else if !inString && ch == '}' then
        if depth == 1 then j + 1 else CloseOf(text, j + 1, depth - 1, false, false)
      else CloseOf(text, j + 1, depth, inString, false)
  }

  datatype Span<J> = Span(start: nat, end: nat, obj: J)

  /** The brace groups found at the top level from `i` on, parsable or not. */
  function Groups(text: string, i: nat): (groups: seq<(nat, nat)>)
    requires i <= |text|
    ensures forall g :: g in groups ==> g.0 < g.1 <= |text|
    decreases |text| - i
  {
    if i == |text| then []
    else if text[i] != '{' then Groups(text, i + 1)
    else
      var e := CloseOf(text, i, 0, false, false);
      if e == -1 then [] else [(i, e)] + Groups(text, e)
  }

  /** The groups that parse to an object, with what they parse to. */
  function Parsed<J>(text: string, parse: string -> Option<J>, groups: seq<(nat, nat)>): seq<Span<J>>
    requires forall g :: g in groups ==> g.0 < g.1 <= |text|
  {
    if groups == [] then []
    else
      var g := groups[0];
      var p := parse(text[g.0..g.1]);
      (if p.Some? then [Span(g.0, g.1, p.value)] else []) + Parsed(text, parse, groups[1..])
  }

  /** Non-empty, in order, without overlap, between `from` and the end of the text. */
  predicate Ordered(groups: seq<(nat, nat)>, from: nat, length: nat) {
    && (forall k :: 0 <= k < |groups| ==> from <= groups[k].0 < groups[k].1 <= length)
    && (forall k, l :: 0 <= k < l < |groups| ==> groups[k].1 <= groups[l].0)
  }

  lemma {:induction false} GroupsOrdered(text: string, i: nat)
    requires i <= |text|
    ensures Ordered(Groups(text, i), i, |text|)
    decreases |text| - i
  {
    if i < |text| && text[i] != '{' {
      GroupsOrdered(text, i + 1);
    } else if i < |text| {
      var e := CloseOf(text, i, 0, false, false);
      if e != -1 { GroupsOrdered(text, e); }
    }
  }

  /** The inner loop: `j` is the index of the '}' that closes the group at `i`, or the text's length. */
  method ScanGroup(text: string, i: nat) returns (j: nat)
    requires i < |text| && text[i] == '{'
    ensures var e := CloseOf(text, i, 0, false, false);
            if e == -1 then j == |text| else j + 1 == e
  {
    var depth, inString, escapeNext := 0, false, false;
    j := i;
    while j < |text|
      invariant i <= j <= |text|
      invariant CloseOf(text, i, 0, false, false) == CloseOf(text, j, depth, inString, escapeNext)
    {
      var ch := text[j];
      if escapeNext {
        escapeNext := false;
      } else if ch == '\\' {
        if inString { escapeNext := true; }
      } else if ch == '"' {
        inString := !inString;
      } else if !inString {
        if ch == '{' {
          depth := depth + 1;
        } else if ch == '}' {
          depth := depth - 1;
          if depth == 0 {
            return;
          }
        }
      }
      j := j + 1;
    }
  }

  method FindTopLevelJsonObjects<J>(text: string, parse: string -> Option<J>) returns (results: seq<Span<J>>)
    ensures Ordered(Groups(text, 0), 0, |text|)
    ensures results == Parsed(text, parse, Groups(text, 0))
  {
    hide CloseOf, Parsed;
    results := [];
    GroupsOrdered(text, 0);
    var i := 0;
    while i < |text|
      invariant if i <= |text|
                then results + Parsed(text, parse, Groups(text, i)) == Parsed(text, parse, Groups(text, 0))
                else results == Parsed(text, parse, Groups(text, 0))
      decreases |text| - i
    {
      if text[i] == '{' {
        var j := ScanGroup(text, i);
        if j < |text| {
          ParsedFirst(text, parse, i, j + 1);
          var candidate := parse(text[i..j + 1]);
          if candidate.Some? {
            results := results + [Span(i, j + 1, candidate.value)];
          }
        } else {
          ParsedNone(text, parse);
        }
        i := j + 1;
      } else {
        i := i + 1;
      }
    }
    ParsedNone(text, parse);
  }

  lemma ParsedNone<J>(text: string, parse: string -> Option<J>)
    ensures Parsed(text, parse, []) == []
  {}

  lemma ParsedFirst<J>(text: string, parse: string -> Option<J>, i: nat, e: nat)
    requires i < |text| && text[i] == '{' && CloseOf(text, i, 0, false, false) == e
    ensures var p := parse(text[i..e]);
            Parsed(text, parse, Groups(text, i))
              == (if p.Some? then [Span(i, e, p.value)] else []) + Parsed(text, parse, Groups(text, e))
  {
    hide CloseOf;
    var gs := Groups(text, i);
    assert gs == [(i, e)] + Groups(text, e);
    assert gs[1..] == Groups(text, e);
  }

  // ---------------------------------------------------------------- the scanner finds exactly the groups

  /** `w` stands in `text` at `j`. */
  predicate At(text: string, j: nat, w: string) { j + |w| <= |text| && text[j..j + |w|] == w }

  lemma AtParts(text: string, j: nat, a: string, b: string)
    requires At(text, j, a + b)
    ensures At(text, j, a) && At(text, j + |a|, b)
    ensures a != "" ==> text[j] == a[0]
  {
    var w := a + b;
    assert text[j..j + |a|] == text[j..j + |w|][..|a|] == w[..|a|] == a;
    assert text[j + |a|..j + |a| + |b|] == text[j..j + |w|][|a|..] == w[|a|..] == b;
    if a != "" { assert text[j] == text[j..j + |a|][0]; }
  }

  /** Scanning over a string body leaves the string open. */
  lemma {:induction false} ScanBody(text: string, j: nat, depth: int, body: seq<StrChar>)
    requires LegalBody(body) && At(text, j, RenderBody(body))
    ensures CloseOf(text, j, depth, true, false) == CloseOf(text, j + |RenderBody(body)|, depth, true, false)
    decreases |body|
  {
    hide CloseOf, At;
    AtWithin(text, j, RenderBody(body));
    if body != [] {
      var first, rest := body[0], RenderBody(body[1..]);
      assert first in body;
      AtWithin(text, j, RenderBody(body));
      if first.Escaped? {
        AtParts(text, j, ['\\'], [first.c] + rest) by { assert ['\\', first.c] + rest == ['\\'] + ([first.c] + rest); }
        AtParts(text, j + 1, [first.c], rest);
        OverEscape(text, j, depth);
        ScanBody(text, j + 2, depth, body[1..]);
      } else {
        AtParts(text, j, [first.c], rest);
        OverStringChar(text, j, depth);
        ScanBody(text, j + 1, depth, body[1..]);
      }
    }
  }

  lemma OverEscape(text: string, j: nat, depth: int)
    requires j + 1 < |text| && text[j] == '\\'
    ensures CloseOf(text, j, depth, true, false) == CloseOf(text, j + 2, depth, true, false)
  {}

  lemma OverStringChar(text: string, j: nat, depth: int)
    requires j < |text| && text[j] != '\\' && text[j] != '"'
    ensures CloseOf(text, j, depth, true, false) == CloseOf(text, j + 1, depth, true, false)
  {}

  /** Scanning over complete items inside a group comes back to the same depth. */
  lemma {:induction false} ScanItems(text: string, j: nat, depth: int, items: Items)
    requires depth >= 1 && Legal(items) && At(text, j, RenderItems(items))
    ensures CloseOf(text, j, depth, false, false) == CloseOf(text, j + |RenderItems(items)|, depth, false, false)
    decreases items
  {
    hide CloseOf, At;
    if items.Cons? {
      AtParts(text, j, RenderItem(items.head), RenderItems(items.tail));
      AtWithin(text, j, RenderItem(items.head));
      ScanItem(text, j, depth, items.head);
      ScanItems(text, j + |RenderItem(items.head)|, depth, items.tail);
    }
    AtWithin(text, j, RenderItems(items));
  }

  lemma AtWithin(text: string, j: nat, w: string)
    requires At(text, j, w)
    ensures j + |w| <= |text|
  {}

  lemma {:induction false} ScanItem(text: string, j: nat, depth: int, item: Item)
    requires depth >= 1 && LegalItem(item) && At(text, j, RenderItem(item))
    ensures CloseOf(text, j, depth, false, false) == CloseOf(text, j + |RenderItem(item)|, depth, false, false)
    decreases item
  {
    hide At, LegalBody, RenderBody, RenderItems;
    match item
    case Other(c) =>
      AtChar(text, j, c);
    case Literal(body) =>
      AtWrapped(text, j, '"', RenderBody(body), '"');
      ScanBody(text, j + 1, depth, body);
    case Group(items) =>
      AtWrapped(text, j, '{', RenderItems(items), '}');
      ScanItems(text, j + 1, depth + 1, items);
  }

  lemma AtChar(text: string, j: nat, c: char)
    requires At(text, j, [c])
    ensures j < |text| && text[j] == c
  {
    AtParts(text, j, [c], "") by { assert [c] + "" == [c]; }
  }

  lemma AtWrapped(text: string, j: nat, open: char, b: string, close: char)
    requires At(text, j, [open] + b + [close])
    ensures At(text, j + 1, b) && j + |b| + 2 <= |text| && text[j] == open && text[j + 1 + |b|] == close
  {
    AtParts(text, j, [open], b + [close]) by { assert [open] + b + [close] == [open] + (b + [close]); }
    AtParts(text, j + 1, b, [close]);
    AtChar(text, j + 1 + |b|, close);
  }

  /** A brace group at `i` is closed where it ends. */
  lemma GroupCloses(text: string, i: nat, e: nat)
    requires IsGroup(text, i, e)
    ensures CloseOf(text, i, 0, false, false) == e
  {
    var items :| Legal(items) && text[i..e] == RenderItem(Group(items));
    AtWrapped(text, i, '{', RenderItems(items), '}');
    ScanItems(text, i + 1, 1, items);
  }

  /** Inside a string, a scan that ends at all passes its closing quote; this is what it read up to there. */
  lemma {:induction false} ReadBody(text: string, j: nat, depth: int) returns (body: seq<StrChar>, q: nat)
    requires j <= |text| && CloseOf(text, j, depth, true, false) != -1
    ensures LegalBody(body) && j <= q < |text| && text[q] == '"' && text[j..q] == RenderBody(body)
    ensures CloseOf(text, j, depth, true, false) == CloseOf(text, q + 1, depth, false, false)
    decreases |text| - j
  {
    var ch := text[j];
    if ch == '"' {
      body, q := [], j;
    } else {
      var first, n := Unescaped(ch), 1;
      if ch == '\\' { first, n := Escaped(text[j + 1]), 2; }
      var rest;
      rest, q := ReadBody(text, j + n, depth);
      body := [first] + rest;
      assert body[1..] == rest;
      assert text[j..q] == text[j..j + n] + text[j + n..q];
    }
  }

  /** The item lists of all groups open at some point, innermost first, each followed by its '}'. */
  function RenderLevels(levels: seq<Items>): string {
    if levels == [] then "" else RenderItems(levels[0]) + ['}'] + RenderLevels(levels[1..])
  }

  predicate LegalLevels(levels: seq<Items>) { forall l :: l in levels ==> Legal(l) }

  /** What a scan at depth `depth` reads until it closes: the rest of each of the open groups. */
  lemma {:induction false} ReadLevels(text: string, j: nat, depth: nat, e: nat) returns (levels: seq<Items>)
    requires depth >= 1 && j <= |text| && CloseOf(text, j, depth, false, false) == e
    ensures e <= |text| && |levels| == depth && LegalLevels(levels) && text[j..e] == RenderLevels(levels)
    decreases |text| - j
  {
    hide RenderLevels;
    var ch := text[j];
    if ch == '}' && depth == 1 {
      levels := Close([]);
      assert text[j..e] == ['}'] + RenderLevels([]) by { NoLevels(); }
    } else if ch == '}' {
      var rest := ReadLevels(text, j + 1, depth - 1, e);
      levels := Close(rest);
      assert text[j..e] == [ch] + text[j + 1..e];
    } else if ch == '{' {
      var rest := ReadLevels(text, j + 1, depth + 1, e);
      levels := FoldInner(rest);
      assert text[j..e] == [ch] + text[j + 1..e];
    } else if ch == '"' {
      var body, q := ReadBody(text, j + 1, depth);
      var rest := ReadLevels(text, q + 1, depth, e);
      levels := Prepend(Literal(body), rest);
      LiteralFirst(text, j, q, e, body);
    } else {
      var rest := ReadLevels(text, j + 1, depth, e);
      levels := Prepend(Other(ch), rest);
      assert text[j..e] == [ch] + text[j + 1..e];
    }
  }

  lemma LiteralFirst(text: string, j: nat, q: nat, e: nat, body: seq<StrChar>)
    requires j < q < e <= |text| && text[j] == text[q] == '"' && text[j + 1..q] == RenderBody(body)
    ensures text[j..e] == RenderItem(Literal(body)) + text[q + 1..e]
  {
    assert text[j..e] == text[j..q + 1] + text[q + 1..e];
    assert text[j..q + 1] == ['"'] + text[j + 1..q] + ['"'];
  }

  lemma NoLevels()
    ensures RenderLevels([]) == ""
  {}

  lemma Close(rest: seq<Items>) returns (levels: seq<Items>)
    requires LegalLevels(rest)
    ensures |levels| == |rest| + 1 && LegalLevels(levels)
    ensures RenderLevels(levels) == ['}'] + RenderLevels(rest)
  {
    levels := [Nil] + rest;
    assert levels[1..] == rest;
    assert RenderItems(Nil) + ['}'] == ['}'];
  }

  lemma Prepend(item: Item, rest: seq<Items>) returns (levels: seq<Items>)
    requires LegalItem(item) && rest != [] && LegalLevels(rest)
    ensures |levels| == |rest| && LegalLevels(levels)
    ensures RenderLevels(levels) == RenderItem(item) + RenderLevels(rest)
  {
    levels := [Cons(item, rest[0])] + rest[1..];
    assert levels[1..] == rest[1..];
    assert Legal(rest[0]);
  }

  /** The group opened last becomes an item of the one around it. */
  lemma FoldInner(rest: seq<Items>) returns (levels: seq<Items>)
    requires |rest| >= 2 && LegalLevels(rest)
    ensures |levels| == |rest| - 1 && LegalLevels(levels)
    ensures RenderLevels(levels) == ['{'] + RenderLevels(rest)
  {
    assert Legal(rest[0]);
    assert LegalLevels(rest[1..]);
    levels := Prepend(Group(rest[0]), rest[1..]);
  }

  /** The scan closes at `e` exactly when the text from `i` to `e` is a brace group; there is at
      most one such `e`, and no group starts at `i` when the scan runs off the text. */
  lemma CloseIsMatchingBrace(text: string, i: nat, e: nat)
    requires i < |text| && text[i] == '{'
    ensures CloseOf(text, i, 0, false, false) == e <==> IsGroup(text, i, e)
  {
    if CloseOf(text, i, 0, false, false) == e {
      var levels := ReadLevels(text, i + 1, 1, e);
      var items := levels[0];
      assert Legal(items);
      assert levels[1..] == [];
      assert text[i..e] == ['{'] + text[i + 1..e];
      assert text[i..e] == RenderItem(Group(items));
    }
    if IsGroup(text, i, e) { GroupCloses(text, i, e); }
  }

  /** `k` lies inside one of the groups. */
  predicate Inside(groups: seq<(nat, nat)>, k: int) {
    exists g :: g in groups && g.0 <= k < g.1
  }

  /** Items that the search passes over at the top level: characters other than '{', and brace groups. */
  predicate PassedOver(items: Items) {
    match items
    case Nil => true
    case Cons(Other(c), t) => c != '{' && PassedOver(t)
    case Cons(Group(inner), t) => Legal(inner) && PassedOver(t)
    case Cons(Literal(_), _) => false
  }

  /** `text[i..u]` is a sequence of such characters and brace groups. */
  ghost predicate Skims(text: string, i: int, u: int) {
    0 <= i <= u <= |text| && exists items :: PassedOver(items) && text[i..u] == RenderItems(items)
  }

  /** After nothing but characters and brace groups comes a '{' that starts no brace group. */
  ghost predicate GivesUpAt(text: string, i: nat, u: int) {
    i <= u < |text| && text[u] == '{' && Skims(text, i, u) && forall e :: !IsGroup(text, u, e)
  }

  ghost predicate GaveUpBy(text: string, i: nat, k: int) { exists u :: u <= k && GivesUpAt(text, i, u) }

  lemma SkimNothing(text: string, i: nat)
    requires i <= |text|
    ensures Skims(text, i, i)
  {
    assert PassedOver(Nil) && text[i..i] == RenderItems(Nil);
  }

  lemma SkimMore(text: string, i: nat, m: nat, u: nat, head: Item)
    requires PassedOver(Cons(head, Nil)) && i <= m <= |text| && text[i..m] == RenderItem(head) && Skims(text, m, u)
    ensures Skims(text, i, u)
  {
    var tail :| PassedOver(tail) && text[m..u] == RenderItems(tail);
    assert text[i..u] == text[i..m] + text[m..u];
    assert PassedOver(Cons(head, tail)) && text[i..u] == RenderItems(Cons(head, tail));
  }

  /** What is passed over first: one character other than '{', or a brace group. */
  lemma SkimFirst(text: string, i: nat, u: nat) returns (m: nat)
    requires Skims(text, i, u) && i < u
    ensures Skims(text, m, u)
    ensures if text[i] == '{' then IsGroup(text, i, m) else m == i + 1
  {
    var items :| PassedOver(items) && text[i..u] == RenderItems(items);
    assert items != Nil;
    var head, tail := items.head, items.tail;
    var r := RenderItem(head);
    m := i + |r|;
    assert text[i..u] == r + RenderItems(tail);
    assert text[i..m] == text[i..u][..|r|] == r;
    assert text[m..u] == text[i..u][|r|..] == RenderItems(tail);
    assert text[i] == text[i..u][0] == r[0];
  }

  /** Passing over a character, or over a brace group, the search goes on behind it. */
  lemma GivesUpNext(text: string, i: nat, next: nat)
    requires i < |text| && i < next <= |text|
    requires if text[i] == '{' then IsGroup(text, i, next) else next == i + 1
    ensures forall u :: GivesUpAt(text, i, u) <==> GivesUpAt(text, next, u)
  {
    forall u ensures GivesUpAt(text, i, u) <==> GivesUpAt(text, next, u) {
      if GivesUpAt(text, i, u) && u > i {
        var m := SkimFirst(text, i, u);
        GroupEnd(text, i, m);
        GroupEnd(text, i, next);
      }
      if GivesUpAt(text, next, u) { SkimOver(text, i, next, u); }
    }
  }

  lemma SkimOver(text: string, i: nat, next: nat, u: nat)
    requires i < |text| && i < next <= |text| && Skims(text, next, u)
    requires if text[i] == '{' then IsGroup(text, i, next) else next == i + 1
    ensures Skims(text, i, u)
  {
    if text[i] == '{' {
      var inner :| Legal(inner) && text[i..next] == RenderItem(Group(inner));
      SkimMore(text, i, next, u, Group(inner));
    } else {
      assert text[i..next] == RenderItem(Other(text[i]));
      SkimMore(text, i, next, u, Other(text[i]));
    }
  }

  lemma NeverCloses(text: string, u: nat)
    requires u < |text| && text[u] == '{'
    ensures CloseOf(text, u, 0, false, false) == -1 <==> forall e :: !IsGroup(text, u, e)
  {
    hide CloseOf, IsGroup;
    forall e: int ensures IsGroup(text, u, e) ==> CloseOf(text, u, 0, false, false) == e >= 0 { GroupEnd(text, u, e); }
    var c := CloseOf(text, u, 0, false, false);
    CloseRange(text, u);
    if c != -1 { CloseIsMatchingBrace(text, u, c); }
  }

  lemma CloseRange(text: string, u: nat)
    requires u <= |text|
    ensures -1 <= CloseOf(text, u, 0, false, false) <= |text|
  {}

  lemma GroupEnd(text: string, u: nat, e: int)
    ensures IsGroup(text, u, e) ==> CloseOf(text, u, 0, false, false) == e >= 0
  {
    if IsGroup(text, u, e) { GroupCloses(text, u, e); }
  }

  /** With a first group `(i, e)`, being inside is being in it or in a later one. */
  lemma InsideFirst(text: string, i: nat, e: nat)
    requires i < e <= |text| && Groups(text, i) == [(i, e)] + Groups(text, e)
    ensures forall k :: Inside(Groups(text, i), k) <==> i <= k < e || Inside(Groups(text, e), k)
  {
    hide Groups;
    var gs, rest := Groups(text, i), Groups(text, e);
    assert gs[0] == (i, e);
    forall k ensures Inside(gs, k) <==> i <= k < e || Inside(rest, k) {
      if g :| g in rest && g.0 <= k < g.1 { assert g in gs; }
    }
  }

  lemma GaveUpNext(text: string, i: nat, next: nat)
    requires i < |text| && i < next <= |text|
    requires if text[i] == '{' then IsGroup(text, i, next) else next == i + 1
    ensures forall k :: GaveUpBy(text, i, k) <==> GaveUpBy(text, next, k)
    ensures forall k :: GaveUpBy(text, next, k) ==> k >= next
  {
    GivesUpNext(text, i, next);
    assert forall u :: GivesUpAt(text, next, u) ==> u >= next;
    hide GivesUpAt;
  }

  /** All reported groups are brace groups, and a '{' stands outside them exactly when it is, or comes
      after, one that starts no brace group and is reached over characters and brace groups only: there
      the search gives up for good. */
  lemma {:induction false} GroupsAreExact(text: string, i: nat)
    requires i <= |text|
    ensures forall g :: g in Groups(text, i) ==> IsGroup(text, g.0, g.1)
    ensures forall k :: i <= k < |text| && text[k] == '{' ==>
              (!Inside(Groups(text, i), k) <==> GaveUpBy(text, i, k))
    decreases |text| - i
  {
    if i < |text| && text[i] != '{' {
      GroupsAreExact(text, i + 1);
      GaveUpNext(text, i, i + 1);
      assert Groups(text, i) == Groups(text, i + 1);
      hide CloseOf, IsGroup, Groups, Inside, GaveUpBy;
    } else if i < |text| {
      NeverCloses(text, i);
      var e := CloseOf(text, i, 0, false, false);
      if e == -1 {
        SkimNothing(text, i);
        hide CloseOf, IsGroup, Skims;
        assert GivesUpAt(text, i, i);
        forall k | i <= k ensures GaveUpBy(text, i, k) {}
      } else {
        CloseIsMatchingBrace(text, i, e);
        GroupsAreExact(text, e);
        assert Groups(text, i) == [(i, e)] + Groups(text, e);
        GaveUpNext(text, i, e);
        InsideFirst(text, i, e);
        hide CloseOf, IsGroup, Groups, GaveUpBy, Inside;
      }
    }
  }

  /** A brace that is never closed hides the object after it. */
  lemma UnclosedHidesObject()
    ensures Groups("{ {}", 0) == [] && IsGroup("{ {}", 2, 4)
  {
    var text := "{ {}";
    assert CloseOf(text, 4, 1, false, false) == -1;
    assert CloseOf(text, 3, 2, false, false) == -1;
    assert CloseOf(text, 2, 1, false, false) == -1;
    assert CloseOf(text, 1, 1, false, false) == -1;
    assert CloseOf(text, 0, 0, false, false) == -1;
    assert CloseOf(text, 3, 1, false, false) == 4;
    assert CloseOf(text, 2, 0, false, false) == 4;
    CloseIsMatchingBrace(text, 2, 4);
  }

  /** A brace inside a string counts for nothing. */
  lemma StringBraceSkipped()
    ensures Groups("{\"{\"}{}", 0) == [(0, 5), (5, 7)]
  {
    var text := "{\"{\"}{}";
    assert CloseOf(text, 4, 1, false, false) == 5;
    assert CloseOf(text, 3, 1, true, false) == 5;
    assert CloseOf(text, 2, 1, true, false) == 5;
    assert CloseOf(text, 1, 1, false, false) == 5;
    assert CloseOf(text, 0, 0, false, false) == 5;
    assert CloseOf(text, 6, 1, false, false) == 7;
    assert CloseOf(text, 5, 0, false, false) == 7;
    assert Groups(text, 5) == [(5, 7)] + Groups(text, 7) == [(5, 7)];
    assert Groups(text, 0) == [(0, 5)] + Groups(text, 5);
  }

  // ---------------------------------------------------------------- cutting spans out

  predicate OrderedSpans<J>(spans: seq<Span<J>>, length: nat) {
    && (forall k :: 0 <= k < |spans| ==> spans[k].start < spans[k].end <= length)
    && (forall k, l :: 0 <= k < l < |spans| ==> spans[k].end <= spans[l].start)
  }

  /** The text from `from` on without the chosen spans, read left to right. */
  function Outside<J>(text: string, spans: seq<Span<J>>, choose: Span<J> -> bool, from: nat): string
    requires from <= |text| && OrderedSpans(spans, |text|) && (spans != [] ==> from <= spans[0].start)
  {
    if spans == [] then text[from..]
    else if choose(spans[0]) then
      text[from..spans[0].start] + Outside(text, spans[1..], choose, spans[0].end)
    else Outside(text, spans[1..], choose, from)
  }

  lemma SliceJoins(text: string, from: nat, mid: nat, until: nat)
    requires from <= mid <= until <= |text|
    ensures text[from..until] == text[from..mid] + text[mid..until]
  {}

  lemma TailOrdered<J>(spans: seq<Span<J>>, length: nat)
    requires OrderedSpans(spans, length) && spans != []
    ensures OrderedSpans(spans[1..], length) && spans[0].start < spans[0].end <= length
    ensures |spans| > 1 ==> spans[0].end <= spans[1].start
  {}

  lemma {:induction false} OutsideFrom<J>(text: string, spans: seq<Span<J>>, choose: Span<J> -> bool, from: nat,
                                          mid: nat)
    requires from <= mid <= |text| && OrderedSpans(spans, |text|) && (spans != [] ==> mid <= spans[0].start)
    ensures Outside(text, spans, choose, from) == text[from..mid] + Outside(text, spans, choose, mid)
    decreases |spans|
  {
    if spans == [] {
      SliceJoins(text, from, mid, |text|);
    } else {
      TailOrdered(spans, |text|);
      hide OrderedSpans;
      if choose(spans[0]) {
        var rest := Outside(text, spans[1..], choose, spans[0].end);
        SliceJoins(text, from, mid, spans[0].start);
        assert text[from..mid] + text[mid..spans[0].start] + rest
            == text[from..mid] + (text[mid..spans[0].start] + rest);
      } else {
        OutsideFrom(text, spans[1..], choose, from, mid);
      }
    }
  }

  lemma OutsideFirst<J>(text: string, spans: seq<Span<J>>, choose: Span<J> -> bool, from: nat, n: nat)
    requires from <= |text| && OrderedSpans(spans, |text|) && n < |spans| && from <= spans[n].start
    ensures Outside(text, spans[n..], choose, from)
         == text[from..if choose(spans[n]) then spans[n].start else spans[n].end]
          + Outside(text, spans[n + 1..], choose, spans[n].end)
  {
    var s := spans[n];
    assert spans[n..][1..] == spans[n + 1..];
    if !choose(s) { OutsideFrom(text, spans[n + 1..], choose, from, s.end); }
  }

  /** Cutting the chosen spans from last to first leaves exactly the characters outside them. */
  method StripSpans<J>(text: string, spans: seq<Span<J>>, choose: Span<J> -> bool) returns (cut: string)
    requires OrderedSpans(spans, |text|)
    ensures cut == Outside(text, spans, choose, 0)
  {
    hide Outside, OrderedSpans;
    cut := text;
    ghost var done: nat := |text|;   // left of this, nothing is cut yet
    var n := |spans|;
    TailsOrdered(spans, |text|);
    OutsideNone(text, spans, choose, n, done);
    while n > 0
      invariant 0 <= n <= |spans| && done <= |text| && (n > 0 ==> spans[n - 1].end <= done)
      invariant n < |spans| ==> done <= spans[n].start
      invariant done <= |cut| && cut[..done] == text[..done]
      invariant cut[done..] == Outside(text, spans[n..], choose, done)
    {
      n := n - 1;
      var s := spans[n];
      SpanAt(spans, |text|, n);
      OutsideFrom(text, spans[n + 1..], choose, s.end, done);
      OutsideFirst(text, spans, choose, s.start, n);
      CutPieces(text, cut, s.start, s.end, done);
      if choose(s) {
        cut := cut[..s.start] + cut[s.end..];
      }
      done := s.start;
    }
    OutsideFrom(text, spans[n..], choose, 0, done);
    assert cut == cut[..done] + cut[done..];
    assert spans[0..] == spans;
  }

  lemma TailsOrdered<J>(spans: seq<Span<J>>, length: nat)
    requires OrderedSpans(spans, length)
    ensures forall k :: 0 <= k < |spans| ==> spans[k].end <= length
    ensures forall n :: 0 <= n <= |spans| ==> OrderedSpans(spans[n..], length)
  {}

  lemma SpanAt<J>(spans: seq<Span<J>>, length: nat, n: nat)
    requires OrderedSpans(spans, length) && n < |spans|
    ensures spans[n].start < spans[n].end <= length
    ensures n > 0 ==> spans[n - 1].end <= spans[n].start
    ensures OrderedSpans(spans[n + 1..], length)
    ensures forall k :: n < k < |spans| ==> spans[n].end <= spans[k].start
  {}

  /** A span of the part that is still as in `text`. */
  lemma CutPieces(text: string, cut: string, s: nat, e: nat, done: nat)
    requires s <= e <= done <= |text| && done <= |cut| && cut[..done] == text[..done]
    ensures cut[..s] == text[..s] && cut[s..] == text[s..e] + cut[e..] && cut[e..] == text[e..done] + cut[done..]
    ensures var c := cut[..s] + cut[e..]; c[..s] == text[..s] && c[s..] == text[s..s] + cut[e..]
  {
    assert text[s..e] == text[..done][s..e] == cut[..done][s..e] == cut[s..e];
    assert text[e..done] == text[..done][e..] == cut[..done][e..] == cut[e..done];
    assert text[..s] == text[..done][..s] == cut[..done][..s] == cut[..s];
    assert cut[s..] == cut[s..e] + cut[e..];
    assert cut[e..] == cut[e..done] + cut[done..];
  }

  lemma OutsideNone<J>(text: string, spans: seq<Span<J>>, choose: Span<J> -> bool, n: nat, from: nat)
    requires from == |text| && n == |spans| && OrderedSpans(spans, |text|)
    ensures Outside(text, spans[n..], choose, from) == text[from..]
  {}

  lemma TailGroupsOrdered(groups: seq<(nat, nat)>, from: nat, length: nat)
    requires Ordered(groups, from, length) && groups != []
    ensures Ordered(groups[1..], groups[0].1, length)
  {
    var rest := groups[1..];
    forall k, l | 0 <= k < l < |rest| ensures rest[k].1 <= rest[l].0 { assert groups[k + 1].1 <= groups[l + 1].0; }
    forall k | 0 <= k < |rest| ensures groups[0].1 <= rest[k].0 { assert groups[0].1 <= groups[k + 1].0; }
  }

  lemma SpanInFront<J>(spans: seq<Span<J>>, g: (nat, nat), parsed: Option<J>, length: nat)
    requires OrderedSpans(spans, length) && g.0 < g.1 <= length
    requires forall k :: 0 <= k < |spans| ==> g.1 <= spans[k].start
    ensures var all := (if parsed.Some? then [Span(g.0, g.1, parsed.value)] else []) + spans;
            OrderedSpans(all, length) && forall k :: 0 <= k < |all| ==> g.0 <= all[k].start
  {}

  lemma {:induction false} ParsedOrdered<J>(text: string, parse: string -> Option<J>, groups: seq<(nat, nat)>,
                                            from: nat)
    requires Ordered(groups, from, |text|)
    ensures forall s :: s in groups ==> s.0 < s.1 <= |text|
    ensures var spans := Parsed(text, parse, groups);
            && OrderedSpans(spans, |text|)
            && forall k :: 0 <= k < |spans| ==> from <= spans[k].start
    decreases |groups|
  {
    if groups != [] {
      var rest := groups[1..];
      TailGroupsOrdered(groups, from, |text|);
      ParsedOrdered(text, parse, rest, groups[0].1);
      SpanInFront(Parsed(text, parse, rest), groups[0], parse(text[groups[0].0..groups[0].1]), |text|);
    }
  }

  /** Of the objects found, those that look like tool calls go. */
  method StripJsonToolCallFragments<J>(text: string, parse: string -> Option<J>, isToolCall: J -> bool)
    returns (cut: string)
    ensures OrderedSpans(Parsed(text, parse, Groups(text, 0)), |text|)
    ensures cut == Outside(text, Parsed(text, parse, Groups(text, 0)), (s: Span<J>) => isToolCall(s.obj), 0)
  {
    var candidates := FindTopLevelJsonObjects(text, parse);
    ParsedOrdered(text, parse, Groups(text, 0), 0);
    cut := StripSpans(text, candidates, (s: Span<J>) => isToolCall(s.obj));
  }
}
