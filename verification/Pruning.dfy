/** In-place pruning of old tool results between the iterations of an agent turn. */
module Pruning {
  import opened Wrappers

  /** A value that should be a string, or else what it is converted to. */
  datatype Text = Str(s: string) | Converted(s: string)

  /** `name` is absent when the key is. */
  datatype Function = Function(name: Option<string>, arguments: Text)

  /** `id` is empty when absent; `fn` is absent when it is no dictionary. */
  datatype Call = Call(id: string, fn: Option<Function>)

  datatype Message = Message(role: string, content: Text, calls: seq<Call>, callId: string,
                             recordId: Option<string>, noPrune: bool)
  {
    /** An assistant message with tool calls starts an iteration. */
    predicate Iteration() { role == "assistant" && calls != [] }
  }

  /** Marker texts, and the test for the sentinel that a parsed argument string may carry. */
  datatype Markers = Markers(result: (string, nat, Option<string>) -> string, args: (string, nat) -> string,
                             isPruned: string -> bool)
  {
    /** An argument marker is recognised as one. */
    ghost predicate Coherent() { forall name, n :: isPruned(args(name, n)) }
  }

  datatype Stats = Stats(pruned: nat, saved: int, iterations: nat, argsPruned: nat, argsSaved: nat) {
    function Plus(other: Stats): Stats {
      Stats(pruned + other.pruned, saved + other.saved, iterations + other.iterations,
            argsPruned + other.argsPruned, argsSaved + other.argsSaved)
    }
  }

  const ZERO := Stats(0, 0, 0, 0, 0)

  // ---------------------------------------------------------------- tool-call arguments

  predicate Compactable(mk: Markers, min: int, call: Call) {
    call.fn.Some? && |call.fn.value.arguments.s| >= min && !mk.isPruned(call.fn.value.arguments.s)
  }

  function ArgsMarker(mk: Markers, call: Call): string
    requires call.fn.Some?
  {
    var name := if call.fn.value.name.Some? && call.fn.value.name.value != "" then call.fn.value.name.value else "tool";
    mk.args(name, |call.fn.value.arguments.s|)
  }

  function CompactCall(mk: Markers, min: int, call: Call): Call {
    if Compactable(mk, min, call) then
      call.(fn := Some(call.fn.value.(arguments := Str(ArgsMarker(mk, call)))))
    else call
  }

  function CompactCalls(mk: Markers, min: int, calls: seq<Call>): seq<Call> {
    seq(|calls|, i requires 0 <= i < |calls| => CompactCall(mk, min, calls[i]))
  }

  /** Number of arguments replaced, and characters saved by that. */
  function CompactStats(mk: Markers, min: int, calls: seq<Call>): (nat, nat) {
    if calls == [] then (0, 0)
    else
      var last := calls[|calls| - 1];
      var (n, saved) := CompactStats(mk, min, calls[..|calls| - 1]);
      if !Compactable(mk, min, last) then (n, saved)
      else
        var gain := |last.fn.value.arguments.s| - |ArgsMarker(mk, last)|;
        (n + 1, saved + if gain > 0 then gain else 0)
  }

  method CompactToolCallArguments(mk: Markers, min: int, calls: seq<Call>)
    returns (newCalls: seq<Call>, count: nat, charsSaved: nat)
    ensures newCalls == CompactCalls(mk, min, calls)
    ensures (count, charsSaved) == CompactStats(mk, min, calls)
  {
    newCalls, count, charsSaved := [], 0, 0;
    for i := 0 to |calls|
      invariant newCalls == CompactCalls(mk, min, calls[..i])
      invariant (count, charsSaved) == CompactStats(mk, min, calls[..i])
    {
      var tc := calls[i];
      assert calls[..i + 1][..i] == calls[..i];
      if tc.fn.None? || |tc.fn.value.arguments.s| < min || mk.isPruned(tc.fn.value.arguments.s) {
        newCalls := newCalls + [tc];
        continue;
      }
      var marker := ArgsMarker(mk, tc);
      newCalls := newCalls + [tc.(fn := Some(tc.fn.value.(arguments := Str(marker))))];
      count := count + 1;
      var gain := |tc.fn.value.arguments.s| - |marker|;
      charsSaved := charsSaved + if gain > 0 then gain else 0;
    }
    assert calls[..|calls|] == calls;
  }

  // ---------------------------------------------------------------- names and boundary

  /** Ids of the calls a message makes, in order. */
  function CallIds(calls: seq<Call>): seq<string> {
    if calls == [] then []
    else
      var last := calls[|calls| - 1];
      CallIds(calls[..|calls| - 1]) + (if last.id != "" then [last.id] else [])
  }

  function NameCalls(calls: seq<Call>, names: map<string, string>): map<string, string> {
    if calls == [] then names
    else
      var last := calls[|calls| - 1];
      var before := NameCalls(calls[..|calls| - 1], names);
      var name := if last.fn.Some? && last.fn.value.name.Some? then last.fn.value.name.value else "unknown";
      if last.id != "" then before[last.id := name] else before
  }

  /** The tool name of every call id; a later call with the same id wins. */
  function NameMap(messages: seq<Message>): map<string, string> {
    if messages == [] then map[]
    else
      var last, names := messages[|messages| - 1], NameMap(messages[..|messages| - 1]);
      if last.role != "assistant" then names else NameCalls(last.calls, names)
  }

  function NameOf(names: map<string, string>, id: string): string {
    if id in names then names[id] else "unknown"
  }

  method BuildToolNameMap(messages: seq<Message>) returns (names: map<string, string>)
    ensures names == NameMap(messages)
  {
    names := map[];
    for i := 0 to |messages|
      invariant names == NameMap(messages[..i])
    {
      var msg := messages[i];
      assert messages[..i + 1][..i] == messages[..i];
      if msg.role != "assistant" {
        continue;
      }
      for j := 0 to |msg.calls|
        invariant names == NameCalls(msg.calls[..j], NameMap(messages[..i]))
      {
        var tc := msg.calls[j];
        assert msg.calls[..j + 1][..j] == msg.calls[..j];
        if tc.id != "" {
          names := names[tc.id := if tc.fn.Some? && tc.fn.value.name.Some? then tc.fn.value.name.value else "unknown"];
        }
      }
      assert msg.calls[..|msg.calls|] == msg.calls;
    }
    assert messages[..|messages|] == messages;
  }

  /** Index of the `keep`-th iteration from the end. */
  function Boundary(messages: seq<Message>, keep: nat): Option<nat>
    requires keep >= 1
  {
    if messages == [] then None
    else
      var n := |messages| - 1;
      if !messages[n].Iteration() then Boundary(messages[..n], keep)
      else if keep == 1 then Some(n)
      else Boundary(messages[..n], keep - 1)
  }

  // ---------------------------------------------------------------- pruning

  predicate Prunable(min: int, m: Message) {
    !m.Iteration() && m.role == "tool" && !m.noPrune && |m.content.s| >= min
  }

  function ResultMarker(mk: Markers, names: map<string, string>, m: Message): string {
    mk.result(NameOf(names, m.callId), |m.content.s|, m.recordId)
  }

  function PruneMessage(mk: Markers, min: int, names: map<string, string>, m: Message): Message {
    if m.Iteration() then m.(calls := CompactCalls(mk, min, m.calls))
    else if Prunable(min, m) then m.(content := Str(ResultMarker(mk, names, m)))
    else m
  }

  /** The first `b` messages pruned, with names from the calls among them. */
  function PrunePrefix(mk: Markers, min: int, messages: seq<Message>, b: nat): seq<Message>
    requires b <= |messages|
  {
    seq(|messages|, i requires 0 <= i < |messages| =>
      if i < b then PruneMessage(mk, min, NameMap(messages[..b]), messages[i]) else messages[i])
  }

  function Prune(mk: Markers, min: int, messages: seq<Message>, keep: nat): seq<Message>
    requires keep >= 1
  {
    BoundaryInside(messages, keep);
    match Boundary(messages, keep)
    case None => messages
    case Some(b) => PrunePrefix(mk, min, messages, b)
  }

  lemma {:induction false} BoundaryInside(messages: seq<Message>, keep: nat)
    requires keep >= 1
    ensures var b := Boundary(messages, keep); b.Some? ==> b.value < |messages| && messages[b.value].Iteration()
  {
    if messages != [] {
      var n := |messages| - 1;
      BoundaryInside(messages[..n], keep);
      if keep > 1 { BoundaryInside(messages[..n], keep - 1); }
    }
  }

  /** The counters after some messages, and whether the present iteration had something pruned. */
  datatype Tally = Tally(stats: Stats, open: bool) {
    /** The iteration ends. */
    function Close(): Stats { if open then stats.(iterations := stats.iterations + 1) else stats }
  }

  function Count(mk: Markers, min: int, names: map<string, string>, t: Tally, m: Message): Tally {
    if m.Iteration() then
      var (n, saved) := CompactStats(mk, min, m.calls);
      var s := t.Close();
      Tally(s.(argsPruned := s.argsPruned + n, argsSaved := s.argsSaved + saved, saved := s.saved + saved), n > 0)
    else if Prunable(min, m) then
      Tally(t.stats.(pruned := t.stats.pruned + 1,
                     saved := t.stats.saved + |m.content.s| - |ResultMarker(mk, names, m)|), true)
    else t
  }

  /** The counters after the first `n` messages. */
  function CountPrefix(mk: Markers, min: int, names: map<string, string>, messages: seq<Message>, n: nat): Tally
    requires n <= |messages|
  {
    if n == 0 then Tally(ZERO, false)
    else Count(mk, min, names, CountPrefix(mk, min, names, messages, n - 1), messages[n - 1])
  }

  function PruneStats(mk: Markers, min: int, messages: seq<Message>, keep: nat): Stats
    requires keep >= 1
  {
    BoundaryInside(messages, keep);
    match Boundary(messages, keep)
    case None => ZERO
    case Some(b) => CountPrefix(mk, min, NameMap(messages[..b]), messages, b).Close()
  }

  method FindBoundary(messages: array<Message>, keep: nat) returns (boundary: Option<nat>)
    requires keep >= 1
    ensures boundary == Boundary(messages[..], keep)
    ensures boundary.Some? ==> boundary.value < messages.Length
  {
    BoundaryInside(messages[..], keep);
    assert messages[..messages.Length] == messages[..];
    var seen := 0;
    var i := messages.Length;
    while i > 0
      invariant 0 <= i <= messages.Length && 0 <= seen < keep
      invariant Boundary(messages[..], keep) == Boundary(messages[..i], keep - seen)
    {
      i := i - 1;
      assert messages[..i + 1][..i] == messages[..i];
      if messages[i].Iteration() {
        seen := seen + 1;
        if seen >= keep {
          return Some(i);
        }
      }
    }
    return None;
  }

  method PruneInLoopToolResults(mk: Markers, messages: array<Message>, keepIterations: int, min: int)
    returns (stats: Stats)
    modifies messages
    ensures var keep := if keepIterations < 1 then 1 else keepIterations;
            && messages[..] == Prune(mk, min, old(messages[..]), keep)
            && stats == PruneStats(mk, min, old(messages[..]), keep)
  {
    hide NameMap, PruneMessage, Count, CountPrefix, Boundary;
    ghost var before := messages[..];
    var keep := if keepIterations < 1 then 1 else keepIterations;
    var boundary := FindBoundary(messages, keep);
    if boundary == None {
      return ZERO;
    }
    var b := boundary.value;
    var names := BuildToolNameMap(messages[..b]);
    assert messages[..b] == before[..b];
    var t := Tally(ZERO, false);
    CountNone(mk, min, names, before);
    for i := 0 to b
      invariant forall j :: 0 <= j < messages.Length ==>
                  messages[j] == if j < i then PruneMessage(mk, min, names, before[j]) else before[j]
      invariant t == CountPrefix(mk, min, names, before, i)
    {
      CountNext(mk, min, names, before, i + 1);
      var m, t' := PruneOne(mk, min, names, messages[i], t);
      messages[i] := m;
      t := t';
    }
    assert messages[..] == PrunePrefix(mk, min, before, b);
    stats := t.Close();
  }

  /** One message of the prefix: what becomes of it, and the counters after it. */
  method PruneOne(mk: Markers, min: int, names: map<string, string>, msg: Message, t: Tally)
    returns (m: Message, t': Tally)
    ensures m == PruneMessage(mk, min, names, msg) && t' == Count(mk, min, names, t, msg)
  {
    if msg.Iteration() {
      var s := t.Close();
      var newCalls, count, charsSaved := CompactToolCallArguments(mk, min, msg.calls);
      m := msg.(calls := newCalls);
      s := s.(argsPruned := s.argsPruned + count, argsSaved := s.argsSaved + charsSaved, saved := s.saved + charsSaved);
      t' := Tally(s, count > 0);
      return;
    }
    if msg.role != "tool" || msg.noPrune || |msg.content.s| < min {
      return msg, t;
    }
    var marker := mk.result(NameOf(names, msg.callId), |msg.content.s|, msg.recordId);
    m := msg.(content := Str(marker));
    t' := Tally(t.stats.(pruned := t.stats.pruned + 1, saved := t.stats.saved + |msg.content.s| - |marker|), true);
  }

  // ---------------------------------------------------------------- what stays

  /** Roles, ids, flags, number and names of calls are untouched by pruning. */
  predicate SameFrame(a: Message, b: Message) {
    && a.role == b.role && a.callId == b.callId && a.recordId == b.recordId && a.noPrune == b.noPrune
    && |a.calls| == |b.calls|
    && forall i :: 0 <= i < |a.calls| ==> SameCall(a.calls[i], b.calls[i])
  }

  predicate SameCall(a: Call, b: Call) {
    a.id == b.id && (a.fn.Some? <==> b.fn.Some?) && (a.fn.Some? ==> a.fn.value.name == b.fn.value.name)
  }

  lemma PruneMessageFrame(mk: Markers, min: int, names: map<string, string>, m: Message)
    ensures SameFrame(m, PruneMessage(mk, min, names, m))
    ensures m.noPrune && !m.Iteration() ==> PruneMessage(mk, min, names, m) == m
  {}

  /** From the boundary on nothing changes; before it, sticky results, roles, ids and order stay. */
  lemma PruneKeeps(mk: Markers, min: int, messages: seq<Message>, keep: nat)
    requires keep >= 1
    ensures var after := Prune(mk, min, messages, keep);
            && |after| == |messages|
            && (forall i :: 0 <= i < |messages| ==> SameFrame(messages[i], after[i]))
            && (forall i :: 0 <= i < |messages| && messages[i].noPrune && messages[i].role == "tool" ==>
                 after[i] == messages[i])
            && (var b := Boundary(messages, keep);
                forall i :: 0 <= i < |messages| && (b.Some? ==> i >= b.value) ==> after[i] == messages[i])
  {
    BoundaryInside(messages, keep);
    hide PruneMessage, SameFrame, NameMap, Boundary;
    var b := Boundary(messages, keep);
    forall i | 0 <= i < |messages| ensures SameFrame(messages[i], Prune(mk, min, messages, keep)[i]) {
      SameFrameReflexive(messages[i]);
      if b.Some? { PruneMessageFrame(mk, min, NameMap(messages[..b.value]), messages[i]); }
    }
    forall i | 0 <= i < |messages| && messages[i].noPrune && messages[i].role == "tool"
      ensures Prune(mk, min, messages, keep)[i] == messages[i]
    {
      if b.Some? { PruneMessageFrame(mk, min, NameMap(messages[..b.value]), messages[i]); }
    }
  }

  lemma SameFrameReflexive(m: Message)
    ensures SameFrame(m, m)
  {}

  predicate SameFrames(a: seq<Message>, b: seq<Message>) {
    |a| == |b| && forall i :: 0 <= i < |a| ==> SameFrame(a[i], b[i])
  }

  lemma {:induction false} SameNameCalls(a: seq<Call>, b: seq<Call>, names: map<string, string>)
    requires |a| == |b| && forall i :: 0 <= i < |a| ==> SameCall(a[i], b[i])
    ensures NameCalls(a, names) == NameCalls(b, names)
  {
    if a != [] {
      SameNameCalls(a[..|a| - 1], b[..|b| - 1], names);
      assert SameCall(a[|a| - 1], b[|b| - 1]);
    }
  }

  /** Names and boundaries only look at the frame. */
  lemma {:induction false} FrameDecides(a: seq<Message>, b: seq<Message>, keep: nat)
    requires SameFrames(a, b) && keep >= 1
    ensures NameMap(a) == NameMap(b) && Boundary(a, keep) == Boundary(b, keep)
  {
    if a != [] {
      var n := |a| - 1;
      assert SameFrame(a[n], b[n]);
      FrameDecides(a[..n], b[..n], keep);
      if keep > 1 { FrameDecides(a[..n], b[..n], keep - 1); }
      SameNameCalls(a[n].calls, b[n].calls, NameMap(a[..n]));
    }
  }

  // ---------------------------------------------------------------- pruning twice

  /** Compacted arguments are recognised and left alone. */
  lemma {:induction false} CompactTwice(mk: Markers, min: int, calls: seq<Call>)
    requires mk.Coherent()
    ensures var once := CompactCalls(mk, min, calls);
            CompactCalls(mk, min, once) == once && CompactStats(mk, min, once) == (0, 0)
    decreases |calls|
  {
    var once := CompactCalls(mk, min, calls);
    forall i | 0 <= i < |once| ensures !Compactable(mk, min, once[i]) {}
    if calls != [] {
      CompactTwice(mk, min, calls[..|calls| - 1]);
      assert once[..|once| - 1] == CompactCalls(mk, min, calls[..|calls| - 1]);
    }
  }

  /** The marker that replaces the content is shorter than the limit. */
  predicate ShortMarker(mk: Markers, min: int, names: map<string, string>, m: Message) {
    Prunable(min, m) ==> |ResultMarker(mk, names, m)| < min
  }

  lemma PrunedStays(mk: Markers, min: int, names: map<string, string>, m: Message, other: map<string, string>, t: Tally)
    requires mk.Coherent() && ShortMarker(mk, min, names, m)
    ensures var p := PruneMessage(mk, min, names, m);
            && PruneMessage(mk, min, other, p) == p
            && Count(mk, min, other, t, p) == if m.Iteration() then Tally(t.Close(), false) else t
  {
    CompactTwice(mk, min, m.calls);
    hide CompactStats;
  }

  /** After a result has been replaced by its marker, the marker itself is not replaced again. */
  predicate StableMarker(mk: Markers, min: int, names: map<string, string>, m: Message) {
    Prunable(min, m) ==>
      var marker := ResultMarker(mk, names, m);
      |marker| < min || mk.result(NameOf(names, m.callId), |marker|, m.recordId) == marker
  }

  lemma PrunedMessageStays(mk: Markers, min: int, names: map<string, string>, m: Message)
    requires mk.Coherent()
    ensures var p := PruneMessage(mk, min, names, m);
            PruneMessage(mk, min, names, p) == p <==> StableMarker(mk, min, names, m)
  {
    CompactTwice(mk, min, m.calls);
  }

  lemma PrunedFrames(mk: Markers, min: int, messages: seq<Message>, b: nat, n: nat)
    requires b <= |messages| && n <= |messages|
    ensures SameFrames(messages[..n], PrunePrefix(mk, min, messages, b)[..n])
  {
    hide PruneMessage, SameFrame, NameMap;
    forall i | 0 <= i < n ensures SameFrame(messages[i], PrunePrefix(mk, min, messages, b)[i]) {
      SameFrameReflexive(messages[i]);
      PruneMessageFrame(mk, min, NameMap(messages[..b]), messages[i]);
    }
  }

  predicate AllStable(mk: Markers, min: int, messages: seq<Message>, b: nat) {
    b <= |messages| && forall i :: 0 <= i < b ==> StableMarker(mk, min, NameMap(messages[..b]), messages[i])
  }

  /** Repeating the same pruning changes nothing exactly when every marker it wrote is short, or
      already reads as its own replacement. */
  lemma RepeatExactly(mk: Markers, min: int, messages: seq<Message>, keep: nat)
    requires keep >= 1 && mk.Coherent()
    ensures var once := Prune(mk, min, messages, keep);
            Prune(mk, min, once, keep) == once <==>
              var b := Boundary(messages, keep);
              b.Some? ==> AllStable(mk, min, messages, b.value)
  {
    BoundaryInside(messages, keep);
    var b := Boundary(messages, keep);
    if b.Some? {
      var once := PrunePrefix(mk, min, messages, b.value);
      PrunedFrames(mk, min, messages, b.value, |messages|);
      assert messages[..|messages|] == messages && once[..|messages|] == once;
      FrameDecides(messages, once, keep);
      PrunedFrames(mk, min, messages, b.value, b.value);
      FrameDecides(messages[..b.value], once[..b.value], keep);
      hide PruneMessage, StableMarker, NameMap, Boundary, SameFrames;
      var names := NameMap(messages[..b.value]);
      var twice := PrunePrefix(mk, min, once, b.value);
      forall i | 0 <= i < b.value ensures twice[i] == once[i] <==> StableMarker(mk, min, names, messages[i]) {
        PrunedMessageStays(mk, min, names, messages[i]);
      }
      forall i | b.value <= i < |messages| ensures twice[i] == once[i] {}
    }
  }

  // ---------------------------------------------------------------- the real markers

  function Digits(n: nat): string {
    var last := [(48 + n % 10) as char];
    if n < 10 then last else Digits(n / 10) + last
  }

  /** A number with a comma between groups of three digits. */
  function Grouped(n: nat): string {
    if n < 1000 then Digits(n)
    else Grouped(n / 1000) + "," + Three(n % 1000)
  }

  /** Three digits, with leading zeros. */
  function Three(n: nat): string
    requires n < 1000
  {
    [(48 + n / 100) as char, (48 + n % 100 / 10) as char, (48 + n % 100 % 10) as char]
  }

  const PRUNED := "[Tool result pruned (older iteration) \U{2014} "

  /** The text that replaces a tool result. */
  function ResultText(name: string, length: nat, recordId: Option<string>): string {
    if recordId.Some? && recordId.value != "" then
      "[Tool output from " + name + " (" + Grouped(length)
        + " chars) \U{2014} use read_conversation_history(section='tool:"
        + recordId.value + "') to retrieve]"
    else PRUNED + name + ": " + Digits(length) + " chars]"
  }

  /** The code's own result markers; argument markers and their test stay parameters. */
  function CodeMarkers(args: (string, nat) -> string, isPruned: string -> bool): Markers {
    Markers(ResultText, args, isPruned)
  }

  lemma ResultTextLength(name: string, length: nat)
    ensures |ResultText(name, length, None)| == |name| + |Digits(length)| + 49
  {}

  lemma {:induction false} DigitsInjective(a: nat, b: nat)
    ensures Digits(a) == Digits(b) <==> a == b
  {
    var s, t := Digits(a), Digits(b);
    if s == t {
      assert s[|s| - 1] == (48 + a % 10) as char && t[|t| - 1] == (48 + b % 10) as char;
      if a >= 10 && b >= 10 {
        assert Digits(a / 10) == s[..|s| - 1] && Digits(b / 10) == t[..|t| - 1];
        DigitsInjective(a / 10, b / 10);
      }
    }
  }

  lemma DigitsLength(n: nat)
    ensures |Digits(n)| >= 1 && (n < 1000 ==> |Digits(n)| <= 3)
  {
    if n >= 10 { assert Digits(n) == Digits(n / 10) + [(48 + n % 10) as char]; }
    if 100 <= n < 1000 { assert Digits(n / 10) == Digits(n / 100) + [(48 + n / 10 % 10) as char]; }
  }

  lemma ThreeInjective(a: nat, b: nat)
    requires a < 1000 && b < 1000
    ensures Three(a) == Three(b) <==> a == b
  {
    var s, t := Three(a), Three(b);
    assert s[0] == (48 + a / 100) as char && s[1] == (48 + a % 100 / 10) as char && s[2] == (48 + a % 100 % 10) as char;
    assert t[0] == (48 + b / 100) as char && t[1] == (48 + b % 100 / 10) as char && t[2] == (48 + b % 100 % 10) as char;
  }

  /** A grouped number of four digits or more: what comes before its last group, and that group. */
  lemma GroupedParts(n: nat)
    requires n >= 1000
    ensures var g := Grouped(n); |g| > 4 && g[..|g| - 4] == Grouped(n / 1000) && g[|g| - 3..] == Three(n % 1000)
  {
    GroupedLength(n / 1000);
    var first, last := Grouped(n / 1000), Three(n % 1000);
    assert Grouped(n) == first + "," + last;
    hide Grouped, Three;
    assert first + "," + last == first + ("," + last);
  }

  lemma {:induction false} GroupedLength(n: nat)
    ensures |Grouped(n)| >= 1 && (n < 1000 ==> |Grouped(n)| <= 3)
  {
    hide Digits;
    DigitsLength(n);
  }

  lemma {:induction false} GroupedInjective(a: nat, b: nat)
    ensures Grouped(a) == Grouped(b) <==> a == b
  {
    GroupedLength(a);
    GroupedLength(b);
    if a < 1000 && b < 1000 {
      DigitsInjective(a, b);
    } else {
      if a >= 1000 { GroupedParts(a); }
      if b >= 1000 { GroupedParts(b); }
      if a >= 1000 && b >= 1000 {
        GroupedInjective(a / 1000, b / 1000);
        ThreeInjective(a % 1000, b % 1000);
      }
      hide Grouped, Three;
    }
  }

  /** The text tells the length it names. */
  lemma ResultTextTells(name: string, a: nat, b: nat, recordId: Option<string>)
    ensures ResultText(name, a, recordId) == ResultText(name, b, recordId) <==> a == b
  {
    DigitsInjective(a, b);
    GroupedInjective(a, b);
    hide Digits, Grouped;
    if recordId.Some? && recordId.value != "" {
      var tail := " chars) \U{2014} use read_conversation_history(section='tool:" + recordId.value + "') to retrieve]";
      AroundSame("[Tool output from " + name + " (", Grouped(a), Grouped(b), tail);
      RecordText(name, a, recordId);
      RecordText(name, b, recordId);
    } else {
      AroundSame(PRUNED + name + ": ", Digits(a), Digits(b), " chars]");
    }
  }

  lemma RecordText(name: string, length: nat, recordId: Option<string>)
    requires recordId.Some? && recordId.value != ""
    ensures ResultText(name, length, recordId)
         == "[Tool output from " + name + " (" + Grouped(length)
            + (" chars) \U{2014} use read_conversation_history(section='tool:" + recordId.value + "') to retrieve]")
  {
    hide Grouped;
  }

  lemma AroundSame(before: string, a: string, b: string, tail: string)
    ensures before + a + tail == before + b + tail <==> a == b
  {
    var s, t := before + a + tail, before + b + tail;
    if s == t {
      assert a == s[|before|..|s| - |tail|] && b == t[|before|..|t| - |tail|];
    }
  }

  /** With the code's own markers: a marker stays if and only if it is shorter than the limit or exactly
      as long as what it replaced. */
  lemma CodeMarkerStays(mk: Markers, min: int, names: map<string, string>, m: Message)
    requires mk.result == ResultText
    ensures StableMarker(mk, min, names, m) <==>
              (Prunable(min, m) ==>
                 |ResultMarker(mk, names, m)| < min || |ResultMarker(mk, names, m)| == |m.content.s|)
  {
    ResultTextTells(NameOf(names, m.callId), |ResultMarker(mk, names, m)|, |m.content.s|, m.recordId);
    hide ResultText;
  }

  /** Each marker written before the boundary is short, or as long as the result was. */
  predicate MarkersFit(mk: Markers, min: int, messages: seq<Message>, b: nat) {
    && b <= |messages|
    && forall i :: 0 <= i < b && Prunable(min, messages[i]) ==>
         var length := |ResultMarker(mk, NameMap(messages[..b]), messages[i])|;
         length < min || length == |messages[i].content.s|
  }

  /** With the code's own markers, repeating the same pruning changes nothing exactly when each marker is
      shorter than the limit or exactly as long as what it replaces. */
  lemma CodeRepeatsExactly(mk: Markers, min: int, messages: seq<Message>, keep: nat)
    requires keep >= 1 && mk.Coherent() && mk.result == ResultText
    ensures var once := Prune(mk, min, messages, keep);
            Prune(mk, min, once, keep) == once <==>
              var b := Boundary(messages, keep);
              b.Some? ==> MarkersFit(mk, min, messages, b.value)
  {
    RepeatExactly(mk, min, messages, keep);
    var b := Boundary(messages, keep);
    if b.Some? {
      BoundaryInside(messages, keep);
      hide Prune, StableMarker, ResultMarker, NameMap, Boundary, ResultText;
      forall i | 0 <= i < b.value
        ensures StableMarker(mk, min, NameMap(messages[..b.value]), messages[i]) <==>
                  (Prunable(min, messages[i]) ==>
                     var length := |ResultMarker(mk, NameMap(messages[..b.value]), messages[i])|;
                     length < min || length == |messages[i].content.s|)
      {
        CodeMarkerStays(mk, min, NameMap(messages[..b.value]), messages[i]);
      }
    }
  }

  /** With a limit of 40, a result of 100 characters is replaced by a marker of 59, and the next run
      replaces that marker: repeating the pruning changes the messages. */
  lemma RepeatChangesMarker(args: (string, nat) -> string, isPruned: string -> bool, call: Call, content: string)
    requires CodeMarkers(args, isPruned).Coherent() && |content| == 100
    ensures var mk := CodeMarkers(args, isPruned);
            var messages := [Message("tool", Str(content), [], "", None, false),
                             Message("assistant", Str(""), [call], "", None, false)];
            Prune(mk, 40, Prune(mk, 40, messages, 1), 1) != Prune(mk, 40, messages, 1)
  {
    var mk := CodeMarkers(args, isPruned);
    var result := Message("tool", Str(content), [], "", None, false);
    var next := Message("assistant", Str(""), [call], "", None, false);
    var messages := [result, next];
    assert messages[1].Iteration() && Boundary(messages, 1) == Some(1);
    RepeatExactly(mk, 40, messages, 1);
    assert messages[..1] == [result];
    NoNames(result);
    MarkerNotStable(mk, NameMap([result]), result);
    hide StableMarker, Prune, NameMap;
  }

  lemma NoNames(m: Message)
    requires m.role == "tool"
    ensures NameMap([m]) == map[]
  {
    assert [m][..0] == [];
    assert m.role[0] != "assistant"[0];
  }

  lemma MarkerNotStable(mk: Markers, names: map<string, string>, m: Message)
    requires mk.result == ResultText && names == map[] && Prunable(40, m) && |m.content.s| == 100 && m.recordId == None
    ensures !StableMarker(mk, 40, names, m)
  {
    hide ResultText;
    ResultTextLength("unknown", 100);
    ResultTextLength("unknown", 59);
    assert |Digits(100)| == 3 && |Digits(59)| == 2;
  }

  // ---------------------------------------------------------------- what is saved

  /** Characters of the first `n` contents. */
  function Length(messages: seq<Message>, n: nat): nat
    requires n <= |messages|
  {
    if n == 0 then 0 else Length(messages, n - 1) + |messages[n - 1].content.s|
  }

  lemma {:induction false} SavedSoFar(mk: Markers, min: int, messages: seq<Message>, b: nat, n: nat)
    requires n <= b <= |messages|
    ensures var s := CountPrefix(mk, min, NameMap(messages[..b]), messages, n).stats;
            s.saved == Length(messages, n) - Length(PrunePrefix(mk, min, messages, b), n) + s.argsSaved
    decreases n
  {
    hide NameMap, CompactStats, CompactCalls, ResultMarker;
    if n > 0 { SavedSoFar(mk, min, messages, b, n - 1); }
  }

  lemma {:induction false} SameTailLength(a: seq<Message>, b: seq<Message>, from: nat, n: nat)
    requires from <= n <= |a| == |b| && a[from..] == b[from..]
    ensures Length(a, n) - Length(b, n) == Length(a, from) - Length(b, from)
    decreases n
  {
    if from < n {
      SameTailLength(a, b, from, n - 1);
      assert a[n - 1] == a[from..][n - 1 - from] == b[n - 1];
    }
  }

  /** The characters saved are those by which the contents became shorter, and those saved in
      arguments: what one message is replaced by and what is counted for it agree. */
  lemma SavedAddsUp(mk: Markers, min: int, messages: seq<Message>, keep: nat)
    requires keep >= 1
    ensures var after, s := Prune(mk, min, messages, keep), PruneStats(mk, min, messages, keep);
            |after| == |messages| && s.saved == Length(messages, |messages|) - Length(after, |after|) + s.argsSaved
  {
    BoundaryInside(messages, keep);
    var b := Boundary(messages, keep);
    if b.Some? {
      var after := PrunePrefix(mk, min, messages, b.value);
      SavedSoFar(mk, min, messages, b.value, b.value);
      assert messages[b.value..] == after[b.value..];
      hide PruneMessage, PrunePrefix, NameMap, Boundary;
      SameTailLength(messages, after, b.value, |messages|);
    }
  }

  // ---------------------------------------------------------------- composition

  /** No two messages make a call with the same id. */
  predicate UniqueCalls(messages: seq<Message>) {
    forall i, j :: 0 <= i < j < |messages| && messages[i].role == "assistant" && messages[j].role == "assistant" ==>
      forall id :: id in CallIds(messages[i].calls) ==> id !in CallIds(messages[j].calls)
  }

  /** Every result with an id comes after a call with that id. */
  predicate ResultsFollowCalls(messages: seq<Message>) {
    forall i :: 0 <= i < |messages| && messages[i].role == "tool" ==>
      messages[i].callId == "" || messages[i].callId in NameMap(messages[..i])
  }

  lemma {:induction false} NameCallsOf(calls: seq<Call>, names: map<string, string>, id: string)
    ensures id in NameCalls(calls, names) <==> id in names || id in CallIds(calls)
    ensures id !in CallIds(calls) && id in names ==> NameCalls(calls, names)[id] == names[id]
    ensures "" !in CallIds(calls)
  {
    if calls != [] { NameCallsOf(calls[..|calls| - 1], names, id); }
  }

  lemma {:induction false} NamedByCall(messages: seq<Message>, id: string)
    requires id in NameMap(messages)
    ensures id != ""
    ensures exists i ::
              0 <= i < |messages| && messages[i].role == "assistant" && id in CallIds(messages[i].calls)
  {
    var n := |messages| - 1;
    if messages[n].role == "assistant" { NameCallsOf(messages[n].calls, NameMap(messages[..n]), id); }
    if messages[n].role != "assistant" || id !in CallIds(messages[n].calls) {
      NamedByCall(messages[..n], id);
      var i :| 0 <= i < n && messages[..n][i].role == "assistant" && id in CallIds(messages[..n][i].calls);
      assert messages[i].role == "assistant";
    }
  }

  /** Once a call has named an id, the name stays. */
  lemma {:induction false} NameStays(messages: seq<Message>, i: nat, n: nat, id: string)
    requires UniqueCalls(messages) && i <= n <= |messages| && id in NameMap(messages[..i])
    ensures id in NameMap(messages[..n]) && NameMap(messages[..n])[id] == NameMap(messages[..i])[id]
    decreases n
  {
    if i < n {
      NameStays(messages, i, n - 1, id);
      assert messages[..n][..n - 1] == messages[..n - 1];
      if messages[n - 1].role == "assistant" {
        NamedByCall(messages[..i], id);
        var c :| 0 <= c < i && messages[..i][c].role == "assistant" && id in CallIds(messages[..i][c].calls);
        assert messages[c] == messages[..i][c];
        NameCallsOf(messages[n - 1].calls, NameMap(messages[..n - 1]), id);
      }
    }
  }

  /** A result is named alike by all calls before any later boundary. */
  lemma NamesAgree(messages: seq<Message>, i: nat, b: nat, c: nat)
    requires UniqueCalls(messages) && ResultsFollowCalls(messages) && i < b <= c <= |messages|
               && messages[i].role == "tool"
    ensures NameOf(NameMap(messages[..b]), messages[i].callId) == NameOf(NameMap(messages[..c]), messages[i].callId)
  {
    var id := messages[i].callId;
    if id == "" {
      if id in NameMap(messages[..b]) { NamedByCall(messages[..b], id); }
      if id in NameMap(messages[..c]) { NamedByCall(messages[..c], id); }
    } else {
      NameStays(messages, i, b, id);
      NameStays(messages, i, c, id);
    }
  }

  lemma {:induction false} BoundaryMonotone(messages: seq<Message>, k: nat, j: nat)
    requires 1 <= j <= k && Boundary(messages, k).Some?
    ensures Boundary(messages, j).Some? && Boundary(messages, k).value <= Boundary(messages, j).value
  {
    var n := |messages| - 1;
    if !messages[n].Iteration() {
      BoundaryMonotone(messages[..n], k, j);
    } else if j > 1 {
      BoundaryMonotone(messages[..n], k - 1, j - 1);
    } else {
      BoundaryInside(messages, k);
    }
  }

  /** Counting goes on alike from any starting counters. */
  lemma CountShift(mk: Markers, min: int, names: map<string, string>, single: Tally, base: Stats, t: Tally, m: Message)
    requires Ahead(single, base, t)
    ensures Ahead(Count(mk, min, names, single, m), base, Count(mk, min, names, t, m))
  {
    hide CompactStats, ResultMarker;
  }

  lemma SameNameSameMessage(mk: Markers, min: int, names: map<string, string>, other: map<string, string>,
                            m: Message, t: Tally)
    requires m.role == "tool" ==> NameOf(names, m.callId) == NameOf(other, m.callId)
    ensures PruneMessage(mk, min, names, m) == PruneMessage(mk, min, other, m)
    ensures Count(mk, min, names, t, m) == Count(mk, min, other, t, m)
  {
    hide CompactStats, CompactCalls;
  }

  /** What composition needs of the messages before the boundary `b`. */
  predicate Composable(mk: Markers, min: int, messages: seq<Message>, b: nat) {
    && UniqueCalls(messages) && ResultsFollowCalls(messages) && b <= |messages|
    && forall i :: 0 <= i < b ==> ShortMarker(mk, min, NameMap(messages[..b]), messages[i])
  }

  /** Pruning up to `b` and then up to `c` is pruning up to `c`. */
  lemma ComposeMessages(mk: Markers, min: int, messages: seq<Message>, b: nat, c: nat)
    requires mk.Coherent() && Composable(mk, min, messages, b) && b <= c <= |messages|
    ensures PrunePrefix(mk, min, PrunePrefix(mk, min, messages, b), c) == PrunePrefix(mk, min, messages, c)
  {
    var first := PrunePrefix(mk, min, messages, b);
    PrunedFrames(mk, min, messages, b, c);
    FrameDecides(messages[..c], first[..c], 1);
    hide PruneMessage, NameMap, ShortMarker, SameFrames, UniqueCalls, ResultsFollowCalls;
    forall i | 0 <= i < |messages|
      ensures PrunePrefix(mk, min, first, c)[i] == PrunePrefix(mk, min, messages, c)[i]
    {
      if i < b { ComposeMessage(mk, min, messages, b, c, i); }
    }
  }

  lemma ComposeMessage(mk: Markers, min: int, messages: seq<Message>, b: nat, c: nat, i: nat)
    requires mk.Coherent() && Composable(mk, min, messages, b) && i < b <= c <= |messages|
    ensures var p := PruneMessage(mk, min, NameMap(messages[..b]), messages[i]);
            && p == PruneMessage(mk, min, NameMap(messages[..c]), messages[i])
            && PruneMessage(mk, min, NameMap(messages[..c]), p) == p
  {
    hide PruneMessage, NameMap, ShortMarker, UniqueCalls, ResultsFollowCalls;
    var t := Tally(ZERO, false);
    if messages[i].role == "tool" { NamesAgree(messages, i, b, c); }
    SameNameSameMessage(mk, min, NameMap(messages[..b]), NameMap(messages[..c]), messages[i], t);
    PrunedStays(mk, min, NameMap(messages[..b]), messages[i], NameMap(messages[..c]), t);
  }

  /** Up to the first boundary, the second run counts nothing and the single run counts what the first did. */
  lemma {:induction false} CountBefore(mk: Markers, min: int, messages: seq<Message>, b: nat, c: nat, n: nat)
    requires mk.Coherent() && Composable(mk, min, messages, b) && n <= b <= c <= |messages|
    ensures CountPrefix(mk, min, NameMap(messages[..c]), messages, n)
         == CountPrefix(mk, min, NameMap(messages[..b]), messages, n)
    ensures CountPrefix(mk, min, NameMap(messages[..c]), PrunePrefix(mk, min, messages, b), n) == Tally(ZERO, false)
    decreases n
  {
    hide PruneMessage, NameMap, ShortMarker, UniqueCalls, ResultsFollowCalls, Count;
    if n > 0 {
      CountBefore(mk, min, messages, b, c, n - 1);
      var i := n - 1;
      var kept, later := NameMap(messages[..b]), NameMap(messages[..c]);
      if messages[i].role == "tool" { NamesAgree(messages, i, b, c); }
      SameNameSameMessage(mk, min, kept, later, messages[i], CountPrefix(mk, min, kept, messages, i));
      PrunedStays(mk, min, kept, messages[i], later, Tally(ZERO, false));
    }
  }

  lemma CountNone(mk: Markers, min: int, names: map<string, string>, messages: seq<Message>)
    ensures CountPrefix(mk, min, names, messages, 0) == Tally(ZERO, false)
  {}

  lemma CountNext(mk: Markers, min: int, names: map<string, string>, messages: seq<Message>, n: nat)
    requires 0 < n <= |messages|
    ensures CountPrefix(mk, min, names, messages, n)
         == Count(mk, min, names, CountPrefix(mk, min, names, messages, n - 1), messages[n - 1])
  {}

  /** The counters of the single run, given those of the first run and, so far, of the second. */
  predicate Ahead(single: Tally, base: Stats, second: Tally) {
    single == Tally(base.Plus(second.stats), second.open)
  }

  /** Past the first boundary, where the first run changed nothing, the single run stays ahead of the
      second run by what the first counted. */
  lemma {:induction false} CountAfter(mk: Markers, min: int, names: map<string, string>, messages: seq<Message>,
                                      first: seq<Message>, b: nat, n: nat)
    requires b < n <= |messages| == |first| && messages[b].Iteration() && messages[b..] == first[b..]
    requires CountPrefix(mk, min, names, first, b) == Tally(ZERO, false)
    ensures Ahead(CountPrefix(mk, min, names, messages, n), CountPrefix(mk, min, names, messages, b).Close(),
                  CountPrefix(mk, min, names, first, n))
    decreases n
  {
    hide Count, CountPrefix, Message.Iteration, Tally.Close, Ahead;
    assert messages[n - 1] == messages[b..][n - 1 - b] == first[n - 1];
    CountNext(mk, min, names, messages, n);
    CountNext(mk, min, names, first, n);
    var t := CountPrefix(mk, min, names, messages, b);
    if n == b + 1 {
      IterationCloses(mk, min, names, t, messages[b]);
    } else {
      CountAfter(mk, min, names, messages, first, b, n - 1);
      CountShift(mk, min, names, CountPrefix(mk, min, names, messages, n - 1), t.Close(),
                 CountPrefix(mk, min, names, first, n - 1), messages[n - 1]);
    }
  }

  lemma IterationCloses(mk: Markers, min: int, names: map<string, string>, t: Tally, m: Message)
    requires m.Iteration()
    ensures Ahead(Count(mk, min, names, t, m), t.Close(), Count(mk, min, names, Tally(ZERO, false), m))
  {
    hide CompactStats;
  }

  /** Keeping `k` iterations and later only `j <= k` leaves the same messages as keeping `j` at once,
      and the counters of the two runs add up to those of the single one. */
  lemma PruningComposes(mk: Markers, min: int, messages: seq<Message>, k: nat, j: nat)
    requires mk.Coherent() && 1 <= j <= k
    requires var b := Boundary(messages, k); b.Some? ==> Composable(mk, min, messages, b.value)
    ensures var first := Prune(mk, min, messages, k);
            && Prune(mk, min, first, j) == Prune(mk, min, messages, j)
            && PruneStats(mk, min, messages, k).Plus(PruneStats(mk, min, first, j)) == PruneStats(mk, min, messages, j)
  {
    var bk := Boundary(messages, k);
    if bk.Some? {
      var b := bk.value;
      BoundaryInside(messages, k);
      BoundaryMonotone(messages, k, j);
      BoundaryInside(messages, j);
      var c := Boundary(messages, j).value;
      PruneAt(mk, min, messages, k, b);
      PruneAt(mk, min, messages, j, c);
      hide Boundary, Composable, PrunePrefix, CountPrefix, NameMap, Prune, PruneStats, Tally.Close, Stats.Plus;
      var first := PrunePrefix(mk, min, messages, b);
      SecondRun(mk, min, messages, b, c, j);
      PruneAt(mk, min, first, j, c);
      ComposeMessages(mk, min, messages, b, c);
      ComposeStats(mk, min, messages, b, c);
    } else {
      NothingAdded(PruneStats(mk, min, messages, j));
    }
  }

  /** A run whose boundary is known. */
  lemma PruneAt(mk: Markers, min: int, messages: seq<Message>, keep: nat, b: nat)
    requires keep >= 1 && Boundary(messages, keep) == Some(b) && b <= |messages|
    ensures Prune(mk, min, messages, keep) == PrunePrefix(mk, min, messages, b)
    ensures PruneStats(mk, min, messages, keep) == CountPrefix(mk, min, NameMap(messages[..b]), messages, b).Close()
  {
    hide PrunePrefix, CountPrefix, NameMap;
  }

  lemma NothingAdded(s: Stats)
    ensures ZERO.Plus(s) == s && s.Plus(ZERO) == s
  {}

  /** The second run finds its boundary and its names where the single run does. */
  lemma SecondRun(mk: Markers, min: int, messages: seq<Message>, b: nat, c: nat, j: nat)
    requires j >= 1 && b <= |messages| && c <= |messages|
    ensures var first := PrunePrefix(mk, min, messages, b);
            Boundary(first, j) == Boundary(messages, j) && NameMap(first[..c]) == NameMap(messages[..c])
  {
    var first := PrunePrefix(mk, min, messages, b);
    PrunedFrames(mk, min, messages, b, |messages|);
    assert messages[..|messages|] == messages && first[..|messages|] == first;
    FrameDecides(messages, first, j);
    PrunedFrames(mk, min, messages, b, c);
    FrameDecides(messages[..c], first[..c], 1);
  }

  lemma ComposeStats(mk: Markers, min: int, messages: seq<Message>, b: nat, c: nat)
    requires mk.Coherent() && Composable(mk, min, messages, b) && b <= c <= |messages|
    requires b < |messages| && messages[b].Iteration()
    ensures var names := NameMap(messages[..c]);
            CountPrefix(mk, min, NameMap(messages[..b]), messages, b).Close()
              .Plus(CountPrefix(mk, min, names, PrunePrefix(mk, min, messages, b), c).Close())
            == CountPrefix(mk, min, names, messages, c).Close()
  {
    var names := NameMap(messages[..c]);
    var first := PrunePrefix(mk, min, messages, b);
    PrefixTail(mk, min, messages, b);
    hide NameMap, PrunePrefix, CountPrefix, Composable, Message.Iteration, Tally.Close, Stats.Plus;
    CountBefore(mk, min, messages, b, c, b);
    if b < c {
      CountAfter(mk, min, names, messages, first, b, c);
      CloseAhead(CountPrefix(mk, min, names, messages, c), CountPrefix(mk, min, names, messages, b).Close(),
                 CountPrefix(mk, min, names, first, c));
    } else {
      NothingAdded(CountPrefix(mk, min, NameMap(messages[..b]), messages, b).Close());
    }
  }

  lemma PrefixTail(mk: Markers, min: int, messages: seq<Message>, b: nat)
    requires b <= |messages|
    ensures var first := PrunePrefix(mk, min, messages, b); |first| == |messages| && messages[b..] == first[b..]
  {}

  lemma CloseAhead(single: Tally, base: Stats, second: Tally)
    requires Ahead(single, base, second)
    ensures base.Plus(second.Close()) == single.Close()
  {
  }
}
