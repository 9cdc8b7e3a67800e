/** Folding of system messages into the conversation, for providers that reject that role. */
module FoldMessages {
  import opened Wrappers

  datatype Call = Call(id: string, name: string, arguments: string)

  /** The "content" key: absent, null, a string, or a list of parts (given by the text of each). */
  datatype Content = Missing | Null | Str(s: string) | Parts(texts: seq<string>)

  datatype Message = Message(role: string, content: Content, toolCalls: Option<seq<Call>>, toolCallId: string,
                             fields: map<string, string>)
  {
    /** The content, empty when there is none. */
    function Got(): Content { if content.Missing? then Str("") else content }

    /** The tool calls, none when the key is absent. */
    function Calls(): seq<Call> { if toolCalls.Some? then toolCalls.value else [] }
  }

  const SEPARATOR := "\n\n---\n\n"
  const GAP := "\n\n"

  function Join(separator: string, parts: seq<string>): string {
    if parts == [] then "" else if |parts| == 1 then parts[0]
    else Join(separator, parts[..|parts| - 1]) + separator + parts[|parts| - 1]
  }

  /** Nothing but whitespace. */
  predicate Blank(space: char -> bool, text: string) { forall c :: c in text ==> space(c) }

  /** What one system message contributes. */
  function SystemText(space: char -> bool, msg: Message): seq<string> {
    match msg.Got()
    case Str(s) => if s != "" then [s] else []
    case Parts(texts) => if Blank(space, Join(" ", texts)) then [] else [Join(" ", texts)]
    case _ => []
  }

  function SystemParts(space: char -> bool, messages: seq<Message>): seq<string> {
    if messages == [] then []
    else
      var last := messages[|messages| - 1];
      SystemParts(space, messages[..|messages| - 1]) + (if last.role == "system" then SystemText(space, last) else [])
  }

  function NonSystem(messages: seq<Message>): seq<Message> {
    if messages == [] then []
    else
      var last := messages[|messages| - 1];
      NonSystem(messages[..|messages| - 1]) + (if last.role == "system" then [] else [last])
  }

  /** The system text first, as a user message, then everything else. */
  function Front(space: char -> bool, messages: seq<Message>): seq<Message> {
    var parts := SystemParts(space, messages);
    if parts == [] then [] else [Message("user", Str(Join(SEPARATOR, parts)), None, "", map[])]
  }

  predicate Mergeable(prev: Message, msg: Message) {
    prev.role == msg.role && msg.role != "tool" && prev.Got().Str? && msg.Got().Str?
  }

  function Combine(prev: Message, msg: Message): Message
    requires Mergeable(prev, msg)
  {
    prev.(content := Str(prev.Got().s + GAP + msg.Got().s),
          toolCalls := if prev.Calls() != [] || msg.Calls() != []
            then Some(prev.Calls() + msg.Calls()) else prev.toolCalls)
  }

  function Append(merged: seq<Message>, msg: Message): seq<Message> {
    var n := |merged|;
    if n > 0 && Mergeable(merged[n - 1], msg) then merged[..n - 1] + [Combine(merged[n - 1], msg)] else merged + [msg]
  }

  function Merge(messages: seq<Message>): seq<Message> {
    if messages == [] then []
    else Append(Merge(messages[..|messages| - 1]), messages[|messages| - 1])
  }

  function Fold(space: char -> bool, messages: seq<Message>): seq<Message> {
    Merge(Front(space, messages) + NonSystem(messages))
  }

  method FoldSystemMessages(space: char -> bool, messages: seq<Message>) returns (merged: seq<Message>)
    ensures merged == Fold(space, messages)
  {
    var systemParts, nonSystem := SplitSystem(space, messages);
    var result: seq<Message> := [];
    if systemParts != [] {
      result := [Message("user", Str(Join(SEPARATOR, systemParts)), None, "", map[])];
    }
    merged := MergeAdjacent(result + nonSystem);
  }

  /** The first loop: system text on one side, all other messages on the other. */
  method SplitSystem(space: char -> bool, messages: seq<Message>)
    returns (systemParts: seq<string>, nonSystem: seq<Message>)
    ensures systemParts == SystemParts(space, messages) && nonSystem == NonSystem(messages)
  {
    systemParts, nonSystem := [], [];
    for i := 0 to |messages|
      invariant systemParts == SystemParts(space, messages[..i]) && nonSystem == NonSystem(messages[..i])
    {
      var msg := messages[i];
      assert messages[..i + 1][..i] == messages[..i];
      if msg.role == "system" {
        match msg.Got()
        case Str(s) =>
          if s != "" { systemParts := systemParts + [s]; }
        case Parts(texts) =>
          var text := Join(" ", texts);
          if !Blank(space, text) { systemParts := systemParts + [text]; }
        case _ =>
      } else {
        nonSystem := nonSystem + [msg];
      }
    }
    assert messages[..|messages|] == messages;
  }

  /** The second loop: adjacent messages of one role are merged where that is allowed. */
  method MergeAdjacent(result: seq<Message>) returns (merged: seq<Message>)
    ensures merged == Merge(result)
  {
    hide Append;
    merged := [];
    for i := 0 to |result|
      invariant merged == Merge(result[..i])
    {
      assert result[..i + 1][..i] == result[..i];
      merged := MergeOne(merged, result[i]);
    }
    assert result[..|result|] == result;
  }

  /** One more message. */
  method MergeOne(merged: seq<Message>, msg: Message) returns (grown: seq<Message>)
    ensures grown == Append(merged, msg)
  {
    if merged != [] && merged[|merged| - 1].role == msg.role {
      var prev := merged[|merged| - 1];
      if msg.role == "tool" {
        return merged + [msg];
      }
      var prevContent, curContent := prev.Got(), msg.Got();
      if prevContent.Str? && curContent.Str? {
        var combined := prev.(content := Str(prevContent.s + GAP + curContent.s));
        if prev.Calls() != [] || msg.Calls() != [] {
          combined := combined.(toolCalls := Some(prev.Calls() + msg.Calls()));
        }
        return merged[..|merged| - 1] + [combined];
      }
    }
    return merged + [msg];
  }

  // ---------------------------------------------------------------- what the provider relies on

  predicate NoSystem(messages: seq<Message>) { forall m :: m in messages ==> m.role != "system" }

  /** Equal adjacent roles only for tool messages or next to a content that is not a string. */
  predicate Alternates(messages: seq<Message>) {
    forall i :: 0 < i < |messages| ==> !Mergeable(messages[i - 1], messages[i])
  }

  lemma {:induction false} NonSystemHasNone(messages: seq<Message>)
    ensures NoSystem(NonSystem(messages))
  {
    if messages != [] { NonSystemHasNone(messages[..|messages| - 1]); }
  }

  lemma AppendAlternates(merged: seq<Message>, msg: Message)
    requires Alternates(merged)
    ensures Alternates(Append(merged, msg))
  {
    var grown := Append(merged, msg);
    forall i | 0 < i < |grown| ensures !Mergeable(grown[i - 1], grown[i]) {
      if i < |merged| { assert !Mergeable(merged[i - 1], merged[i]); }
    }
  }

  lemma AppendNoSystem(merged: seq<Message>, msg: Message)
    requires NoSystem(merged) && msg.role != "system"
    ensures NoSystem(Append(merged, msg))
  {}

  lemma {:induction false} MergeAlternates(messages: seq<Message>)
    ensures Alternates(Merge(messages))
    ensures NoSystem(messages) ==> NoSystem(Merge(messages))
  {
    if messages != [] {
      var before, last := messages[..|messages| - 1], messages[|messages| - 1];
      MergeAlternates(before);
      AppendAlternates(Merge(before), last);
      assert last in messages;
      assert NoSystem(messages) ==> NoSystem(before);
      if NoSystem(messages) { AppendNoSystem(Merge(before), last); }
      hide Append, Alternates, NoSystem;
    }
  }

  /** The result has no system message and alternates as far as merging is allowed. */
  lemma FoldAlternates(space: char -> bool, messages: seq<Message>)
    ensures NoSystem(Fold(space, messages)) && Alternates(Fold(space, messages))
  {
    NonSystemHasNone(messages);
    MergeAlternates(Front(space, messages) + NonSystem(messages));
  }

  /** No two adjacent messages have the same role. */
  predicate StrictRoles(messages: seq<Message>) {
    forall i :: 0 < i < |messages| ==> messages[i - 1].role != messages[i].role
  }

  /** Adjacent messages with the same role can be merged. */
  predicate EqualRolesMerge(messages: seq<Message>) {
    forall i :: 0 < i < |messages| && messages[i - 1].role == messages[i].role ==>
             Mergeable(messages[i - 1], messages[i])
  }

  lemma StrictRolesSnoc(messages: seq<Message>, msg: Message)
    ensures StrictRoles(messages + [msg]) <==>
              StrictRoles(messages) && (messages != [] ==> messages[|messages| - 1].role != msg.role)
    ensures EqualRolesMerge(messages + [msg]) <==>
              EqualRolesMerge(messages) &&
              (messages != [] && messages[|messages| - 1].role == msg.role ==> Mergeable(messages[|messages| - 1], msg))
  {
    hide Mergeable;
    var grown := messages + [msg];
    assert forall i :: 0 <= i < |messages| ==> grown[i] == messages[i];
    assert grown[|messages|] == msg;
  }

  /** One more message keeps strict roles unless it has the last role and cannot be merged; merged or
      not, it decides the role at the end and whether a string stands there. */
  lemma AppendIsStrict(merged: seq<Message>, msg: Message)
    ensures var grown := Append(merged, msg);
            && (StrictRoles(grown) <==>
                  StrictRoles(merged) &&
                  (merged != [] && merged[|merged| - 1].role == msg.role ==> Mergeable(merged[|merged| - 1], msg)))
            && grown != [] && grown[|grown| - 1].role == msg.role
            && (grown[|grown| - 1].Got().Str? <==> msg.Got().Str?)
  {
    hide StrictRoles, EqualRolesMerge;
    if merged != [] && Mergeable(merged[|merged| - 1], msg) {
      CombinedIsStrict(merged[..|merged| - 1], merged[|merged| - 1], msg);
      assert merged[..|merged| - 1] + [merged[|merged| - 1]] == merged;
    } else {
      StrictRolesSnoc(merged, msg);
    }
  }

  lemma CombinedIsStrict(before: seq<Message>, last: Message, msg: Message)
    requires Mergeable(last, msg)
    ensures StrictRoles(before + [Combine(last, msg)]) <==> StrictRoles(before + [last])
    ensures Combine(last, msg).role == msg.role && Combine(last, msg).Got().Str? && msg.Got().Str?
  {
    StrictRolesSnoc(before, last);
    StrictRolesSnoc(before, Combine(last, msg));
    hide StrictRoles, EqualRolesMerge;
  }

  /** Both end in the same role, and both or neither in a string. */
  predicate EndAlike(a: seq<Message>, b: seq<Message>) {
    if a == [] || b == [] then a == b
    else a[|a| - 1].role == b[|b| - 1].role && (a[|a| - 1].Got().Str? <==> b[|b| - 1].Got().Str?)
  }

  lemma StrictStep(merged: seq<Message>, before: seq<Message>, msg: Message)
    requires EndAlike(merged, before) && (StrictRoles(merged) <==> EqualRolesMerge(before))
    ensures StrictRoles(Append(merged, msg)) <==> EqualRolesMerge(before + [msg])
    ensures EndAlike(Append(merged, msg), before + [msg])
  {
    StrictRolesSnoc(before, msg);
    AppendIsStrict(merged, msg);
    hide StrictRoles, EqualRolesMerge, Append;
  }

  /** Merging leaves no equal adjacent roles exactly when all of them could be merged; the last merged
      message takes further ones as the last message would have. */
  lemma {:induction false} MergeIsStrict(messages: seq<Message>)
    ensures StrictRoles(Merge(messages)) <==> EqualRolesMerge(messages)
    ensures EndAlike(Merge(messages), messages)
  {
    if messages != [] {
      hide StrictRoles, EqualRolesMerge, Append, EndAlike;
      var before, last := messages[..|messages| - 1], messages[|messages| - 1];
      MergeIsStrict(before);
      StrictStep(Merge(before), before, last);
      assert before + [last] == messages;
    }
  }

  /** Strict alternation, as documented, is reached exactly when equal adjacent roles can all be merged. */
  lemma FoldIsStrict(space: char -> bool, messages: seq<Message>)
    ensures StrictRoles(Fold(space, messages)) <==> EqualRolesMerge(Front(space, messages) + NonSystem(messages))
  {
    MergeIsStrict(Front(space, messages) + NonSystem(messages));
  }

  /** The results of two tool calls of one turn stay adjacent. */
  lemma ResultsStayAdjacent(space: char -> bool, a: string, b: string)
    ensures var messages := [Message("tool", Str("x"), None, a, map[]), Message("tool", Str("y"), None, b, map[])];
            Fold(space, messages) == messages && !StrictRoles(messages)
  {
    var first, second := Message("tool", Str("x"), None, a, map[]), Message("tool", Str("y"), None, b, map[]);
    var messages := [first, second];
    assert "tool"[0] != "system"[0];
    assert NoSystem(messages) && Alternates(messages);
    NoSystemIsFixed(space, messages);
    AlternatingIsFixed(messages);
    assert [] + messages == messages;
    assert messages[0].role == messages[1].role;
  }

  /** What a tool-calling provider checks: the calls made and the results returned, in order. */
  datatype Event = Called(call: Call) | Returned(msg: Message)

  function CallEvents(calls: seq<Call>): seq<Event> { seq(|calls|, i requires 0 <= i < |calls| => Called(calls[i])) }

  function EventsOf(msg: Message): seq<Event> {
    if msg.role == "tool" then [Returned(msg)] else CallEvents(msg.Calls())
  }

  function Events(messages: seq<Message>): seq<Event> {
    if messages == [] then [] else Events(messages[..|messages| - 1]) + EventsOf(messages[|messages| - 1])
  }

  lemma EventsSnoc(messages: seq<Message>, msg: Message)
    ensures Events(messages + [msg]) == Events(messages) + EventsOf(msg)
  {
    assert (messages + [msg])[..|messages|] == messages;
  }

  lemma CombineEvents(prev: Message, msg: Message)
    requires Mergeable(prev, msg)
    ensures EventsOf(Combine(prev, msg)) == EventsOf(prev) + EventsOf(msg)
  {
    assert CallEvents(prev.Calls() + msg.Calls()) == CallEvents(prev.Calls()) + CallEvents(msg.Calls());
  }

  lemma {:induction false} MergeKeepsEvents(messages: seq<Message>)
    ensures Events(Merge(messages)) == Events(messages)
  {
    hide Mergeable, EventsOf;
    if messages != [] {
      var before, last := messages[..|messages| - 1], messages[|messages| - 1];
      MergeKeepsEvents(before);
      var m := Merge(before);
      if m != [] && Mergeable(m[|m| - 1], last) {
        var prev := m[|m| - 1];
        EventsSnoc(m[..|m| - 1], Combine(prev, last));
        CombineEvents(prev, last);
      } else {
        EventsSnoc(m, last);
      }
    }
  }

  lemma AllButLast(a: seq<Message>, b: seq<Message>)
    requires b != []
    ensures (a + b)[..|a + b| - 1] == a + b[..|b| - 1] && (a + b)[|a + b| - 1] == b[|b| - 1]
  {}

  lemma {:induction false} EventsConcat(a: seq<Message>, b: seq<Message>)
    ensures Events(a + b) == Events(a) + Events(b)
  {
    hide EventsOf;
    if b == [] {
      assert a + b == a;
    } else {
      AllButLast(a, b);
      EventsConcat(a, b[..|b| - 1]);
    }
  }

  /** Folding neither drops, adds nor reorders a tool call or a tool result. */
  lemma FoldKeepsEvents(space: char -> bool, messages: seq<Message>)
    ensures Events(Fold(space, messages)) == Events(NonSystem(messages))
  {
    var front := Front(space, messages);
    MergeKeepsEvents(front + NonSystem(messages));
    EventsConcat(front, NonSystem(messages));
    if front != [] {
      EventsSnoc([], front[0]);
      assert front == [] + [front[0]];
    }
  }

  /** The ids of all calls made by `messages` and not by tool messages. */
  function CallIds(messages: seq<Message>): set<string> {
    set e | e in Events(messages) && e.Called? :: e.call.id
  }

  /** Every tool result comes after the call it answers. */
  predicate ResultsFollowCalls(messages: seq<Message>) {
    forall i :: 0 <= i < |messages| && messages[i].role == "tool" ==> messages[i].toolCallId in CallIds(messages[..i])
  }

  /** The same, read off the events. */
  predicate ReturnsFollowCalls(events: seq<Event>) {
    forall i :: 0 <= i < |events| && events[i].Returned? ==>
      exists j :: 0 <= j < i && events[j].Called? && events[j].call.id == events[i].msg.toolCallId
  }

  lemma {:induction false} FollowCallsByEvents(messages: seq<Message>)
    ensures ResultsFollowCalls(messages) <==> ReturnsFollowCalls(Events(messages))
    decreases |messages|
  {
    if messages != [] {
      var n := |messages| - 1;
      var before, last := messages[..n], messages[n];
      FollowCallsByEvents(before);
      ResultsSnoc(messages);
      ReturnsSnoc(Events(before), last);
      IdsOfCalls(before, last.toolCallId);
      hide EventsOf, ResultsFollowCalls, ReturnsFollowCalls, CallIds;
    }
  }

  lemma ResultsSnoc(messages: seq<Message>)
    requires messages != []
    ensures var before, last := messages[..|messages| - 1], messages[|messages| - 1];
            ResultsFollowCalls(messages) <==>
              ResultsFollowCalls(before) && (last.role == "tool" ==> last.toolCallId in CallIds(before))
  {
    hide CallIds;
    var before := messages[..|messages| - 1];
    assert forall i :: 0 <= i < |before| ==> messages[..i] == before[..i];
    assert forall i :: 0 <= i < |before| ==> messages[i] == before[i];
  }

  lemma IdsOfCalls(messages: seq<Message>, id: string)
    ensures var es := Events(messages);
            id in CallIds(messages) <==> exists j :: 0 <= j < |es| && es[j].Called? && es[j].call.id == id
  {
    hide Events;
    var es := Events(messages);
    if id in CallIds(messages) {
      var e :| e in es && e.Called? && e.call.id == id;
      var j :| 0 <= j < |es| && es[j] == e;
    }
  }

  lemma ReturnsSnoc(es: seq<Event>, last: Message)
    ensures ReturnsFollowCalls(es + EventsOf(last)) <==>
      ReturnsFollowCalls(es) &&
      (last.role == "tool" ==> exists j :: 0 <= j < |es| && es[j].Called? && es[j].call.id == last.toolCallId)
  {
    var all := es + EventsOf(last);
    assert forall i :: 0 <= i < |es| ==> all[i] == es[i];
    assert forall i :: |es| <= i < |all| ==> all[i] == EventsOf(last)[i - |es|];
    if last.role == "tool" { assert all[|es|] == Returned(last); }
  }

  /** If every result followed its call before, it still does. */
  lemma FoldKeepsPairing(space: char -> bool, messages: seq<Message>)
    ensures ResultsFollowCalls(Fold(space, messages)) <==> ResultsFollowCalls(NonSystem(messages))
  {
    FoldKeepsEvents(space, messages);
    FollowCallsByEvents(Fold(space, messages));
    FollowCallsByEvents(NonSystem(messages));
  }

  // ---------------------------------------------------------------- text

  /** What a reader sees: characters, and contents that are not strings. */
  datatype Token = Char(c: char) | Whole(content: Content)

  function Chars(s: string): seq<Token> { seq(|s|, i requires 0 <= i < |s| => Char(s[i])) }

  function Shown(msg: Message): seq<Token> {
    if msg.Got().Str? then Chars(msg.Got().s + GAP) else [Whole(msg.Got())]
  }

  /** All contents in order, each string followed by a gap. */
  function Reading(messages: seq<Message>): seq<Token> {
    if messages == [] then []
    else
      Reading(messages[..|messages| - 1]) + Shown(messages[|messages| - 1])
  }

  lemma ReadingSnoc(messages: seq<Message>, msg: Message)
    ensures Reading(messages + [msg]) == Reading(messages) + Shown(msg)
  {
    assert (messages + [msg])[..|messages|] == messages;
  }

  lemma CharsConcat(a: string, b: string)
    ensures Chars(a + b) == Chars(a) + Chars(b)
  {}

  lemma {:induction false} MergeKeepsText(messages: seq<Message>)
    ensures Reading(Merge(messages)) == Reading(messages)
  {
    if messages != [] {
      hide Shown, Append;
      MergeKeepsText(messages[..|messages| - 1]);
      AppendReads(Merge(messages[..|messages| - 1]), messages[|messages| - 1]);
    }
  }

  /** A further message, merged or not, adds its own content to what is read. */
  lemma AppendReads(merged: seq<Message>, msg: Message)
    ensures Reading(Append(merged, msg)) == Reading(merged) + Shown(msg)
  {
    hide Shown, Mergeable, Combine, Reading;
    var n := |merged|;
    if n > 0 && Mergeable(merged[n - 1], msg) {
      var before, prev := merged[..n - 1], merged[n - 1];
      CombineReads(prev, msg);
      ReadingSnoc(before, Combine(prev, msg));
      ReadingSnoc(before, prev);
      assert before + [prev] == merged;
      TokensRegroup(Reading(before), Shown(prev), Shown(msg));
    } else {
      ReadingSnoc(merged, msg);
    }
  }

  lemma TokensRegroup(a: seq<Token>, b: seq<Token>, c: seq<Token>)
    ensures a + (b + c) == a + b + c
  {}

  lemma CombineReads(prev: Message, msg: Message)
    requires Mergeable(prev, msg)
    ensures Shown(Combine(prev, msg)) == Shown(prev) + Shown(msg)
  {
    var a, b := prev.Got().s, msg.Got().s;
    assert a + GAP + b + GAP == (a + GAP) + (b + GAP);
    CharsConcat(a + GAP, b + GAP);
  }

  /** Folding changes no text: it reads as the system text, then the other messages, with the same gaps. */
  lemma FoldKeepsText(space: char -> bool, messages: seq<Message>)
    ensures Reading(Fold(space, messages)) == Reading(Front(space, messages) + NonSystem(messages))
  {
    MergeKeepsText(Front(space, messages) + NonSystem(messages));
  }

  // ---------------------------------------------------------------- idempotence

  lemma AlternatesPrefix(messages: seq<Message>, n: nat)
    requires Alternates(messages) && n < |messages|
    ensures Alternates(messages[..n]) && (n > 0 ==> !Mergeable(messages[..n][n - 1], messages[n]))
  {
    hide Mergeable;
    forall i | 0 < i < n ensures !Mergeable(messages[..n][i - 1], messages[..n][i]) {
      assert !Mergeable(messages[i - 1], messages[i]);
    }
  }

  lemma {:induction false} AlternatingIsFixed(messages: seq<Message>)
    requires Alternates(messages)
    ensures Merge(messages) == messages
  {
    if messages != [] {
      AlternatesPrefix(messages, |messages| - 1);
      hide Mergeable, Alternates;
      AlternatingIsFixed(messages[..|messages| - 1]);
    }
  }

  lemma NoSystemPrefix(messages: seq<Message>)
    requires NoSystem(messages) && messages != []
    ensures NoSystem(messages[..|messages| - 1]) && messages[|messages| - 1].role != "system"
  {
    assert messages[|messages| - 1] in messages;
  }

  lemma {:induction false} NoSystemIsFixed(space: char -> bool, messages: seq<Message>)
    requires NoSystem(messages)
    ensures SystemParts(space, messages) == [] && NonSystem(messages) == messages
  {
    if messages != [] {
      hide SystemParts, NonSystem, NoSystem;
      var before, last := messages[..|messages| - 1], messages[|messages| - 1];
      NoSystemPrefix(messages);
      NoSystemIsFixed(space, before);
      OtherLast(space, messages);
    } else {
      assert SystemParts(space, []) == [] && NonSystem([]) == [];
    }
  }

  /** A last message that is no system message is kept and contributes no system text. */
  lemma OtherLast(space: char -> bool, messages: seq<Message>)
    requires messages != [] && messages[|messages| - 1].role != "system"
    ensures var before, last := messages[..|messages| - 1], messages[|messages| - 1];
            && NonSystem(messages) == NonSystem(before) + [last] && before + [last] == messages
            && SystemParts(space, messages) == SystemParts(space, before)
  {
    hide SystemText;
  }

  lemma FoldIdempotent(space: char -> bool, messages: seq<Message>)
    ensures Fold(space, Fold(space, messages)) == Fold(space, messages)
  {
    var once := Fold(space, messages);
    FoldAlternates(space, messages);
    NoSystemIsFixed(space, once);
    AlternatingIsFixed(once);
    assert [] + once == once;
  }

  // ---------------------------------------------------------------- in plain terms

  lemma JoinInPlainTerms(separator: string, parts: seq<string>, last: string)
    ensures Join(separator, []) == "" && Join(separator, [last]) == last
    ensures parts != [] ==> Join(separator, parts + [last]) == Join(separator, parts) + separator + last
  {
    assert (parts + [last])[..|parts|] == parts;
  }

  /** Positions in ascending order. */
  predicate Ascending(at: seq<nat>, n: nat) {
    && (forall i :: 0 <= i < |at| ==> at[i] < n)
    && forall i, j :: 0 <= i < j < |at| ==> at[i] < at[j]
  }

  function Chosen(messages: seq<Message>, at: seq<nat>): seq<Message>
    requires Ascending(at, |messages|)
  {
    seq(|at|, i requires 0 <= i < |at| => messages[at[i]])
  }

  /** The system message has this text: a string that is not empty, or parts joined by blanks that are not all blank. */
  predicate Says(space: char -> bool, msg: Message, text: string) {
    && msg.role == "system"
    && ((msg.content.Str? && msg.content.s == text && text != "") ||
        (msg.content.Parts? && Join(" ", msg.content.texts) == text && exists c :: c in text && !space(c)))
  }

  lemma SystemTextSays(space: char -> bool, msg: Message)
    requires msg.role == "system"
    ensures |SystemText(space, msg)| <= 1
    ensures SystemText(space, msg) == [] ==> forall text :: !Says(space, msg, text)
    ensures SystemText(space, msg) != [] ==>
              forall text :: Says(space, msg, text) <==> text == SystemText(space, msg)[0]
  {}

  /** The system texts are those of all system messages that have one, in order. */
  lemma {:induction false} SystemInPlainTerms(space: char -> bool, messages: seq<Message>) returns (at: seq<nat>)
    ensures Ascending(at, |messages|) && |at| == |SystemParts(space, messages)|
    ensures forall i :: 0 <= i < |at| ==> Says(space, messages[at[i]], SystemParts(space, messages)[i])
    ensures forall k, text :: 0 <= k < |messages| && Says(space, messages[k], text) ==> k in at
  {
    hide Says, SystemText;
    at := [];
    if messages != [] {
      var n := |messages| - 1;
      var before, last := messages[..n], messages[n];
      at := SystemInPlainTerms(space, before);
      ghost var earlier := at;
      if last.role == "system" {
        SystemTextSays(space, last);
        if SystemText(space, last) != [] { at := at + [n]; }
      } else {
        OnlySystemSays(space, last);
      }
      forall k, text | 0 <= k < |messages| && Says(space, messages[k], text) ensures k in at {
        if k < n {
          assert before[k] == messages[k] && k in earlier;
        } else if at != earlier {
          assert at[|earlier|] == n;
        }
      }
    }
  }

  lemma OnlySystemSays(space: char -> bool, msg: Message)
    requires msg.role != "system"
    ensures forall text :: !Says(space, msg, text)
  {}

  /** The other messages are all of them, in order. */
  lemma {:induction false} OthersInPlainTerms(messages: seq<Message>) returns (at: seq<nat>)
    ensures Ascending(at, |messages|) && Chosen(messages, at) == NonSystem(messages)
    ensures forall k :: 0 <= k < |messages| ==> (k in at <==> messages[k].role != "system")
  {
    at := [];
    if messages != [] {
      var n := |messages| - 1;
      var before := messages[..n];
      var earlier := OthersInPlainTerms(before);
      if messages[n].role != "system" {
        at := earlier + [n];
        assert at[|earlier|] == n;
        ChosenMore(messages, earlier);
      } else {
        at := earlier;
        assert Chosen(messages, at) == Chosen(before, earlier);
      }
      hide Chosen;
    }
  }

  lemma ChosenMore(messages: seq<Message>, at: seq<nat>)
    requires messages != [] && Ascending(at, |messages| - 1)
    ensures Ascending(at + [|messages| - 1], |messages|)
    ensures Chosen(messages, at + [|messages| - 1])
         == Chosen(messages[..|messages| - 1], at) + [messages[|messages| - 1]]
  {}

  /** What folding starts from: one user message with the texts of all system messages that have one, then
      all other messages, once and in order. */
  lemma FoldInPlainTerms(space: char -> bool, messages: seq<Message>)
    returns (at: seq<nat>, texts: seq<string>, others: seq<nat>)
    ensures Ascending(at, |messages|) && |at| == |texts|
    ensures forall i :: 0 <= i < |at| ==> Says(space, messages[at[i]], texts[i])
    ensures forall k, text :: 0 <= k < |messages| && Says(space, messages[k], text) ==> k in at
    ensures Ascending(others, |messages|)
    ensures forall k :: 0 <= k < |messages| ==> (k in others <==> messages[k].role != "system")
    ensures texts == [] ==> Fold(space, messages) == Merge(Chosen(messages, others))
    ensures texts != [] ==>
      Fold(space, messages)
      == Merge([Message("user", Str(Join("\n\n---\n\n", texts)), None, "", map[])] + Chosen(messages, others))
  {
    hide Says;
    at := SystemInPlainTerms(space, messages);
    texts := SystemParts(space, messages);
    others := OthersInPlainTerms(messages);
    assert [] + NonSystem(messages) == NonSystem(messages);
  }

  // ---------------------------------------------------------------- the system text stays in front

  predicate StandsAt(text: string, part: string, at: nat) {
    at + |part| <= |text| && text[at..at + |part|] == part
  }

  /** Only the separator stands between the part here and the next place. */
  predicate JoinedAt(text: string, part: string, at: nat, next: nat, separator: string) {
    at + |part| + |separator| == next <= |text| && text[at + |part|..next] == separator
  }

  /** The parts stand in the text at these places, one after the other, with only the separator between. */
  predicate StandIn(text: string, parts: seq<string>, separator: string, at: seq<nat>) {
    && |at| == |parts| && (at != [] ==> at[0] == 0)
    && (forall i :: 0 <= i < |at| ==> StandsAt(text, parts[i], at[i]))
    && forall i, next :: 0 <= i < |at| && 0 <= next < |at| && next == i + 1 ==>
         JoinedAt(text, parts[i], at[i], at[next], separator)
  }

  lemma {:induction false} JoinStands(separator: string, parts: seq<string>) returns (at: seq<nat>)
    ensures StandIn(Join(separator, parts), parts, separator, at)
    ensures parts != [] ==> at[|at| - 1] + |parts[|parts| - 1]| == |Join(separator, parts)|
  {
    if parts == [] {
      at := [];
    } else if |parts| == 1 {
      at := [0];
      assert parts[0][0..|parts[0]|] == parts[0];
    } else {
      hide StandIn;
      var n := |parts| - 1;
      var before, last := parts[..n], parts[n];
      var earlier := JoinStands(separator, before);
      var text := Join(separator, before);
      at := earlier + [|text| + |separator|];
      StandSnoc(text, before, separator, earlier, last);
      assert before + [last] == parts;
    }
  }

  lemma StandSnoc(text: string, parts: seq<string>, separator: string, at: seq<nat>, last: string)
    requires StandIn(text, parts, separator, at) && |parts| == |at| > 0
    requires at[|at| - 1] + |parts[|at| - 1]| == |text|
    ensures StandIn(text + separator + last, parts + [last], separator, at + [|text| + |separator|])
  {
    var all := text + separator + last;
    assert all == text + (separator + last);
    StandLonger(text, parts, separator, at, separator + last);
    assert all[|text| + |separator|..|all|] == last && all[|text|..|text| + |separator|] == separator;
    StandMore(all, parts, separator, at, last, |text| + |separator|);
  }

  lemma StandMore(all: string, parts: seq<string>, separator: string, at: seq<nat>, last: string, place: nat)
    requires StandIn(all, parts, separator, at) && at != [] && StandsAt(all, last, place)
    requires JoinedAt(all, parts[|at| - 1], at[|at| - 1], place, separator)
    ensures StandIn(all, parts + [last], separator, at + [place])
  {
    hide StandsAt, JoinedAt;
    var n, grown, more := |at|, at + [place], parts + [last];
    forall i, next | 0 <= i < |grown| && 0 <= next < |grown| && next == i + 1
      ensures JoinedAt(all, more[i], grown[i], grown[next], separator)
    {
      if next < n { assert grown[i] == at[i] && grown[next] == at[next] && more[i] == parts[i]; }
    }
  }

  lemma StandLonger(text: string, parts: seq<string>, separator: string, at: seq<nat>, more: string)
    requires StandIn(text, parts, separator, at)
    ensures StandIn(text + more, parts, separator, at)
  {
    var all := text + more;
    forall i, j | 0 <= i <= j <= |text| ensures all[i..j] == text[i..j] {}
  }

  /** The first message keeps its role, and its text stays in front. */
  lemma {:induction false} MergeHead(messages: seq<Message>)
    requires messages != [] && messages[0].content.Str?
    ensures var first := Merge(messages)[0];
            && first.role == messages[0].role && first.content.Str?
            && exists more :: first.content.s == messages[0].content.s + more
  {
    if |messages| == 1 {
      assert messages[..0] == [];
      assert messages[0].content.s + "" == messages[0].content.s;
    } else {
      hide Append, Merge;
      var before, last := messages[..|messages| - 1], messages[|messages| - 1];
      MergeHead(before);
      AppendHead(Merge(before), last, messages[0].content.s);
      assert Merge(messages) == Append(Merge(before), last) by { MergeNext(messages); }
    }
  }

  lemma MergeNext(messages: seq<Message>)
    requires messages != []
    ensures Merge(messages) == Append(Merge(messages[..|messages| - 1]), messages[|messages| - 1])
  {}

  lemma AppendHead(merged: seq<Message>, msg: Message, s: string)
    requires merged != [] && merged[0].content.Str? && exists more :: merged[0].content.s == s + more
    ensures var grown := Append(merged, msg);
            && grown != [] && grown[0].role == merged[0].role && grown[0].content.Str?
            && exists more :: grown[0].content.s == s + more
  {
    if |merged| == 1 && Mergeable(merged[0], msg) {
      var more :| merged[0].content.s == s + more;
      assert s + (more + GAP + msg.Got().s) == merged[0].content.s + GAP + msg.Got().s;
    }
  }

  /** The first message of the result is a user message that begins with the texts of all system messages
      that have one, in order and with only the separator between them. */
  lemma SystemTextStaysInFront(space: char -> bool, messages: seq<Message>)
    returns (system: seq<nat>, texts: seq<string>, at: seq<nat>)
    ensures Ascending(system, |messages|) && |system| == |texts|
    ensures forall i :: 0 <= i < |texts| ==> Says(space, messages[system[i]], texts[i])
    ensures forall k, text :: 0 <= k < |messages| && Says(space, messages[k], text) ==> k in system
    ensures texts != [] ==>
      var merged := Fold(space, messages);
      && merged != [] && merged[0].role == "user" && merged[0].content.Str?
      && StandIn(merged[0].content.s, texts, "\n\n---\n\n", at)
  {
    var others;
    system, texts, others := FoldInPlainTerms(space, messages);
    at := JoinStands("\n\n---\n\n", texts);
    hide Says, StandIn;
    if texts != [] {
      var text := Join("\n\n---\n\n", texts);
      var all := [Message("user", Str(text), None, "", map[])] + Chosen(messages, others);
      MergeHead(all);
      var more :| Merge(all)[0].content.s == text + more;
      StandLonger(text, texts, "\n\n---\n\n", at, more);
    }
  }

  lemma {:induction false} PartsConcat(space: char -> bool, a: seq<Message>, b: seq<Message>)
    ensures SystemParts(space, a + b) == SystemParts(space, a) + SystemParts(space, b)
    ensures NonSystem(a + b) == NonSystem(a) + NonSystem(b)
  {
    hide SystemText;
    if b == [] {
      assert a + b == a;
    } else {
      AllButLast(a, b);
      PartsConcat(space, a, b[..|b| - 1]);
    }
  }

  /** A single system message moves to the front as a user message. */
  lemma SingleSystemMovesToFront(space: char -> bool, pre: seq<Message>, s: string, post: seq<Message>,
                                 toolCalls: Option<seq<Call>>, id: string, fields: map<string, string>)
    requires s != "" && NoSystem(pre) && NoSystem(post)
    ensures Fold(space, pre + [Message("system", Str(s), toolCalls, id, fields)] + post)
         == Merge([Message("user", Str(s), None, "", map[])] + pre + post)
  {
    hide Merge, NoSystem, SystemParts, NonSystem;
    var system := [Message("system", Str(s), toolCalls, id, fields)];
    PartsConcat(space, pre + system, post);
    PartsConcat(space, pre, system);
    NoSystemIsFixed(space, pre);
    NoSystemIsFixed(space, post);
    OneSystem(space, system[0]);
    assert [] + [s] + [] == [s] && pre + [] + post == pre + post;
    var user := [Message("user", Str(s), None, "", map[])];
    assert user + (pre + post) == user + pre + post;
  }

  lemma OneSystem(space: char -> bool, msg: Message)
    requires msg.role == "system" && msg.content.Str? && msg.content.s != ""
    ensures SystemParts(space, [msg]) == [msg.content.s] && NonSystem([msg]) == []
  {
    assert [msg][..0] == [];
  }

  // ---------------------------------------------------------------- merging in plain terms

  predicate IsText(msg: Message) { msg.content.Missing? || msg.content.Str? }

  function TextOf(msg: Message): string { if msg.content.Str? then msg.content.s else "" }

  function Texts(run: seq<Message>): seq<string> {
    seq(|run|, i requires 0 <= i < |run| => TextOf(run[i]))
  }

  function CallsOf(run: seq<Message>): seq<Call> {
    if run == [] then []
    else
      var last := run[|run| - 1];
      CallsOf(run[..|run| - 1]) + (if last.toolCalls.Some? then last.toolCalls.value else [])
  }

  function Flat(runs: seq<seq<Message>>): seq<Message> {
    if runs == [] then [] else Flat(runs[..|runs| - 1]) + runs[|runs| - 1]
  }

  /** Two neighbours are not merged: other roles, tool results, or a content that is no text. */
  predicate Apart(a: Message, b: Message) { a.role != b.role || a.role == "tool" || !IsText(a) || !IsText(b) }

  /** A run of several messages has one role and only texts; its message is the first one with all texts,
      a gap between them, and with all tool calls. */
  predicate MergedFrom(run: seq<Message>, msg: Message) {
    && run != [] && (|run| == 1 ==> msg == run[0])
    && (|run| > 1 ==>
          && (forall i :: 0 <= i < |run| ==> run[i].role == run[0].role && run[i].role != "tool" && IsText(run[i]))
          && msg == run[0].(content := Str(Join("\n\n", Texts(run))),
                            toolCalls := if CallsOf(run) != [] then Some(CallsOf(run)) else run[0].toolCalls))
  }

  predicate RunsApart(runs: seq<seq<Message>>) {
    && (forall i :: 0 <= i < |runs| ==> runs[i] != [])
    && forall i, next :: 0 <= i < |runs| && 0 <= next < |runs| && next == i + 1 ==>
         Apart(runs[i][|runs[i]| - 1], runs[next][0])
  }

  predicate AllMergedFrom(runs: seq<seq<Message>>, merged: seq<Message>) {
    |runs| == |merged| && forall i :: 0 <= i < |runs| ==> MergedFrom(runs[i], merged[i])
  }

  lemma MergeableInPlainTerms(run: seq<Message>, prev: Message, msg: Message)
    requires MergedFrom(run, prev)
    ensures Mergeable(prev, msg) <==> !Apart(run[|run| - 1], msg)
  {
    hide Join, CallsOf;
  }

  lemma RunGrows(run: seq<Message>, prev: Message, msg: Message)
    requires MergedFrom(run, prev) && Mergeable(prev, msg)
    ensures MergedFrom(run + [msg], Combine(prev, msg))
  {
    var n, grown := |run|, run + [msg];
    assert grown[..n] == run;
    JoinInPlainTerms("\n\n", Texts(run), TextOf(msg));
    assert Texts(grown) == Texts(run) + [TextOf(msg)];
    hide Join;
    CallsNext(run, msg);
    FirstCalls(run);
    hide CallsOf;
    assert prev.Calls() == CallsOf(run) by { if n == 1 { OneCalls(run); } }
    if n == 1 {
      assert Texts(run) == [TextOf(run[0])];
      JoinInPlainTerms("\n\n", [], TextOf(run[0]));
    }
  }

  lemma OneCalls(run: seq<Message>)
    requires |run| == 1
    ensures CallsOf(run) == run[0].Calls()
  {
    assert CallsOf(run[..0]) == [] && [] + run[0].Calls() == run[0].Calls();
  }

  lemma {:induction false} FirstCalls(run: seq<Message>)
    requires run != []
    ensures CallsOf(run) == [] ==> run[0].Calls() == []
  {
    if |run| > 1 { FirstCalls(run[..|run| - 1]); }
  }

  lemma CallsNext(run: seq<Message>, msg: Message)
    ensures CallsOf(run + [msg]) == CallsOf(run) + msg.Calls()
  {
    assert (run + [msg])[..|run|] == run;
  }

  /** One message more makes the last run longer or starts a new one. */
  lemma AppendInPlainTerms(runs: seq<seq<Message>>, merged: seq<Message>, msg: Message)
    returns (grown: seq<seq<Message>>)
    requires AllMergedFrom(runs, merged) && RunsApart(runs)
    ensures Flat(grown) == Flat(runs) + [msg] && AllMergedFrom(grown, Append(merged, msg)) && RunsApart(grown)
  {
    hide MergedFrom, Mergeable, Combine, Apart;
    var n := |runs|;
    if n > 0 { MergeableInPlainTerms(runs[n - 1], merged[n - 1], msg); }
    if n > 0 && Mergeable(merged[n - 1], msg) {
      grown := runs[..n - 1] + [runs[n - 1] + [msg]];
      RunGrows(runs[n - 1], merged[n - 1], msg);
      assert grown[..n - 1] == runs[..n - 1];
    } else {
      grown := runs + [[msg]];
      assert grown[..n] == runs;
      OneMerged(msg);
    }
  }

  lemma OneMerged(msg: Message)
    ensures MergedFrom([msg], msg)
  {}

  /** Merging cuts the messages into runs and makes one message of each; a run ends only where two
      neighbours must not be merged. */
  lemma {:induction false} MergeInPlainTerms(messages: seq<Message>) returns (runs: seq<seq<Message>>)
    ensures Flat(runs) == messages && RunsApart(runs) && AllMergedFrom(runs, Merge(messages))
  {
    hide RunsApart, AllMergedFrom, Append;
    runs := [];
    if messages == [] {
      NoRuns(runs);
      assert Merge(messages) == [];
    } else {
      var before, last := messages[..|messages| - 1], messages[|messages| - 1];
      runs := MergeInPlainTerms(before);
      runs := AppendInPlainTerms(runs, Merge(before), last);
      MergeNext(messages);
      assert before + [last] == messages;
    }
  }

  lemma NoRuns(runs: seq<seq<Message>>)
    requires runs == []
    ensures RunsApart(runs) && AllMergedFrom(runs, []) && Flat(runs) == []
  {}
}
