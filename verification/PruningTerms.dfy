/** What in-loop pruning does to each message and what it counts, without the functions it is proved against. */
module PruningTerms {
  import opened Wrappers
  import opened Pruning

  /** An iteration starts with an assistant message that calls tools. */
  predicate Starts(m: Message) { m.role == "assistant" && m.calls != [] }

  predicate Ascending(at: seq<nat>) { forall a, b :: 0 <= a < b < |at| ==> at[a] < at[b] }

  // ---------------------------------------------------------------- names

  /** An assistant message makes a call with this id. */
  predicate CallAt(messages: seq<Message>, i: int, j: int, id: string) {
    && 0 <= i < |messages| && messages[i].role == "assistant" && 0 <= j < |messages[i].calls|
    && id != "" && messages[i].calls[j].id == id
  }

  /** It is the last such call. */
  ghost predicate LastCall(messages: seq<Message>, i: int, j: int, id: string) {
    CallAt(messages, i, j, id) && forall k, l :: CallAt(messages, k, l, id) ==> k < i || (k == i && l <= j)
  }

  function SaidName(call: Call): string {
    if call.fn.Some? && call.fn.value.name.Some? then call.fn.value.name.value else "unknown"
  }

  lemma {:induction false} FindInCalls(calls: seq<Call>, names: map<string, string>, id: string) returns (j: int)
    ensures -1 <= j < |calls|
    ensures j == -1 ==> (forall l :: 0 <= l < |calls| ==> id == "" || calls[l].id != id)
    ensures j == -1 ==> (id in NameCalls(calls, names) <==> id in names) &&
                        (id in names ==> NameCalls(calls, names)[id] == names[id])
    ensures j >= 0 ==> id != "" && calls[j].id == id && (forall l :: j < l < |calls| ==> calls[l].id != id)
    ensures j >= 0 ==> id in NameCalls(calls, names) && NameCalls(calls, names)[id] == SaidName(calls[j])
  {
    j := -1;
    if calls != [] {
      var n := |calls| - 1;
      j := FindInCalls(calls[..n], names, id);
      if id != "" && calls[n].id == id { j := n; }
    }
  }

  lemma {:induction false} FindName(messages: seq<Message>, id: string) returns (i: int, j: int)
    ensures i < 0 ==> id !in NameMap(messages) && forall k, l :: !CallAt(messages, k, l, id)
    ensures i >= 0 ==> LastCall(messages, i, j, id) && id in NameMap(messages)
                       && NameMap(messages)[id] == SaidName(messages[i].calls[j])
  {
    i, j := -1, -1;
    if messages != [] {
      var n := |messages| - 1;
      var before, last := messages[..n], messages[n];
      i, j := FindName(before, id);
      assert forall k, l :: 0 <= k < n ==> (CallAt(messages, k, l, id) <==> CallAt(before, k, l, id));
      if last.role == "assistant" {
        var l := FindInCalls(last.calls, NameMap(before), id);
        if l >= 0 { i, j := n, l; }
      }
    }
  }

  /** The name a result is labelled with: that of the last call with its id, or none known. */
  ghost predicate NamedBy(messages: seq<Message>, id: string, name: string) {
    if exists i, j :: LastCall(messages, i, j, id)
    then exists i, j :: LastCall(messages, i, j, id) && name == SaidName(messages[i].calls[j])
    else name == "unknown" && forall i, j :: !CallAt(messages, i, j, id)
  }

  lemma NameInPlainTerms(messages: seq<Message>, id: string)
    ensures NamedBy(messages, id, NameOf(NameMap(messages), id))
  {
    hide NameMap;
    var i, j := FindName(messages, id);
    if i >= 0 {
      assert LastCall(messages, i, j, id);
    } else {
      hide CallAt;
    }
  }

  // ---------------------------------------------------------------- the boundary

  /** The boundary is the start of the `keep`-th iteration from the end. */
  lemma {:induction false} BoundaryInPlainTerms(messages: seq<Message>, keep: nat) returns (at: seq<nat>)
    requires keep >= 1
    ensures Ascending(at) && forall k :: k in at <==> 0 <= k < |messages| && Starts(messages[k])
    ensures forall a :: 0 <= a < |at| ==> at[a] < |messages|
    ensures Boundary(messages, keep) == if |at| < keep then None else Some(at[|at| - keep])
  {
    at := [];
    if messages != [] {
      var n := |messages| - 1;
      var before := messages[..n];
      if Starts(messages[n]) {
        at := BoundaryInPlainTerms(before, if keep == 1 then 1 else keep - 1);
        at := at + [n];
      } else {
        at := BoundaryInPlainTerms(before, keep);
      }
    }
  }

  // ---------------------------------------------------------------- what becomes of a message

  /** Long arguments that are no marker yet are replaced by one that names the tool and their length. */
  predicate CompactedAs(mk: Markers, min: int, call: Call, after: Call) {
    if call.fn.None? || |call.fn.value.arguments.s| < min || mk.isPruned(call.fn.value.arguments.s) then after == call
    else
      var fn := call.fn.value;
      var name := if fn.name == None || fn.name == Some("") then "tool" else fn.name.value;
      after == Call(call.id, Some(Function(fn.name, Str(mk.args(name, |fn.arguments.s|)))))
  }

  /** A long tool result that may be pruned. */
  predicate Long(min: int, m: Message) { m.role == "tool" && !m.noPrune && |m.content.s| >= min }

  ghost predicate PrunedAs(mk: Markers, min: int, prefix: seq<Message>, m: Message, after: Message) {
    if Starts(m) then
      && |after.calls| == |m.calls| && after == m.(calls := after.calls)
      && forall j :: 0 <= j < |m.calls| ==> CompactedAs(mk, min, m.calls[j], after.calls[j])
    else if Long(min, m) then
      exists name :: NamedBy(prefix, m.callId, name) &&
        after == m.(content := Str(mk.result(name, |m.content.s|, m.recordId)))
    else after == m
  }

  lemma MessageInPlainTerms(mk: Markers, min: int, prefix: seq<Message>, m: Message)
    ensures PrunedAs(mk, min, prefix, m, PruneMessage(mk, min, NameMap(prefix), m))
  {
    hide NameMap, NamedBy;
    NameInPlainTerms(prefix, m.callId);
  }

  /** From the start of the `keep`-th iteration from the end on, and when there is none, nothing changes;
      every message before it becomes what its own role, length and flags say. */
  lemma PruneInPlainTerms(mk: Markers, min: int, messages: seq<Message>, keep: nat) returns (at: seq<nat>)
    requires keep >= 1
    ensures Ascending(at) && forall k :: k in at <==> 0 <= k < |messages| && Starts(messages[k])
    ensures |at| < keep ==> Prune(mk, min, messages, keep) == messages
    ensures |at| >= keep ==>
      var b, after := at[|at| - keep], Prune(mk, min, messages, keep);
      && b < |messages| && |after| == |messages| && after[b..] == messages[b..]
      && forall i :: 0 <= i < b ==> PrunedAs(mk, min, messages[..b], messages[i], after[i])
  {
    at := BoundaryInPlainTerms(messages, keep);
    hide Boundary, PruneMessage, NameMap, PrunedAs, Starts;
    if |at| >= keep {
      var b := at[|at| - keep];
      var after := PrunePrefix(mk, min, messages, b);
      PruneAt(mk, min, messages, keep, b);
      assert after[b..] == messages[b..];
      forall i | 0 <= i < b ensures PrunedAs(mk, min, messages[..b], messages[i], after[i]) {
        MessageInPlainTerms(mk, min, messages[..b], messages[i]);
      }
    }
  }

  // ---------------------------------------------------------------- what is counted

  /** A call whose arguments are replaced. */
  predicate LongCall(mk: Markers, min: int, call: Call) {
    call.fn.Some? && |call.fn.value.arguments.s| >= min && !mk.isPruned(call.fn.value.arguments.s)
  }

  /** Something of this message is replaced. */
  predicate Touched(mk: Markers, min: int, m: Message) {
    if Starts(m) then exists j :: 0 <= j < |m.calls| && LongCall(mk, min, m.calls[j]) else Long(min, m)
  }

  /** The first touched message of its iteration: behind every earlier one a new iteration has started. */
  predicate FirstTouched(mk: Markers, min: int, messages: seq<Message>, i: nat)
    requires i < |messages|
  {
    && Touched(mk, min, messages[i])
    && forall k :: 0 <= k < i && Touched(mk, min, messages[k]) ==> StartsWithin(messages, k, i)
  }

  /** An iteration starts behind `k` and not behind `i`. */
  predicate StartsWithin(messages: seq<Message>, k: int, i: int) {
    exists l :: k < l <= i && 0 <= l < |messages| && Starts(messages[l])
  }

  lemma {:induction false} CompactTouches(mk: Markers, min: int, calls: seq<Call>)
    ensures CompactStats(mk, min, calls).0 > 0 <==> exists j :: 0 <= j < |calls| && LongCall(mk, min, calls[j])
  {
    if calls != [] {
      var n := |calls| - 1;
      CompactTouches(mk, min, calls[..n]);
      assert forall j :: 0 <= j < n ==> calls[..n][j] == calls[j];
    }
  }

  /** Some touched message has no start of an iteration behind it, up to the `n`-th message. */
  predicate OpenAt(mk: Markers, min: int, messages: seq<Message>, n: int)
    requires n <= |messages|
  {
    exists k :: 0 <= k < n && Touched(mk, min, messages[k]) && !StartsWithin(messages, k, n - 1)
  }

  /** One message more: a start closes the iteration before it, another message changes nothing there. */
  lemma OpenNext(mk: Markers, min: int, messages: seq<Message>, n: nat)
    requires 0 < n <= |messages|
    ensures FirstTouched(mk, min, messages, n - 1) <==>
              Touched(mk, min, messages[n - 1]) && (Starts(messages[n - 1]) || !OpenAt(mk, min, messages, n - 1))
    ensures OpenAt(mk, min, messages, n) <==>
              Touched(mk, min, messages[n - 1]) || (!Starts(messages[n - 1]) && OpenAt(mk, min, messages, n - 1))
  {
    hide Touched, Starts;
    var last, before := n - 1, n - 2;
    forall k | 0 <= k < last
      ensures StartsWithin(messages, k, last) <==> Starts(messages[last]) || StartsWithin(messages, k, before)
    {
      StartsNext(messages, k, last);
    }
    assert !StartsWithin(messages, last, last);
    hide StartsWithin;
    assert Touched(mk, min, messages[n - 1]) ==> OpenAt(mk, min, messages, n);
  }

  lemma StartsNext(messages: seq<Message>, k: nat, i: nat)
    requires k < i < |messages|
    ensures StartsWithin(messages, k, i) <==> Starts(messages[i]) || StartsWithin(messages, k, i - 1)
  {
    hide Starts;
  }

  /** The counters: the results replaced, and the iterations in which something was. */
  lemma {:induction false} CountInPlainTerms(mk: Markers, min: int, names: map<string, string>,
                                             messages: seq<Message>, n: nat)
    returns (cut: seq<nat>, rounds: seq<nat>)
    requires n <= |messages|
    ensures Ascending(cut) && forall k :: k in cut <==> 0 <= k < n && Long(min, messages[k])
    ensures Ascending(rounds) && forall k :: k in rounds <==> 0 <= k < n && FirstTouched(mk, min, messages, k)
    ensures var t := CountPrefix(mk, min, names, messages, n);
            && t.stats.pruned == |cut| && t.Close().iterations == |rounds|
            && (t.open <==> OpenAt(mk, min, messages, n))
  {
    hide FirstTouched, OpenAt, Touched, Long, CompactStats, Count, Starts;
    cut, rounds := [], [];
    if n == 0 {
      NoneOpen(mk, min, messages);
      CountNone(mk, min, names, messages);
    } else {
      CountNext(mk, min, names, messages, n);
      cut, rounds := CountInPlainTerms(mk, min, names, messages, n - 1);
      OpenNext(mk, min, messages, n);
      CountStep(mk, min, names, CountPrefix(mk, min, names, messages, n - 1), messages[n - 1]);
      assert forall a :: 0 <= a < |cut| ==> cut[a] in cut;
      assert forall a :: 0 <= a < |rounds| ==> rounds[a] in rounds;
      if Long(min, messages[n - 1]) { cut := cut + [n - 1]; }
      if FirstTouched(mk, min, messages, n - 1) { rounds := rounds + [n - 1]; }
    }
  }

  lemma NoneOpen(mk: Markers, min: int, messages: seq<Message>)
    ensures !OpenAt(mk, min, messages, 0)
  {}

  lemma CountStep(mk: Markers, min: int, names: map<string, string>, t: Tally, m: Message)
    ensures var after := Count(mk, min, names, t, m);
            && after.stats.pruned == t.stats.pruned + (if Long(min, m) then 1 else 0)
            && (after.open <==> Touched(mk, min, m) || (!Starts(m) && t.open))
            && after.Close().iterations
               == t.Close().iterations + (if Touched(mk, min, m) && (Starts(m) || !t.open) then 1 else 0)
  {
    CompactTouches(mk, min, m.calls);
    hide LongCall, CompactStats;
  }

  function Sum(gains: seq<nat>): nat { if gains == [] then 0 else Sum(gains[..|gains| - 1]) + gains[|gains| - 1] }

  lemma SumSnoc(gains: seq<nat>, gain: nat)
    ensures Sum(gains + [gain]) == Sum(gains) + gain
  {
    assert (gains + [gain])[..|gains|] == gains;
  }

  /** What replacing the arguments of a call saves, never less than nothing. */
  function Gain(mk: Markers, call: Call): nat
    requires call.fn.Some?
  {
    var fn := call.fn.value;
    var name := if fn.name == None || fn.name == Some("") then "tool" else fn.name.value;
    var gain := |fn.arguments.s| - |mk.args(name, |fn.arguments.s|)|;
    if gain > 0 then gain else 0
  }

  lemma {:induction false} CompactInPlainTerms(mk: Markers, min: int, calls: seq<Call>)
    returns (at: seq<nat>, gains: seq<nat>)
    ensures Ascending(at) && |at| == |gains| && forall j :: j in at <==> 0 <= j < |calls| && LongCall(mk, min, calls[j])
    ensures forall a :: 0 <= a < |at| ==>
              at[a] < |calls| && calls[at[a]].fn.Some? && gains[a] == Gain(mk, calls[at[a]])
    ensures CompactStats(mk, min, calls) == (|at|, Sum(gains))
  {
    hide LongCall, Sum, CompactStats, Gain;
    at, gains := [], [];
    if calls == [] {
      CompactNone(mk, min);
      NoSum();
    } else {
      var n := |calls| - 1;
      at, gains := CompactInPlainTerms(mk, min, calls[..n]);
      CompactNext(mk, min, calls);
      assert forall a :: 0 <= a < |at| ==> at[a] in at;
      if LongCall(mk, min, calls[n]) {
        SumSnoc(gains, Gain(mk, calls[n]));
        at, gains := at + [n], gains + [Gain(mk, calls[n])];
      }
    }
  }

  lemma CompactNone(mk: Markers, min: int)
    ensures CompactStats(mk, min, []) == (0, 0)
  {}

  lemma CompactNext(mk: Markers, min: int, calls: seq<Call>)
    requires calls != []
    ensures var last, before := calls[|calls| - 1], CompactStats(mk, min, calls[..|calls| - 1]);
            if LongCall(mk, min, last)
            then last.fn.Some? && CompactStats(mk, min, calls) == (before.0 + 1, before.1 + Gain(mk, last))
            else CompactStats(mk, min, calls) == before
  {
    var last := calls[|calls| - 1];
    GainIs(mk, min, last);
    hide ArgsMarker, Gain;
  }

  lemma GainIs(mk: Markers, min: int, call: Call)
    ensures LongCall(mk, min, call) <==> Compactable(mk, min, call)
    ensures call.fn.Some? ==>
      var gain := |call.fn.value.arguments.s| - |ArgsMarker(mk, call)|; Gain(mk, call) == if gain > 0 then gain else 0
  {}

  /** Pairs in ascending order. */
  predicate InOrder(at: seq<(nat, nat)>) {
    forall a, b :: 0 <= a < b < |at| ==> at[a].0 < at[b].0 || (at[a].0 == at[b].0 && at[a].1 < at[b].1)
  }

  function Pairs(i: nat, at: seq<nat>): seq<(nat, nat)> {
    seq(|at|, a requires 0 <= a < |at| => (i, at[a]))
  }

  lemma {:induction false} SumConcat(a: seq<nat>, b: seq<nat>)
    ensures Sum(a + b) == Sum(a) + Sum(b)
  {
    if b == [] {
      assert a + b == a;
    } else {
      var n := |b| - 1;
      assert a + b == a + b[..n] + [b[n]];
      SumSnoc(a + b[..n], b[n]);
      SumConcat(a, b[..n]);
    }
  }

  /** The call at this place has its arguments replaced. */
  predicate LongCallAt(mk: Markers, min: int, messages: seq<Message>, n: nat, place: (nat, nat)) {
    && place.0 < n <= |messages| && Starts(messages[place.0])
    && place.1 < |messages[place.0].calls| && LongCall(mk, min, messages[place.0].calls[place.1])
  }

  /** The counters for arguments: the calls whose arguments are replaced, and what each of them saves. */
  lemma {:induction false} ArgsInPlainTerms(mk: Markers, min: int, names: map<string, string>,
                                            messages: seq<Message>, n: nat)
    returns (args: seq<(nat, nat)>, gains: seq<nat>)
    requires n <= |messages|
    ensures InOrder(args) && |args| == |gains|
    ensures forall place :: place in args <==> LongCallAt(mk, min, messages, n, place)
    ensures forall a :: 0 <= a < |args| ==> GainAt(mk, messages, args[a], gains[a])
    ensures var s := CountPrefix(mk, min, names, messages, n).stats;
            s.argsPruned == |args| && s.argsSaved == Sum(gains)
  {
    hide LongCall, Starts, Count, CompactStats, Sum, GainAt;
    args, gains := [], [];
    if n == 0 {
      CountNone(mk, min, names, messages);
      NoSum();
    } else {
      var m := messages[n - 1];
      CountNext(mk, min, names, messages, n);
      args, gains := ArgsInPlainTerms(mk, min, names, messages, n - 1);
      var t := CountPrefix(mk, min, names, messages, n - 1);
      CountArgs(mk, min, names, t, m);
      if Starts(m) {
        var at, more := CompactInPlainTerms(mk, min, m.calls);
        SumConcat(gains, more);
        GainsAt(mk, messages, n - 1, at, more);
        args, gains := JoinPlaces(mk, min, messages, n, args, gains, at, more);
      }
    }
  }

  predicate GainAt(mk: Markers, messages: seq<Message>, place: (nat, nat), gain: nat) {
    && place.0 < |messages| && place.1 < |messages[place.0].calls|
    && var call := messages[place.0].calls[place.1];
    call.fn.Some? && gain == Gain(mk, call)
  }

  lemma NoSum()
    ensures Sum([]) == 0
  {}

  lemma CountArgs(mk: Markers, min: int, names: map<string, string>, t: Tally, m: Message)
    ensures var s := Count(mk, min, names, t, m).stats;
            if Starts(m) then s.argsPruned == t.stats.argsPruned + CompactStats(mk, min, m.calls).0
                              && s.argsSaved == t.stats.argsSaved + CompactStats(mk, min, m.calls).1
            else s.argsPruned == t.stats.argsPruned && s.argsSaved == t.stats.argsSaved
  {
    hide CompactStats;
  }

  lemma GainsAt(mk: Markers, messages: seq<Message>, i: nat, at: seq<nat>, gains: seq<nat>)
    requires i < |messages| && |at| == |gains|
    requires forall a :: 0 <= a < |at| ==>
               at[a] < |messages[i].calls| && messages[i].calls[at[a]].fn.Some?
               && gains[a] == Gain(mk, messages[i].calls[at[a]])
    ensures forall a :: 0 <= a < |at| ==> GainAt(mk, messages, Pairs(i, at)[a], gains[a])
  {}

  lemma JoinPlaces(mk: Markers, min: int, messages: seq<Message>, n: nat, args: seq<(nat, nat)>, gains: seq<nat>,
                   at: seq<nat>, more: seq<nat>) returns (all: seq<(nat, nat)>, allGains: seq<nat>)
    requires 0 < n <= |messages| && InOrder(args) && |args| == |gains| && Ascending(at) && |at| == |more|
    requires forall place :: place in args <==> LongCallAt(mk, min, messages, n - 1, place)
    requires Starts(messages[n - 1])
    requires forall j :: j in at <==>
               0 <= j < |messages[n - 1].calls| && LongCall(mk, min, messages[n - 1].calls[j])
    requires forall a :: 0 <= a < |args| ==> GainAt(mk, messages, args[a], gains[a])
    requires forall a :: 0 <= a < |at| ==> GainAt(mk, messages, Pairs(n - 1, at)[a], more[a])
    ensures all == args + Pairs(n - 1, at) && allGains == gains + more && InOrder(all) && |all| == |allGains|
    ensures forall place :: place in all <==> LongCallAt(mk, min, messages, n, place)
    ensures forall a :: 0 <= a < |all| ==> GainAt(mk, messages, all[a], allGains[a])
  {
    hide LongCall, Starts, GainAt;
    var pairs := Pairs(n - 1, at);
    all, allGains := args + pairs, gains + more;
    assert forall a :: 0 <= a < |args| ==> args[a] in args;
    forall place ensures place in all <==> LongCallAt(mk, min, messages, n, place) {
      if place.0 == n - 1 {
        if place.1 in at {
          var a :| 0 <= a < |at| && at[a] == place.1;
          assert pairs[a] == place;
        }
      }
    }
  }

  /** What a run of pruning reports: the results replaced, the iterations in which something was, and the
      arguments replaced with what that saves, all in front of the `keep`-th iteration from the end. */
  lemma StatsInPlainTerms(mk: Markers, min: int, messages: seq<Message>, keep: nat)
    returns (at: seq<nat>, cut: seq<nat>, rounds: seq<nat>, args: seq<(nat, nat)>, gains: seq<nat>)
    requires keep >= 1
    ensures Ascending(at) && forall k :: k in at <==> 0 <= k < |messages| && Starts(messages[k])
    ensures |at| < keep ==> PruneStats(mk, min, messages, keep) == Stats(0, 0, 0, 0, 0)
    ensures |at| >= keep ==>
      var b, s := at[|at| - keep], PruneStats(mk, min, messages, keep);
      && b < |messages| && s.pruned == |cut| && s.iterations == |rounds|
      && Ascending(cut) && (forall k :: k in cut <==> 0 <= k < b && Long(min, messages[k]))
      && Ascending(rounds) && (forall k :: k in rounds <==> 0 <= k < b && FirstTouched(mk, min, messages, k))
      && s.argsPruned == |args| == |gains| && s.argsSaved == Sum(gains)
      && InOrder(args) && (forall place :: place in args <==> LongCallAt(mk, min, messages, b, place))
      && forall a :: 0 <= a < |args| ==> GainAt(mk, messages, args[a], gains[a])
  {
    hide CountPrefix, NameMap, Long, FirstTouched, LongCallAt, GainAt, Boundary, Starts, Sum;
    cut, rounds, args, gains := [], [], [], [];
    at := BoundaryInPlainTerms(messages, keep);
    BoundaryInside(messages, keep);
    if |at| >= keep {
      var b := at[|at| - keep];
      cut, rounds := CountInPlainTerms(mk, min, NameMap(messages[..b]), messages, b);
      args, gains := ArgsInPlainTerms(mk, min, NameMap(messages[..b]), messages, b);
    }
  }
}
