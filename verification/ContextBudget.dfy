/** Token accounting while a prompt is put together. */
module ContextBudget {
  /** One consumption; `checked` when the tokens were found affordable just before. */
  datatype Spending = Spending(category: string, tokens: int, checked: bool)

  function Max(a: int, b: int): int { if a >= b then a else b }

  // ---------------------------------------------------------------- what a history amounts to

  function Consumed(history: seq<Spending>): int {
    if history == [] then 0 else Consumed(history[..|history| - 1]) + history[|history| - 1].tokens
  }

  /** Consumed in this category. */
  function Within(history: seq<Spending>, category: string): int {
    if history == [] then 0
    else
      var last := history[|history| - 1];
      Within(history[..|history| - 1], category) + (if last.category == category then last.tokens else 0)
  }

  /** Consumed without a check. */
  function Unchecked(history: seq<Spending>): int {
    if history == [] then 0
    else
      var last := history[|history| - 1];
      Unchecked(history[..|history| - 1]) + (if last.checked then 0 else last.tokens)
  }

  predicate Nonnegative(history: seq<Spending>) { forall s :: s in history ==> s.tokens >= 0 }

  /** Each checked consumption was affordable when it was made. */
  predicate ChecksHold(budget: int, history: seq<Spending>) {
    forall i :: 0 <= i < |history| ==> CheckHolds(budget, history, i)
  }

  predicate CheckHolds(budget: int, history: seq<Spending>, i: nat)
    requires i < |history|
  {
    Affordable(budget, history[..i], history[i])
  }

  /** If the consumption was checked, it fitted what was left after those before it. */
  predicate Affordable(budget: int, before: seq<Spending>, s: Spending) {
    s.checked ==> s.tokens <= Max(0, budget - Consumed(before))
  }

  lemma HistorySnoc(history: seq<Spending>, s: Spending)
    ensures Consumed(history + [s]) == Consumed(history) + s.tokens
    ensures forall c :: Within(history + [s], c) == Within(history, c) + (if s.category == c then s.tokens else 0)
  {
    assert (history + [s])[..|history|] == history;
  }

  lemma CheckStays(budget: int, history: seq<Spending>, s: Spending, i: nat)
    requires i < |history|
    ensures CheckHolds(budget, history + [s], i) <==> CheckHolds(budget, history, i)
  {
    hide Affordable;
    assert (history + [s])[..i] == history[..i];
  }

  lemma CheckAtEnd(budget: int, history: seq<Spending>, s: Spending)
    ensures CheckHolds(budget, history + [s], |history|) <==> Affordable(budget, history, s)
  {
    hide Affordable;
    WithoutLast(history, s);
  }

  lemma WithoutLast(history: seq<Spending>, s: Spending)
    ensures (history + [s])[..|history|] == history && (history + [s])[|history|] == s
  {}

  lemma ChecksSnoc(budget: int, history: seq<Spending>, s: Spending)
    ensures ChecksHold(budget, history + [s]) <==> ChecksHold(budget, history) && Affordable(budget, history, s)
  {
    hide CheckHolds, Affordable;
    CheckAtEnd(budget, history, s);
    forall i | 0 <= i < |history| ensures CheckHolds(budget, history + [s], i) <==> CheckHolds(budget, history, i) {
      CheckStays(budget, history, s, i);
    }
  }

  // ---------------------------------------------------------------- sums over the breakdown

  ghost function SumOf(m: map<string, int>): int {
    if m == map[] then 0
    else
      var k :| k in m;
      m[k] + SumOf(m - {k})
  }

  /** Any entry may be taken out first. */
  lemma {:induction false} SumWithout(m: map<string, int>, k: string)
    requires k in m
    ensures SumOf(m) == m[k] + SumOf(m - {k})
    decreases |m|
  {
    var first :| first in m && SumOf(m) == m[first] + SumOf(m - {first});
    if first != k {
      assert |(m - {first}).Keys| < |m.Keys| by { assert (m - {first}).Keys == m.Keys - {first}; }
      assert |(m - {k}).Keys| < |m.Keys| by { assert (m - {k}).Keys == m.Keys - {k}; }
      SumWithout(m - {first}, k);
      SumWithout(m - {k}, first);
      assert m - {first} - {k} == m - {k} - {first};
    }
  }

  function Get(m: map<string, int>, k: string): int { if k in m then m[k] else 0 }

  lemma SumUpdate(m: map<string, int>, k: string, v: int)
    ensures SumOf(m[k := v]) == SumOf(m) - Get(m, k) + v
  {
    var updated := m[k := v];
    SumWithout(updated, k);
    if k in m {
      SumWithout(m, k);
      assert updated - {k} == m - {k};
    } else {
      assert updated - {k} == m;
    }
  }

  // ---------------------------------------------------------------- the budget

  class ContextBudget {
    const totalTokens: int
    const reserveTokens: int
    var consumedTokens: int
    var breakdown: map<string, int>
    ghost var history: seq<Spending>   // all consumptions

    ghost predicate Valid()
      reads this
    {
      && consumedTokens == Consumed(history) && consumedTokens == SumOf(breakdown)
      && (forall c :: Get(breakdown, c) == Within(history, c))
      && ChecksHold(totalTokens - reserveTokens, history)
    }

    constructor (totalTokens: int, reserveTokens: int)
      ensures Valid() && history == []
      ensures this.totalTokens == totalTokens && this.reserveTokens == reserveTokens
    {
      this.totalTokens, this.reserveTokens := totalTokens, reserveTokens;
      consumedTokens, breakdown, history := 0, map[], [];
    }

    function AvailableBudget(): int { Max(0, totalTokens - reserveTokens) }

    function Remaining(): int
      reads this
    {
      Max(0, totalTokens - reserveTokens - consumedTokens)
    }

    predicate CanAfford(tokens: int)
      reads this
    {
      tokens <= Remaining()
    }

    method Consume(category: string, tokens: int, ghost checked: bool)
      requires Valid() && (checked ==> CanAfford(tokens))
      modifies this
      ensures Valid() && history == old(history) + [Spending(category, tokens, checked)]
      ensures consumedTokens == old(consumedTokens) + tokens
      ensures breakdown == old(breakdown)[category := Get(old(breakdown), category) + tokens]
    {
      hide Consumed, Within, ChecksHold, SumOf;
      ghost var s := Spending(category, tokens, checked);
      HistorySnoc(history, s);
      ChecksSnoc(totalTokens - reserveTokens, history, s);
      SumUpdate(breakdown, category, Get(breakdown, category) + tokens);
      history := history + [s];
      consumedTokens := consumedTokens + tokens;
      breakdown := breakdown[category := Get(breakdown, category) + tokens];
    }

    function BaseTokens(): int
      reads this
    {
      Get(breakdown, "base_context") + Get(breakdown, "current_user_message")
    }

    function LiveHistoryTokens(): int
      reads this
    {
      Get(breakdown, "conversation_history")
    }

    function ToolSchemaTokens(): int
      reads this
    {
      Get(breakdown, "tool_schemas")
    }

    function StaticInjectionTokens(): int
      reads this
    {
      Max(0, consumedTokens - BaseTokens() - LiveHistoryTokens() - ToolSchemaTokens())
    }

    /** How many search results still fit, at about 500 tokens each. */
    function DynamicTopK(configured: int): (k: int)
      reads this
      ensures k * 500 <= Remaining() && (configured >= 0 ==> 0 <= k <= configured)
      ensures k == 0 <==> Remaining() < 500 || configured == 0
      ensures 0 <= k < configured ==> (k + 1) * 500 > Remaining()
      ensures configured < 0 ==> k == if Remaining() < 500 then 0 else configured
    {
      var affordable := Remaining() / 500;
      if Remaining() <= 0 || affordable <= 0 then 0 else if configured <= affordable then configured else affordable
    }

    /** What the parts and the checks mean for the consumptions made so far. */
    lemma PartsInPlainTerms(tokens: int)
      requires Valid() && Nonnegative(history)
      ensures BaseTokens() == Within(history, "base_context") + Within(history, "current_user_message")
      ensures LiveHistoryTokens() == Within(history, "conversation_history")
      ensures ToolSchemaTokens() == Within(history, "tool_schemas")
      ensures StaticInjectionTokens()
              == Consumed(history) - Within(history, "base_context") - Within(history, "current_user_message")
                 - Within(history, "conversation_history") - Within(history, "tool_schemas")
      ensures CanAfford(tokens) <==> tokens <= 0 || Consumed(history) + tokens <= totalTokens - reserveTokens
    {
      PartsWithin(history);
    }

    /** After any run of nonnegative consumptions: the four parts make up what was consumed, which is
        also the sum of the breakdown, and it exceeds the available budget by no more than what was
        consumed without a check. */
    lemma Accounts()
      requires Valid() && Nonnegative(history)
      ensures BaseTokens() + LiveHistoryTokens() + ToolSchemaTokens() + StaticInjectionTokens() == consumedTokens
      ensures SumOf(breakdown) == consumedTokens
      ensures consumedTokens <= AvailableBudget() + Unchecked(history)
    {
      PartsWithin(history);
      OverspendBound(totalTokens - reserveTokens, history);
    }
  }

  /** The named categories are disjoint parts of the whole. */
  lemma {:induction false} PartsWithin(history: seq<Spending>)
    requires Nonnegative(history)
    ensures Within(history, "base_context") + Within(history, "current_user_message")
            + Within(history, "conversation_history") + Within(history, "tool_schemas") <= Consumed(history)
  {
    if history != [] {
      assert history[|history| - 1] in history;
      PartsWithin(history[..|history| - 1]);
      DistinctNames();
    }
  }

  lemma DistinctNames()
    ensures "base_context" !in {"current_user_message", "conversation_history", "tool_schemas"}
    ensures "current_user_message" !in {"conversation_history", "tool_schemas"}
              && "conversation_history" != "tool_schemas"
  {
    assert "base_context"[0] == 'b' && "current_user_message"[1] == 'u' && "conversation_history"[1] == 'o';
    assert "tool_schemas"[0] == 't' && "current_user_message"[0] == 'c' && "conversation_history"[0] == 'c';
  }

  /** What is consumed beyond the budget was consumed without a check. */
  lemma {:induction false} OverspendBound(budget: int, history: seq<Spending>)
    requires Nonnegative(history) && ChecksHold(budget, history)
    ensures Consumed(history) <= Max(0, budget) + Unchecked(history) && Unchecked(history) >= 0
  {
    if history != [] {
      var before, last := history[..|history| - 1], history[|history| - 1];
      assert last in history;
      assert before + [last] == history;
      ChecksSnoc(budget, before, last);
      hide ChecksHold;
      OverspendBound(budget, before);
    }
  }

  /** The sums over a history, consumption by consumption. */
  lemma {:induction false} SumsInPlainTerms(history: seq<Spending>, category: string)
    returns (all: seq<int>, part: seq<int>, unchecked: seq<int>)
    ensures |all| == |part| == |unchecked| == |history| + 1 && all[0] == part[0] == unchecked[0] == 0
    ensures forall i, next :: 0 <= i < |history| && next == i + 1 ==>
              && all[next] == all[i] + history[i].tokens
              && part[next] == part[i] + (if history[i].category == category then history[i].tokens else 0)
              && unchecked[next] == unchecked[i] + (if history[i].checked then 0 else history[i].tokens)
    ensures Consumed(history) == all[|history|] && Within(history, category) == part[|history|]
    ensures Unchecked(history) == unchecked[|history|]
  {
    all, part, unchecked := [0], [0], [0];
    if history != [] {
      var before := history[..|history| - 1];
      all, part, unchecked := SumsInPlainTerms(before, category);
      all, part := all + [Consumed(history)], part + [Within(history, category)];
      unchecked := unchecked + [Unchecked(history)];
    }
  }
}
