/** Reciprocal rank fusion of ranked lists. */
module RankFusion {
  datatype Result<+T> = Ok(value: T) | ValueError

  /** An item is identified by its whole tuple. */
  type Item = seq<string>

  /** What one list gives to an item: the sum of `1 / (k + rank + 1)` over its places, from `rank` on. */
  function ListScore(list: seq<Item>, k: int, d: Item, rank: nat): real
    requires k > 0
  {
    if list == [] then 0.0
    else (if list[0] == d then 1.0 / (k + rank + 1) as real else 0.0) + ListScore(list[1..], k, d, rank + 1)
  }

  function Score(lists: seq<seq<Item>>, k: int, d: Item): real
    requires k > 0
  {
    if lists == [] then 0.0 else ListScore(lists[0], k, d, 0) + Score(lists[1..], k, d)
  }

  ghost predicate Listed(lists: seq<seq<Item>>, d: Item) { exists l :: l in lists && d in l }

  datatype Entry = Entry(item: Item, score: real)

  /** Every listed item once, with its score, best first. */
  ghost predicate Fused(lists: seq<seq<Item>>, k: int, fused: seq<Entry>)
    requires k > 0
  {
    && (forall i, j :: 0 <= i < j < |fused| ==> fused[i].item != fused[j].item && fused[i].score >= fused[j].score)
    && (forall i :: 0 <= i < |fused| ==>
          Listed(lists, fused[i].item) && fused[i].score == Score(lists, k, fused[i].item))
    && (forall d :: Listed(lists, d) ==> exists i :: 0 <= i < |fused| && fused[i].item == d)
  }

  // ---------------------------------------------------------------- sums over prefixes

  lemma {:induction false} ListScoreSnoc(list: seq<Item>, k: int, d: Item, rank: nat, x: Item)
    requires k > 0
    ensures ListScore(list + [x], k, d, rank)
         == ListScore(list, k, d, rank) + (if x == d then 1.0 / (k + rank + |list| + 1) as real else 0.0)
    decreases |list|
  {
    if list == [] {
      assert ([] + [x])[1..] == [];
    } else {
      assert (list + [x])[1..] == list[1..] + [x];
      ListScoreSnoc(list[1..], k, d, rank + 1, x);
    }
  }

  lemma {:induction false} ScoreConcat(a: seq<seq<Item>>, b: seq<seq<Item>>, k: int, d: Item)
    requires k > 0
    ensures Score(a + b, k, d) == Score(a, k, d) + Score(b, k, d)
  {
    if a == [] {
      assert a + b == b;
    } else {
      assert (a + b)[1..] == a[1..] + b;
      ScoreConcat(a[1..], b, k, d);
    }
  }

  lemma ScoreOne(l: seq<Item>, k: int, d: Item)
    requires k > 0
    ensures Score([l], k, d) == ListScore(l, k, d, 0)
  {
    assert Score([], k, d) == 0.0;
  }

  // ---------------------------------------------------------------- the fusion

  /** The score table after all of `done` and then the places of `part`. */
  ghost predicate Tallied(scores: map<Item, real>, done: seq<seq<Item>>, part: seq<Item>, k: int)
    requires k > 0
  {
    && (forall d :: d in scores <==> Listed(done, d) || d in part)
    && (forall d :: d in scores ==> scores[d] == Score(done, k, d) + ListScore(part, k, d, 0))
  }

  lemma {:induction false} UnlistedScore(list: seq<Item>, k: int, d: Item, rank: nat)
    requires k > 0 && d !in list
    ensures ListScore(list, k, d, rank) == 0.0
  {
    if list != [] { UnlistedScore(list[1..], k, d, rank + 1); }
  }

  lemma {:induction false} UnlistedTotal(lists: seq<seq<Item>>, k: int, d: Item)
    requires k > 0 && !Listed(lists, d)
    ensures Score(lists, k, d) == 0.0
  {
    if lists != [] {
      assert lists[0] in lists;
      UnlistedScore(lists[0], k, d, 0);
      assert forall l :: l in lists[1..] ==> l in lists;
      UnlistedTotal(lists[1..], k, d);
    }
  }

  lemma PlaceTallied(scores: map<Item, real>, done: seq<seq<Item>>, part: seq<Item>, k: int, x: Item)
    requires k > 0 && Tallied(scores, done, part, k)
    ensures var sofar := if x in scores then scores[x] else 0.0;
            Tallied(scores[x := sofar + 1.0 / (k + |part| + 1) as real], done, part + [x], k)
  {
    hide ListScore, Score, Listed;
    forall d
      ensures ListScore(part + [x], k, d, 0)
           == ListScore(part, k, d, 0) + (if x == d then 1.0 / (k + 0 + |part| + 1) as real else 0.0)
    {
      ListScoreSnoc(part, k, d, 0, x);
    }
    if x !in scores {
      UnlistedTotal(done, k, x);
      UnlistedScore(part, k, x, 0);
    }
  }

  lemma ListTallied(scores: map<Item, real>, done: seq<seq<Item>>, list: seq<Item>, k: int)
    requires k > 0 && Tallied(scores, done, list, k)
    ensures Tallied(scores, done + [list], [], k)
  {
    hide ListScore, Score;
    forall d ensures Score(done + [list], k, d) == Score(done, k, d) + ListScore(list, k, d, 0) {
      ScoreConcat(done, [list], k, d);
      ScoreOne(list, k, d);
    }
    forall d ensures Listed(done + [list], d) <==> Listed(done, d) || d in list {
      if d in list { assert list in done + [list]; }
      if Listed(done, d) {
        var l :| l in done && d in l;
        assert l in done + [list];
      }
    }
    forall d ensures ListScore([], k, d, 0) == 0.0 { UnlistedScore([], k, d, 0); }
  }

  method ReciprocalRankFusion(lists: seq<seq<Item>>, k: int) returns (r: Result<seq<Entry>>)
    ensures k <= 0 <==> r == ValueError
    ensures k > 0 ==> Fused(lists, k, r.value)
  {
    if k <= 0 {
      return ValueError;
    }
    hide ListScore, Score, Listed, Tallied, Enumerates, Fused;
    var scores: map<Item, real> := map[];
    var order: seq<Item> := [];
    NothingTallied(k);
    assert lists[..0] == [];
    for i := 0 to |lists|
      invariant Tallied(scores, lists[..i], [], k) && Enumerates(order, scores.Keys)
    {
      scores, order := TallyList(scores, order, lists[i], k, lists[..i]);
      assert lists[..i + 1] == lists[..i] + [lists[i]];
    }
    assert lists[..|lists|] == lists;
    var fused := SortByScore(order, scores);
    TalliedIsFused(lists, k, scores, fused);
    return Ok(fused);
  }

  /** One more list is added to the scores; new keys go to the end of the insertion order. */
  method TallyList(before: map<Item, real>, keys: seq<Item>, list: seq<Item>, k: int, ghost done: seq<seq<Item>>)
    returns (scores: map<Item, real>, order: seq<Item>)
    requires k > 0 && Tallied(before, done, [], k) && Enumerates(keys, before.Keys)
    ensures Tallied(scores, done + [list], [], k) && Enumerates(order, scores.Keys)
  {
    hide ListScore, Score, Listed, Tallied, Enumerates;
    scores, order := before, keys;
    assert list[..0] == [];
    for rank := 0 to |list|
      invariant Tallied(scores, done, list[..rank], k) && Enumerates(order, scores.Keys)
    {
      var item := list[rank];
      var sofar := if item in scores then scores[item] else 0.0;
      PlaceTallied(scores, done, list[..rank], k, item);
      assert list[..rank + 1] == list[..rank] + [item];
      ItemSeen(order, scores, item, sofar + 1.0 / (k + rank + 1) as real);
      if item !in scores { order := order + [item]; }
      scores := scores[item := sofar + 1.0 / (k + rank + 1) as real];
    }
    assert list[..|list|] == list;
    ListTallied(scores, done, list, k);
  }

  /** `keys` lists the elements of the set, each once. */
  predicate Enumerates(keys: seq<Item>, s: set<Item>) {
    && (forall i :: 0 <= i < |keys| ==> keys[i] in s)
    && (forall i, j :: 0 <= i < j < |keys| ==> keys[i] != keys[j])
    && (forall d :: d in s ==> d in keys)
  }

  lemma ItemSeen(order: seq<Item>, scores: map<Item, real>, item: Item, value: real)
    requires Enumerates(order, scores.Keys)
    ensures Enumerates(if item in scores then order else order + [item], scores[item := value].Keys)
  {}

  lemma NothingTallied(k: int)
    requires k > 0
    ensures Tallied(map[], [], [], k) && Enumerates([], {})
  {}

  /** Entries of the table, best first. */
  predicate SortedEntries(entries: seq<Entry>, scores: map<Item, real>) {
    && (forall i :: 0 <= i < |entries| ==> entries[i].item in scores && entries[i].score == scores[entries[i].item])
    && (forall i, j :: 0 <= i < j < |entries| ==>
          entries[i].item != entries[j].item && entries[i].score >= entries[j].score)
  }

  predicate Holds(entries: seq<Entry>, d: Item) { exists i :: 0 <= i < |entries| && entries[i].item == d }

  /** The items in descending order of their scores; the insertion keeps the order of equal ones. */
  method SortByScore(order: seq<Item>, scores: map<Item, real>) returns (sorted: seq<Entry>)
    requires Enumerates(order, scores.Keys)
    ensures SortedEntries(sorted, scores) && forall d :: d in scores ==> Holds(sorted, d)
  {
    hide SortedEntries, Holds;
    sorted := [];
    NothingSorted(scores);
    for n := 0 to |order|
      invariant SortedEntries(sorted, scores)
      invariant forall d :: Holds(sorted, d) <==> d in order[..n]
    {
      var e := Entry(order[n], scores[order[n]]);
      var at := |sorted|;
      while at > 0 && sorted[at - 1].score < e.score
        invariant 0 <= at <= |sorted|
        invariant forall i :: at <= i < |sorted| ==> sorted[i].score < e.score
      {
        at := at - 1;
      }
      assert order[n] !in order[..n];
      InsertKeepsSorted(sorted, scores, e, at);
      InsertHolds(sorted, e, at);
      assert order[..n + 1] == order[..n] + [order[n]];
      sorted := Insert(sorted, e, at);
    }
    assert order[..|order|] == order;
  }

  lemma NothingSorted(scores: map<Item, real>)
    ensures SortedEntries([], scores) && forall d :: !Holds([], d)
  {}

  /** `e` put in front of the entry at `at`. */
  function Insert(sorted: seq<Entry>, e: Entry, at: nat): (grown: seq<Entry>)
    requires at <= |sorted|
    ensures |grown| == |sorted| + 1
    ensures forall i :: 0 <= i < |grown| ==>
              grown[i] == if i < at then sorted[i] else if i == at then e else sorted[i - 1]
  {
    sorted[..at] + [e] + sorted[at..]
  }

  lemma InsertKeepsSorted(sorted: seq<Entry>, scores: map<Item, real>, e: Entry, at: nat)
    requires SortedEntries(sorted, scores) && at <= |sorted|
    requires e.item in scores && e.score == scores[e.item] && !Holds(sorted, e.item)
    requires at > 0 ==> sorted[at - 1].score >= e.score
    requires forall i :: at <= i < |sorted| ==> sorted[i].score < e.score
    ensures SortedEntries(Insert(sorted, e, at), scores)
  {
    var grown := Insert(sorted, e, at);
    forall i | 0 <= i < at ensures sorted[i].score >= e.score {
      if i < at - 1 { assert sorted[i].score >= sorted[at - 1].score; }
    }
    forall i, j | 0 <= i < j < |grown| ensures grown[i].item != grown[j].item && grown[i].score >= grown[j].score {}
  }

  lemma InsertHolds(sorted: seq<Entry>, e: Entry, at: nat)
    requires at <= |sorted|
    ensures forall d :: Holds(Insert(sorted, e, at), d) <==> Holds(sorted, d) || d == e.item
  {
    var grown := Insert(sorted, e, at);
    forall d ensures Holds(grown, d) <==> Holds(sorted, d) || d == e.item {
      if Holds(sorted, d) {
        var i :| 0 <= i < |sorted| && sorted[i].item == d;
        assert grown[if i < at then i else i + 1].item == d;
      }
      if d == e.item { assert grown[at].item == d; }
    }
  }

  lemma TalliedIsFused(lists: seq<seq<Item>>, k: int, scores: map<Item, real>, fused: seq<Entry>)
    requires k > 0 && Tallied(scores, lists, [], k)
    requires SortedEntries(fused, scores) && forall d :: d in scores ==> Holds(fused, d)
    ensures Fused(lists, k, fused)
  {
    hide ListScore, Score, Listed;
    forall d ensures ListScore([], k, d, 0) == 0.0 { UnlistedScore([], k, d, 0); }
    forall d | Listed(lists, d) ensures exists i :: 0 <= i < |fused| && fused[i].item == d { assert Holds(fused, d); }
  }

  // ---------------------------------------------------------------- what the ranking means

  /** The order in which the lists are given does not matter to any score. */
  lemma {:induction false} ScorePermuted(a: seq<seq<Item>>, b: seq<seq<Item>>, k: int, d: Item)
    requires k > 0 && multiset(a) == multiset(b)
    ensures Score(a, k, d) == Score(b, k, d)
    decreases |a|
  {
    assert |multiset(a)| == |a| && |multiset(b)| == |b|;
    if a != [] {
      assert a[0] in multiset(b);
      var i :| 0 <= i < |b| && b[i] == a[0];
      var rest := b[..i] + b[i + 1..];
      RestPermuted(a, b, i);
      ScorePermuted(a[1..], rest, k, d);
      ScoreWithout(b, i, k, d);
    }
  }

  lemma RestPermuted(a: seq<seq<Item>>, b: seq<seq<Item>>, i: nat)
    requires multiset(a) == multiset(b) && a != [] && i < |b| && b[i] == a[0]
    ensures multiset(a[1..]) == multiset(b[..i] + b[i + 1..])
  {
    assert b == b[..i] + [b[i]] + b[i + 1..];
    assert a == [a[0]] + a[1..];
    assert multiset(a[1..]) == multiset(a) - multiset{a[0]};
    assert multiset(b[..i] + b[i + 1..]) == multiset(b) - multiset{b[i]};
  }

  lemma ScoreWithout(b: seq<seq<Item>>, i: nat, k: int, d: Item)
    requires k > 0 && i < |b|
    ensures Score(b, k, d) == ListScore(b[i], k, d, 0) + Score(b[..i] + b[i + 1..], k, d)
  {
    hide ListScore, Score;
    assert b == (b[..i] + [b[i]]) + b[i + 1..];
    ScoreConcat(b[..i] + [b[i]], b[i + 1..], k, d);
    ScoreConcat(b[..i], [b[i]], k, d);
    ScoreConcat(b[..i], b[i + 1..], k, d);
    ScoreOne(b[i], k, d);
  }

  predicate NoRepeats(list: seq<Item>) { forall i, j :: 0 <= i < j < |list| ==> list[i] != list[j] }

  /** Wherever `b` is ranked, `a` is ranked better. */
  predicate Dominates(list: seq<Item>, a: Item, b: Item) {
    forall j :: 0 <= j < |list| && list[j] == b ==> exists i :: 0 <= i < j && list[i] == a
  }

  lemma {:induction false} SingleScore(list: seq<Item>, k: int, d: Item, rank: nat, at: nat)
    requires k > 0 && NoRepeats(list) && at < |list| && list[at] == d
    ensures ListScore(list, k, d, rank) == 1.0 / (k + rank + at + 1) as real
    decreases |list|
  {
    var rest := list[1..];
    if at == 0 {
      forall i | 0 <= i < |rest| ensures rest[i] != d { assert list[i + 1] != list[0]; }
      UnlistedScore(rest, k, d, rank + 1);
    } else {
      assert list[0] != list[at];
      assert rest[at - 1] == d;
      SingleScore(rest, k, d, rank + 1, at - 1);
    }
  }

  lemma {:induction false} ListScoreNonnegative(list: seq<Item>, k: int, d: Item, rank: nat)
    requires k > 0
    ensures ListScore(list, k, d, rank) >= 0.0
  {
    if list != [] { ListScoreNonnegative(list[1..], k, d, rank + 1); }
  }

  lemma DominatedInList(list: seq<Item>, k: int, a: Item, b: Item)
    requires k > 0 && NoRepeats(list) && Dominates(list, a, b)
    ensures ListScore(list, k, a, 0) >= ListScore(list, k, b, 0)
    ensures b in list ==> ListScore(list, k, a, 0) > ListScore(list, k, b, 0)
  {
    if b in list {
      var j :| 0 <= j < |list| && list[j] == b;
      var i :| 0 <= i < j && list[i] == a;
      SingleScore(list, k, a, 0, i);
      SingleScore(list, k, b, 0, j);
      Reciprocals((k + i + 1) as real, (k + j + 1) as real);
    } else {
      UnlistedScore(list, k, b, 0);
      ListScoreNonnegative(list, k, a, 0);
    }
  }

  lemma Reciprocals(x: real, y: real)
    requires 0.0 < x < y
    ensures 1.0 / x > 1.0 / y
  {}

  lemma {:induction false} DominatedScore(lists: seq<seq<Item>>, k: int, a: Item, b: Item)
    requires k > 0 && forall l :: l in lists ==> NoRepeats(l) && Dominates(l, a, b)
    ensures Score(lists, k, a) >= Score(lists, k, b)
    ensures Listed(lists, b) ==> Score(lists, k, a) > Score(lists, k, b)
  {
    hide ListScore, NoRepeats, Dominates;
    if lists != [] {
      assert lists[0] in lists;
      DominatedInList(lists[0], k, a, b);
      DominatedScore(lists[1..], k, a, b);
      if Listed(lists, b) && b !in lists[0] {
        var l :| l in lists && b in l;
        assert l in lists[1..];
      }
    }
  }

  /** If `a` is ranked better than `b` in every list that holds `b`, it comes out before `b`. */
  lemma DominantComesFirst(lists: seq<seq<Item>>, k: int, fused: seq<Entry>, a: Item, b: Item, i: nat, j: nat)
    requires k > 0 && Fused(lists, k, fused)
    requires forall l :: l in lists ==> NoRepeats(l) && Dominates(l, a, b)
    requires i < |fused| && j < |fused| && fused[i].item == a && fused[j].item == b
    ensures i < j
  {
    hide Score, Listed, NoRepeats, Dominates;
    DominatedScore(lists, k, a, b);
  }

  // ---------------------------------------------------------------- in plain terms

  /** The score of an item within one list, place by place: the first place counts `1 / (k + 1)`. */
  lemma {:induction false} ListScoreInPlainTerms(list: seq<Item>, k: int, d: Item) returns (sums: seq<real>)
    requires k > 0
    ensures |sums| == |list| + 1 && sums[0] == 0.0 && sums[|list|] == ListScore(list, k, d, 0)
    ensures forall i, next :: 0 <= i < |list| && next == i + 1 ==>
              sums[next] == sums[i] + (if list[i] == d then 1.0 / (k + 1 + i) as real else 0.0)
  {
    sums := [0.0];
    if list != [] {
      var n := |list| - 1;
      sums := ListScoreInPlainTerms(list[..n], k, d);
      ListScoreSnoc(list[..n], k, d, 0, list[n]);
      assert list[..n] + [list[n]] == list;
      sums := sums + [ListScore(list, k, d, 0)];
    }
  }

  /** The score is the sum over the lists. */
  lemma {:induction false} ScoreInPlainTerms(lists: seq<seq<Item>>, k: int, d: Item) returns (sums: seq<real>)
    requires k > 0
    ensures |sums| == |lists| + 1 && sums[0] == 0.0 && sums[|lists|] == Score(lists, k, d)
    ensures forall i, next :: 0 <= i < |lists| && next == i + 1 ==> sums[next] == sums[i] + ListScore(lists[i], k, d, 0)
  {
    sums := [0.0];
    if lists != [] {
      var n := |lists| - 1;
      sums := ScoreInPlainTerms(lists[..n], k, d);
      ScoreConcat(lists[..n], [lists[n]], k, d);
      ScoreOne(lists[n], k, d);
      assert lists[..n] + [lists[n]] == lists;
      sums := sums + [Score(lists, k, d)];
    }
  }
}
