/** Detection of a repeating tail in a word of tool-call signatures. */
module Cycles {
  import opened Wrappers

  /** Identity of one tool call: its name and a digest of its arguments. */
  datatype Signature = Signature(name: string, argsHash: string)

  /** `u` repeated `m` times. */
  function Power(u: seq<Signature>, m: nat): seq<Signature> {
    if m == 0 then [] else u + Power(u, m - 1)
  }

  /** Repetitions demanded of a cycle of length `c`. */
  function Required(c: int, minReps: int): int { if c == 1 then minReps + 1 else minReps }

  predicate IsSuffix(s: seq<Signature>, t: seq<Signature>) { |s| <= |t| && t[|t| - |s|..] == s }

  /** The trace ends in its last `c` calls repeated `m` times. */
  predicate EndsInPower(trace: seq<Signature>, c: nat, m: nat) {
    c <= |trace| && IsSuffix(Power(trace[|trace| - c..], m), trace)
  }

  /** A cycle of length `c` is repeated often enough at the end of `trace`. */
  predicate Meets(trace: seq<Signature>, c: nat, minReps: nat) {
    c >= 1 && EndsInPower(trace, c, Required(c, minReps))
  }

  // ---------------------------------------------------------------- powers

  lemma {:induction false} PowerLength(u: seq<Signature>, m: nat)
    ensures |Power(u, m)| == |u| * m
  {
    if m > 0 {
      PowerLength(u, m - 1);
      assert |u| * m == |u| * (m - 1) + |u|;
    }
  }

  lemma {:induction false} PowerSum(u: seq<Signature>, a: nat, b: nat)
    ensures Power(u, a + b) == Power(u, a) + Power(u, b)
  {
    if a == 0 {
      assert Power(u, 0) + Power(u, b) == Power(u, b);
    } else {
      PowerSum(u, a - 1, b);
      assert u + (Power(u, a - 1) + Power(u, b)) == u + Power(u, a - 1) + Power(u, b);
    }
  }

  lemma {:induction false} PowerPower(u: seq<Signature>, a: nat, b: nat)
    ensures a * b >= 0 && Power(Power(u, a), b) == Power(u, a * b)
  {
    if b == 0 {
      assert a * b == 0;
    } else {
      PowerPower(u, a, b - 1);
      assert a * b == a + a * (b - 1);
      PowerSum(u, a, a * (b - 1));
    }
  }

  lemma PowerOne(u: seq<Signature>)
    ensures Power(u, 1) == u
  {
    assert u + Power(u, 0) == u;
  }

  lemma PowerSuffix(u: seq<Signature>, a: nat, m: nat)
    requires a <= m
    ensures IsSuffix(Power(u, a), Power(u, m))
  {
    hide Power, IsSuffix;
    PowerSum(u, m - a, a);
    assert m - a + a == m;
    SuffixOfSum(Power(u, m - a), Power(u, a));
  }

  lemma SuffixOfSum(a: seq<Signature>, b: seq<Signature>)
    ensures IsSuffix(b, a + b)
  {}

  lemma PowerHead(u: seq<Signature>, m: nat)
    requires m >= 1
    ensures |Power(u, m)| >= |u| && Power(u, m)[..|u|] == u && Power(u, m)[|u|..] == Power(u, m - 1)
  {}

  lemma SuffixTransitive(a: seq<Signature>, b: seq<Signature>, c: seq<Signature>)
    requires IsSuffix(a, b) && IsSuffix(b, c)
    ensures IsSuffix(a, c)
  {
    assert c[|c| - |a|..] == c[|c| - |b|..][|b| - |a|..];
  }

  // ---------------------------------------------------------------- the detector

  /** A Python slice `trace[-k:]`. */
  function Tail(trace: seq<Signature>, k: int): seq<Signature> {
    if k > 0 then (if k <= |trace| then trace[|trace| - k..] else trace)
    else if -k <= |trace| then trace[-k..] else []
  }

  /** The least length up to half the trace that meets its requirement; for fewer than one
      demanded repetition the first length tried already does. */
  predicate Detects(trace: seq<Signature>, minReps: int, r: Option<nat>) {
    if |trace| < 2 then r == None
    else if minReps <= 0 then r == Some(1)
    else match r
      case None => forall c: nat :: 1 <= c <= |trace| / 2 ==> !Meets(trace, c, minReps)
      case Some(c) =>
        && 1 <= c <= |trace| / 2 && Meets(trace, c, minReps)
        && forall d: nat :: 1 <= d < c ==> !Meets(trace, d, minReps)
  }

  method DetectCycle(trace: seq<Signature>, minReps: int) returns (r: Option<nat>)
    ensures Detects(trace, minReps, r)
  {
    var n := |trace|;
    if n < 2 {
      return None;
    }
    var maxCycleLen := n / 2;
    var clen := 1;
    while clen <= maxCycleLen
      invariant 1 <= clen <= maxCycleLen + 1 && (minReps <= 0 ==> clen == 1)
      invariant minReps >= 1 ==> forall d: nat :: 1 <= d < clen ==> !Meets(trace, d, minReps)
    {
      var required := if clen == 1 then minReps + 1 else minReps;
      var needed := clen * required;
      if minReps >= 1 && Meets(trace, clen, minReps) { MeetsFits(trace, clen, minReps); }
      if needed > n {
        clen := clen + 1;
        continue;
      }
      var repeats := TailRepeats(trace, clen, required);
      if repeats {
        return Some(clen);
      }
      clen := clen + 1;
    }
    return None;
  }

  lemma MeetsFits(trace: seq<Signature>, c: nat, minReps: nat)
    requires Meets(trace, c, minReps)
    ensures c * Required(c, minReps) <= |trace|
  {
    PowerLength(trace[|trace| - c..], Required(c, minReps));
  }

  /** The last `clen * required` calls are that many copies of the first `clen` of them. */
  method TailRepeats(trace: seq<Signature>, clen: nat, required: int) returns (ok: bool)
    requires 1 <= clen <= |trace| && clen * required <= |trace|
    ensures required <= 1 ==> ok
    ensures required >= 1 ==> (ok <==> EndsInPower(trace, clen, required))
  {
    var tail := Tail(trace, clen * required);
    var pattern := if clen <= |tail| then tail[..clen] else tail;
    if required <= 1 {
      if required == 1 { SuffixOnce(trace, clen); }
      return true;
    }
    TailLength(trace, clen, required);
    var rep := 1;
    PowerOne(pattern);
    while rep < required
      invariant 1 <= rep <= required
      invariant |Power(pattern, rep)| <= |tail| && tail[..|Power(pattern, rep)|] == Power(pattern, rep)
    {
      BlockBounds(pattern, clen, rep, required, |tail|);
      var segment := tail[rep * clen..(rep + 1) * clen];
      BlockDecides(tail, pattern, rep, required, segment);
      if segment != pattern {
        FirstBlock(trace, clen, required, tail, pattern);
        return false;
      }
      rep := rep + 1;
    }
    PowerLength(pattern, required);
    assert tail[..|tail|] == tail;
    FirstBlock(trace, clen, required, tail, pattern);
    return true;
  }

  lemma SuffixOnce(trace: seq<Signature>, c: nat)
    requires c <= |trace|
    ensures EndsInPower(trace, c, 1)
  {
    PowerOne(trace[|trace| - c..]);
  }

  lemma TailLength(trace: seq<Signature>, c: nat, m: nat)
    requires c >= 1 && m >= 1 && c * m <= |trace|
    ensures var tail := Tail(trace, c * m); |tail| == c * m && c <= |tail| && IsSuffix(tail, trace)
  {
    AtLeastOnce(c, m);
    var k := c * m;
    assert k > 0;
    hide Tail;
    TailOf(trace, k);
  }

  lemma TailOf(trace: seq<Signature>, k: nat)
    requires 0 < k <= |trace|
    ensures Tail(trace, k) == trace[|trace| - k..]
  {}

  lemma AtLeastOnce(c: nat, m: nat)
    requires c >= 1 && m >= 1
    ensures c * m >= c
  {
    if m > 1 { assert c * m == c * (m - 1) + c; }
  }

  /** Where the `rep`-th block lies. */
  lemma BlockBounds(pattern: seq<Signature>, c: nat, rep: nat, m: nat, length: nat)
    requires |pattern| == c && rep < m && length == c * m
    ensures rep * c == |Power(pattern, rep)| && (rep + 1) * c == rep * c + c && (rep + 1) * c <= length
  {
    PowerLength(pattern, rep);
    PowerLength(pattern, rep + 1);
    PowerLength(pattern, m);
    PowerSum(pattern, rep + 1, m - rep - 1);
  }

  /** The next block either extends the power or rules it out. */
  lemma BlockDecides(tail: seq<Signature>, pattern: seq<Signature>, rep: nat, m: nat, segment: seq<Signature>)
    requires rep < m && var n := |Power(pattern, rep)|;
             && n + |pattern| <= |tail| && tail[..n] == Power(pattern, rep) && segment == tail[n..n + |pattern|]
    ensures segment == pattern ==> |Power(pattern, rep + 1)| <= |tail|
                                   && tail[..|Power(pattern, rep + 1)|] == Power(pattern, rep + 1)
    ensures segment != pattern ==> tail != Power(pattern, m)
  {
    var n := |Power(pattern, rep)|;
    PowerSum(pattern, rep, 1);
    PowerOne(pattern);
    assert tail[..n + |pattern|] == tail[..n] + segment;
    PowerSum(pattern, rep, m - rep);
    PowerHead(pattern, m - rep);
    var whole, rest := Power(pattern, m), Power(pattern, m - rep);
    assert whole == Power(pattern, rep) + rest;
    assert whole[n..n + |pattern|] == rest[..|pattern|];
  }

  /** The tail is a power of its first block exactly when the trace ends in a power of its last one. */
  lemma FirstBlock(trace: seq<Signature>, c: nat, m: nat, tail: seq<Signature>, pattern: seq<Signature>)
    requires m >= 1 && c >= 1 && |tail| == c * m && c <= |tail| && IsSuffix(tail, trace) && pattern == tail[..c]
    ensures tail == Power(pattern, m) <==> EndsInPower(trace, c, m)
  {
    if tail == Power(pattern, m) { FirstIsLast(trace, c, m, tail, pattern); }
    if EndsInPower(trace, c, m) { LastIsFirst(trace, c, m, tail); }
  }

  lemma FirstIsLast(trace: seq<Signature>, c: nat, m: nat, tail: seq<Signature>, pattern: seq<Signature>)
    requires m >= 1 && |pattern| == c && IsSuffix(tail, trace) && tail == Power(pattern, m)
    ensures EndsInPower(trace, c, m)
  {
    PowerSuffix(pattern, 1, m);
    PowerOne(pattern);
    SuffixTransitive(pattern, tail, trace);
  }

  lemma LastIsFirst(trace: seq<Signature>, c: nat, m: nat, tail: seq<Signature>)
    requires m >= 1 && |tail| == c * m && c <= |tail| && IsSuffix(tail, trace) && EndsInPower(trace, c, m)
    ensures tail == Power(tail[..c], m)
  {
    var last := trace[|trace| - c..];
    PowerLength(last, m);
    PowerHead(last, m);
  }

  // ---------------------------------------------------------------- what a detection means

  lemma MeetsWithinHalf(trace: seq<Signature>, c: nat, minReps: nat)
    requires minReps >= 2 && Meets(trace, c, minReps)
    ensures c <= |trace| / 2
  {
    var last := trace[|trace| - c..];
    PowerSuffix(last, 2, Required(c, minReps));
    PowerSum(last, 1, 1);
    PowerOne(last);
  }

  /** With at least two repetitions demanded, the bound of half the trace excludes nothing:
      the result is the least length of all that meets its requirement. */
  lemma DetectsLeast(trace: seq<Signature>, minReps: nat, r: Option<nat>)
    requires minReps >= 2 && Detects(trace, minReps, r)
    ensures match r
            case None => forall c: nat :: !Meets(trace, c, minReps)
            case Some(c) => Meets(trace, c, minReps) && forall d: nat :: d < c ==> !Meets(trace, d, minReps)
  {
    hide EndsInPower;
    if r == None {
      forall c: nat ensures !Meets(trace, c, minReps) {
        if Meets(trace, c, minReps) { MeetsWithinHalf(trace, c, minReps); }
      }
    }
  }

  /** A word that is not a repetition of a shorter one. */
  ghost predicate Primitive(p: seq<Signature>) {
    p != [] && forall u: seq<Signature>, k: nat :: k >= 2 ==> p != Power(u, k)
  }

  /** A power of a power at the end of the trace is a power of the smaller word. */
  lemma EndsInRootPower(trace: seq<Signature>, c: nat, m: nat, u: seq<Signature>, k: nat, r: nat)
    requires EndsInPower(trace, c, m) && trace[|trace| - c..] == Power(u, k) && 1 <= r <= k * m
    ensures EndsInPower(trace, |u|, r)
  {
    PowerPower(u, k, m);
    var whole := Power(u, k * m);
    PowerSuffix(u, r, k * m);
    SuffixTransitive(Power(u, r), whole, trace);
    PowerSuffix(u, 1, k * m);
    PowerOne(u);
    SuffixTransitive(u, whole, trace);
  }

  lemma RootIsShorter(u: seq<Signature>, k: nat, c: nat)
    requires k >= 2 && |Power(u, k)| == c && c >= 1
    ensures 1 <= |u| < c
  {
    PowerLength(u, k);
    PowerSuffix(u, 2, k);
    PowerSum(u, 1, 1);
    PowerOne(u);
    assert |u| == 0 ==> |u| * k == 0;
  }

  lemma RootRepeatsEnough(c: nat, d: nat, k: nat, minReps: nat)
    requires c >= 2 && k >= 2 && minReps >= 2
    ensures 1 <= Required(d, minReps) <= k * Required(c, minReps)
  {
    assert k * minReps == 2 * minReps + (k - 2) * minReps;
  }

  /** The cycle reported is primitive: the shortest description of the loop. */
  lemma DetectedIsPrimitive(trace: seq<Signature>, minReps: nat, c: nat)
    requires minReps >= 2 && Detects(trace, minReps, Some(c))
    ensures c <= |trace| && Primitive(trace[|trace| - c..])
  {
    var p := trace[|trace| - c..];
    forall u: seq<Signature>, k: nat | k >= 2 ensures p != Power(u, k) {
      if p == Power(u, k) {
        RootIsShorter(u, k, c);
        RootRepeatsEnough(c, |u|, k, minReps);
        assert !Meets(trace, |u|, minReps);
        EndsInRootPower(trace, c, Required(c, minReps), u, k, Required(|u|, minReps));
        assert false;
      }
    }
  }

  // ---------------------------------------------------------------- periodic tails

  /** From index `from` on, the trace repeats with period `p`. */
  predicate Periodic(trace: seq<Signature>, from: nat, p: nat) {
    forall i :: from <= i < |trace| - p ==> trace[i] == trace[i + p]
  }

  /** As many copies of the last `p` calls as fit into the periodic part stand at the end. */
  lemma {:induction false} PeriodicPower(trace: seq<Signature>, from: nat, p: nat, m: nat)
    requires from + p <= |trace| && Periodic(trace, from, p)
    requires |Power(trace[|trace| - p..], m)| <= |trace| - from
    ensures IsSuffix(Power(trace[|trace| - p..], m), trace)
    decreases m
  {
    var last := trace[|trace| - p..];
    if m == 1 {
      PowerOne(last);
    } else if m > 1 {
      var shorter := Power(last, m - 1);
      assert Power(last, m) == last + shorter;
      PeriodicPower(trace, from, p, m - 1);
      PowerHead(last, m - 1);
      hide Power, Periodic;
      OnePeriodMore(trace, from, p, shorter);
    }
  }

  /** A suffix that starts with the last `p` calls, inside the periodic part, extends by them. */
  lemma OnePeriodMore(trace: seq<Signature>, from: nat, p: nat, tail: seq<Signature>)
    requires from + p + |tail| <= |trace| && p <= |tail| && Periodic(trace, from, p)
    requires IsSuffix(tail, trace) && tail[..p] == trace[|trace| - p..]
    ensures IsSuffix(tail[..p] + tail, trace)
  {
    PeriodBefore(trace, from, p, |trace| - |tail|);
    hide Periodic;
    assert |tail[..p] + tail| == p + |tail|;
  }

  /** In the periodic part, the `p` calls before index `cut` are those after it. */
  lemma PeriodBefore(trace: seq<Signature>, from: nat, p: nat, cut: nat)
    requires from + p <= cut && cut + p <= |trace| && Periodic(trace, from, p)
    ensures trace[cut - p..] == trace[cut..][..p] + trace[cut..]
  {
    forall i | cut - p <= i < cut ensures trace[i] == trace[cut..][i + p - cut] {
      assert trace[i] == trace[i + p];
    }
  }

  /** Enough calls of a periodic stretch at the end of the trace meet the requirement. */
  lemma PeriodicMeets(trace: seq<Signature>, from: nat, p: nat, minReps: nat)
    requires minReps >= 1 && p >= 1 && from <= |trace| && Periodic(trace, from, p)
    requires p * Required(p, minReps) <= |trace| - from
    ensures Meets(trace, p, minReps)
  {
    var m := Required(p, minReps);
    assert p * m >= p by { if m > 1 { assert p * m == p * (m - 1) + p; } }
    PowerLength(trace[|trace| - p..], m);
    PeriodicPower(trace, from, p, m);
  }

  // ---------------------------------------------------------------- in plain terms

  /** The last calls repeat with period `p`: one more than demanded when a single call repeats, else the
      demanded number of times `p` calls. */
  predicate RepeatsAtEnd(trace: seq<Signature>, p: nat, minReps: nat) {
    var needed := if p == 1 then minReps + 1 else p * minReps;
    && p >= 1 && needed <= |trace|
    && forall i :: |trace| - needed <= i < |trace| - p ==> trace[i] == trace[i + p]
  }

  lemma {:induction false} PowerPeriodic(u: seq<Signature>, m: nat, i: nat)
    requires i + |u| < |Power(u, m)|
    ensures Power(u, m)[i] == Power(u, m)[i + |u|]
  {
    var rest := Power(u, m - 1);
    assert Power(u, m) == u + rest;
    if i < |u| {
      PowerHead(u, m - 1);
      assert rest[..|u|][i] == rest[i];
    } else {
      PowerPeriodic(u, m - 1, i - |u|);
    }
  }

  /** Enough repetitions at the end, call by call. */
  lemma MeetsByIndex(trace: seq<Signature>, p: nat, minReps: nat)
    requires minReps >= 1
    ensures Meets(trace, p, minReps) <==> RepeatsAtEnd(trace, p, minReps)
  {
    if Meets(trace, p, minReps) { MeetsRepeats(trace, p, minReps); }
    if RepeatsAtEnd(trace, p, minReps) {
      var needed := if p == 1 then minReps + 1 else p * minReps;
      assert p * Required(p, minReps) == needed;
      PeriodicMeets(trace, |trace| - needed, p, minReps);
    }
  }

  lemma MeetsRepeats(trace: seq<Signature>, p: nat, minReps: nat)
    requires minReps >= 1 && Meets(trace, p, minReps)
    ensures RepeatsAtEnd(trace, p, minReps)
  {
    MeetsFits(trace, p, minReps);
    var m := Required(p, minReps);
    var needed := if p == 1 then minReps + 1 else p * minReps;
    assert p * m == needed;
    var last := trace[|trace| - p..];
    PowerLength(last, m);
    var whole, from := Power(last, m), |trace| - needed;
    assert trace[from..] == whole;
    forall i | from <= i < |trace| - p ensures trace[i] == trace[i + p] {
      PowerPeriodic(last, m, i - from);
      assert trace[i] == whole[i - from] && trace[i + p] == whole[i + p - from];
    }
  }

  /** The detector finds the least period up to half the trace that is repeated often enough, and only that. */
  lemma DetectsInPlainTerms(trace: seq<Signature>, minReps: nat, r: Option<nat>)
    requires minReps >= 1
    ensures Detects(trace, minReps, r) <==>
      match r
      case None => |trace| < 2 || forall p: nat :: 1 <= p <= |trace| / 2 ==> !RepeatsAtEnd(trace, p, minReps)
      case Some(c) =>
        && 1 <= c <= |trace| / 2 && RepeatsAtEnd(trace, c, minReps)
        && forall p: nat :: p < c ==> !RepeatsAtEnd(trace, p, minReps)
  {
    hide Meets, RepeatsAtEnd;
    forall p: nat ensures Meets(trace, p, minReps) <==> RepeatsAtEnd(trace, p, minReps) {
      MeetsByIndex(trace, p, minReps);
    }
    NoZeroPeriod(trace, minReps);
  }

  lemma NoZeroPeriod(trace: seq<Signature>, minReps: nat)
    ensures !RepeatsAtEnd(trace, 0, minReps)
  {}
}
