/** Retry, model fallback and circuit breaker, over any outcome oracle and any clock. */
module FallbackChain {
  import opened Wrappers

  datatype Error =
    | BadRequest(toolsUnsupported: bool, visionUnsupported: bool)
    | RateLimit(retryAfter: Option<real>)
    | InternalServer(nonTransient: bool)
    | Timeout
    | Connection
    | EmptyChoices
    | Unexpected

  /** Errors that move on to the next model. */
  predicate TriggersFallback(e: Error) { !e.Unexpected? }

  /** What one API attempt gives. */
  datatype Outcome<+R> = Reply(reply: R) | Fault(error: Error)

  /** What a call gives: a reply, nothing at all (no attempt was allowed), or an error. */
  datatype Result<+R> = Value(value: R) | NoResult | Raised(error: Error)

  datatype Settings = Settings(cooldownSeconds: real, rateLimitWait: real, retryWait: real,
                               globalFallbacks: seq<Fallback>)

  /** A fallback entry; `model` is empty when the entry names none. */
  datatype Fallback = Fallback(model: string, provider: Option<string>)

  datatype Cooldown = Cooldown(expires: real, fallback: Fallback)

  datatype Reason = CooldownSkip | AfterError(error: Error)

  datatype FallbackInfo = FallbackInfo(originalModel: string, fallbackModel: string, reason: Reason)

  datatype Request = Request(model: string, provider: Option<string>, hasTools: bool, hasNoImagesCall: bool,
                             fallbacks: seq<Fallback>, maxRetries: int)

  // ---------------------------------------------------------------- classification and waiting

  datatype Class =
    | Retry(baseWait: real, after: Option<real>)
    | SkipToFallback
    | WithoutTools
    | WithoutImages
    | Propagate

  function Classify(s: Settings, e: Error, hasTools: bool): Class {
    match e
    case BadRequest(tools, vision) =>
      if tools && hasTools then WithoutTools else if vision then WithoutImages else Propagate
    case RateLimit(after) => Retry(s.rateLimitWait, after)
    case InternalServer(true) => SkipToFallback
    case Unexpected => Propagate
    case _ => Retry(s.retryWait, None)
  }

  /** The base, doubled `n` times. */
  function Doubled(base: real, n: nat): real { if n == 0 then base else 2.0 * Doubled(base, n - 1) }

  function Min(a: real, b: real): real { if a <= b then a else b }

  function Max(a: real, b: real): real { if a >= b then a else b }

  /** A random draw, evenly spread. */
  type Unit = r: real | 0.0 <= r <= 1.0 witness 0.0

  const CAP := 300.0

  /** Truncated exponential backoff with jitter: never under half the base wait, and never over
      the cap or the doubled base, whichever is less, unless half the base already is. */
  function ComputeBackoff(base: real, attempt: nat, draw: Unit): (wait: real)
    ensures wait >= base * 0.5
    ensures wait <= Max(base * 0.5, Max(0.0, Min(300.0, Doubled(base, attempt))))
  {
    Max(base * 0.5, Uniform(Min(CAP, Doubled(base, attempt)), draw))
  }

  /** A draw between zero and an upper limit. */
  function Uniform(upper: real, draw: Unit): (r: real)
    ensures r <= Max(0.0, upper)
  {
    assert upper >= 0.0 ==> upper * draw <= upper * 1.0;
    upper * draw
  }

  /** The wait before the next attempt respects the upstream hint or the backoff bounds. */
  predicate WaitAllowed(c: Class, attempt: nat, wait: real)
    requires c.Retry?
  {
    match c.after
    case Some(seconds) => wait == Max(1.0, Min(120.0, seconds)) && 1.0 <= wait <= 120.0
    case None =>
      c.baseWait * 0.5 <= wait <= Max(c.baseWait * 0.5, Max(0.0, Min(CAP, Doubled(c.baseWait, attempt))))
  }

  // ---------------------------------------------------------------- one model

  /** After this outcome another full attempt may be made. */
  predicate RetryableAt<R>(s: Settings, outcomes: nat -> Outcome<R>, j: nat, hasTools: bool) {
    outcomes(j).Fault? && Classify(s, outcomes(j).error, hasTools).Retry?
  }

  /** After this outcome one attempt without tools, or without images, is made instead. */
  predicate Reduces<R>(s: Settings, o: Outcome<R>, req: Request) {
    o.Fault? && var c := Classify(s, o.error, req.hasTools);
                c.WithoutTools? || (c.WithoutImages? && req.hasNoImagesCall)
  }

  /** Full attempts made beyond the first, starting at oracle index `n` with `left` allowed. */
  function Retries<R(==)>(s: Settings, outcomes: nat -> Outcome<R>, n: nat, hasTools: bool, left: nat): (k: nat)
    ensures k <= left
    ensures forall j :: n <= j < n + k ==> RetryableAt(s, outcomes, j, hasTools)
    ensures k < left ==> !RetryableAt(s, outcomes, n + k, hasTools)
    decreases left
  {
    if left > 0 && RetryableAt(s, outcomes, n, hasTools) then 1 + Retries(s, outcomes, n + 1, hasTools, left - 1)
    else 0
  }

  /** API attempts one model gets from oracle index `n` on. */
  function Used<R(==)>(s: Settings, outcomes: nat -> Outcome<R>, n: nat, req: Request): (used: nat)
    ensures used <= if req.maxRetries < 0 then 0 else req.maxRetries + 2
    ensures used == 0 <==> req.maxRetries < 0
  {
    if req.maxRetries < 0 then 0
    else
      var k := Retries(s, outcomes, n, req.hasTools, req.maxRetries);
      if Reduces(s, outcomes(n + k), req) then k + 2 else k + 1
  }

  /** The last of these attempts decides. */
  function ResultAt<R(==)>(s: Settings, outcomes: nat -> Outcome<R>, n: nat, req: Request): (r: Result<R>)
    ensures r == NoResult <==> req.maxRetries < 0
  {
    if req.maxRetries < 0 then NoResult
    else
      match outcomes(n + Used(s, outcomes, n, req) - 1)
      case Reply(v) => Value(v)
      case Fault(e) => Raised(e)
  }

  /** With a negative count not even the first attempt is made, and the caller gets nothing. */
  lemma NegativeRetriesGiveNothing<R>(s: Settings, outcomes: nat -> Outcome<R>)
    ensures var req := Request("m", None, false, false, [], -1);
            Used(s, outcomes, 0, req) == 0 && ResultAt(s, outcomes, 0, req) == NoResult
  {}

  /** The full attempt `a` is the last one: how many attempts that makes, and which one decides. */
  lemma Stops<R>(s: Settings, outcomes: nat -> Outcome<R>, n: nat, req: Request, a: nat)
    requires a <= req.maxRetries && (a == req.maxRetries || !RetryableAt(s, outcomes, n + a, req.hasTools))
    requires forall j :: n <= j < n + a ==> RetryableAt(s, outcomes, j, req.hasTools)
    ensures Retries(s, outcomes, n, req.hasTools, req.maxRetries) == a
    ensures var used := if Reduces(s, outcomes(n + a), req) then a + 2 else a + 1;
            && Used(s, outcomes, n, req) == used
            && ResultAt(s, outcomes, n, req)
               == match outcomes(n + used - 1) case Reply(v) => Value(v) case Fault(e) => Raised(e)
  {
    hide RetryableAt, Reduces;
    var k := Retries(s, outcomes, n, req.hasTools, req.maxRetries);
  }

  /** Each of the attempts from `n` on that was followed by a wait may be, and by that wait. */
  predicate WaitsAllowed<R>(s: Settings, outcomes: nat -> Outcome<R>, n: nat, hasTools: bool, slept: seq<real>) {
    forall j :: n <= j < n + |slept| ==>
      && RetryableAt(s, outcomes, j, hasTools)
      && WaitAllowed(Classify(s, outcomes(j).error, hasTools), j - n, slept[j - n])
  }

  lemma NoWaits<R>(s: Settings, outcomes: nat -> Outcome<R>, n: nat, hasTools: bool)
    ensures WaitsAllowed(s, outcomes, n, hasTools, [])
  {}

  lemma WaitAdded<R>(s: Settings, outcomes: nat -> Outcome<R>, n: nat, hasTools: bool, slept: seq<real>, wait: real)
    requires WaitsAllowed(s, outcomes, n, hasTools, slept) && RetryableAt(s, outcomes, n + |slept|, hasTools)
    requires WaitAllowed(Classify(s, outcomes(n + |slept|).error, hasTools), |slept|, wait)
    ensures WaitsAllowed(s, outcomes, n, hasTools, slept + [wait])
  {
    hide WaitAllowed, Classify;
  }

  lemma WaitedRetryable<R>(s: Settings, outcomes: nat -> Outcome<R>, n: nat, hasTools: bool, slept: seq<real>)
    requires WaitsAllowed(s, outcomes, n, hasTools, slept)
    ensures forall j :: n <= j < n + |slept| ==> RetryableAt(s, outcomes, j, hasTools)
  {}

  // ---------------------------------------------------------------- what is sent

  /** An attempt sends the request whole, without its tools, or without its images. */
  datatype Mode = Full | NoTools | NoImages

  datatype Sent = Sent(target: Fallback, mode: Mode)

  /** What one model is sent: the whole request each time and, where the last error asks for it,
      once the reduced one. */
  function SentTo<R(==)>(s: Settings, outcomes: nat -> Outcome<R>, n: nat, req: Request, target: Fallback)
    : (sent: seq<Sent>)
    ensures |sent| == Used(s, outcomes, n, req)
  {
    if req.maxRetries < 0 then []
    else
      var k := Retries(s, outcomes, n, req.hasTools, req.maxRetries);
      var whole := seq(k + 1, i => Sent(target, Full));
      if Reduces(s, outcomes(n + k), req) then
        var tools := Classify(s, outcomes(n + k).error, req.hasTools).WithoutTools?;
        whole + [Sent(target, if tools then NoTools else NoImages)]
      else whole
  }

  /** What the first `k` starts of the plan are sent. */
  function SentUpTo<R(==)>(s: Settings, outcomes: nat -> Outcome<R>, n: nat, req: Request, plan: seq<Fallback>, k: nat)
    : seq<Sent>
    requires k <= |plan|
  {
    if k == 0 then []
    else SentUpTo(s, outcomes, n, req, plan, k - 1)
         + SentTo(s, outcomes, StartIndex(s, outcomes, n, req, k - 1), req, plan[k - 1])
  }

  // ---------------------------------------------------------------- the order of models

  /** Entries that are tried: named, and not tried before. */
  function Eligible(fallbacks: seq<Fallback>, tried: set<string>): seq<Fallback> {
    if fallbacks == [] then []
    else if fallbacks[0].model == "" || fallbacks[0].model in tried then Eligible(fallbacks[1..], tried)
    else [fallbacks[0]] + Eligible(fallbacks[1..], tried + {fallbacks[0].model})
  }

  /** All models a call may start, in order; `active` is the cooldown's replacement, if any. */
  function Plan(s: Settings, req: Request, active: Option<Fallback>): seq<Fallback> {
    match active
    case None => [Fallback(req.model, req.provider)] + Eligible(req.fallbacks + s.globalFallbacks, {req.model})
    case Some(fb) => [fb] + Eligible(req.fallbacks + s.globalFallbacks, {req.model, fb.model})
  }

  predicate Distinct(plan: seq<Fallback>) {
    forall i, j :: 0 <= i < j < |plan| ==> plan[i].model != plan[j].model
  }

  function Names(fallbacks: seq<Fallback>): set<string> {
    set f | f in fallbacks && f.model != "" :: f.model
  }

  lemma {:induction false} EligibleDistinct(fallbacks: seq<Fallback>, tried: set<string>)
    ensures var e := Eligible(fallbacks, tried);
            && Distinct(e)
            && (forall f :: f in e ==> f in fallbacks && f.model != "" && f.model !in tried)
  {
    if fallbacks != [] {
      var f, rest := fallbacks[0], fallbacks[1..];
      if f.model == "" || f.model in tried {
        EligibleDistinct(rest, tried);
      } else {
        EligibleDistinct(rest, tried + {f.model});
        var e := Eligible(rest, tried + {f.model});
        assert forall j :: 0 <= j < |e| ==> e[j] in e;
      }
    }
  }

  lemma {:induction false} DistinctCount(plan: seq<Fallback>, names: set<string>)
    requires Distinct(plan) && forall f :: f in plan ==> f.model in names
    ensures |plan| <= |names|
    decreases |plan|
  {
    if plan != [] {
      var rest := plan[1..];
      forall f | f in rest ensures f.model in names - {plan[0].model} {
        var i :| 0 <= i < |rest| && rest[i] == f;
        assert f == plan[i + 1];
      }
      assert plan[0] in plan;
      DistinctCount(rest, names - {plan[0].model});
    }
  }

  /** No cooldown entry maps a model to itself or to an unnamed one. */
  predicate SoundCooldowns(cooldowns: map<string, Cooldown>) {
    forall m :: m in cooldowns ==> cooldowns[m].fallback.model != m && cooldowns[m].fallback.model != ""
  }

  /** No model is started twice; at most one start more than there are distinct fallbacks; and a model
      in cooldown is not started at all. */
  lemma PlanIsSound(s: Settings, req: Request, active: Option<Fallback>)
    requires active.Some? ==> active.value.model != req.model
    ensures var plan := Plan(s, req, active);
            && Distinct(plan)
            && |plan| <= 1 + |Names(req.fallbacks + s.globalFallbacks)|
            && (forall k :: 0 < k < |plan| ==> plan[k].model != req.model && plan[k].model != "")
            && (active.Some? ==> forall k :: 0 <= k < |plan| ==> plan[k].model != req.model)
  {
    var all := req.fallbacks + s.globalFallbacks;
    var tried := if active.Some? then {req.model, active.value.model} else {req.model};
    EligibleDistinct(all, tried);
    var e := Eligible(all, tried);
    forall f | f in e ensures f.model in Names(all) { assert f in all; }
    DistinctCount(e, Names(all));
    assert forall k :: 0 <= k < |e| ==> e[k] in e;
  }

  /** Oracle index at which the `k`-th start begins. */
  function StartIndex<R(==)>(s: Settings, outcomes: nat -> Outcome<R>, n: nat, req: Request, k: nat): nat {
    if k == 0 then n
    else
      var before := StartIndex(s, outcomes, n, req, k - 1);
      before + Used(s, outcomes, before, req)
  }

  /** Attempts of `k` starts. */
  lemma {:induction false} AttemptsOfStarts<R>(s: Settings, outcomes: nat -> Outcome<R>, n: nat, req: Request, k: nat)
    ensures StartIndex(s, outcomes, n, req, k) - n <= k * (if req.maxRetries < 0 then 0 else req.maxRetries + 2)
  {
    hide Used;
    if k > 0 {
      var per := if req.maxRetries < 0 then 0 else req.maxRetries + 2;
      AttemptsOfStarts(s, outcomes, n, req, k - 1);
      assert k * per == (k - 1) * per + per;
    }
  }

  /** The first `last` starts of the plan failed in a way that moves on, and the next one settled the call. */
  predicate Settled<R(==)>(s: Settings, outcomes: nat -> Outcome<R>, n: nat, req: Request, plan: seq<Fallback>,
                       last: nat, r: Result<R>)
  {
    && last < |plan| && FailedUpTo(s, outcomes, n, req, last)
    && r == ResultAt(s, outcomes, StartIndex(s, outcomes, n, req, last), req)
    && (r.Raised? && TriggersFallback(r.error) ==> last == |plan| - 1)
  }

  /** A call never makes more than `(maxRetries + 2) * (1 + distinct fallbacks)` API attempts. */
  lemma AttemptsBound<R>(s: Settings, outcomes: nat -> Outcome<R>, n: nat, req: Request, active: Option<Fallback>,
                         last: nat, r: Result<R>)
    requires active.Some? ==> active.value.model != req.model
    requires Settled(s, outcomes, n, req, Plan(s, req, active), last, r)
    ensures StartIndex(s, outcomes, n, req, last + 1) - n
         <= (1 + |Names(req.fallbacks + s.globalFallbacks)|) * (if req.maxRetries < 0 then 0 else req.maxRetries + 2)
  {
    hide Settled, Plan, Names, StartIndex, Distinct;
    SettledInPlan(s, outcomes, n, req, Plan(s, req, active), last, r);
    PlanIsSound(s, req, active);
    AttemptsOfStarts(s, outcomes, n, req, last + 1);
    var per := if req.maxRetries < 0 then 0 else req.maxRetries + 2;
    var most := 1 + |Names(req.fallbacks + s.globalFallbacks)|;
    MoreStartsMoreAttempts(last + 1, most, per);
  }

  lemma MoreStartsMoreAttempts(a: nat, b: nat, per: nat)
    requires a <= b
    ensures a * per <= b * per
  {}

  lemma SettledInPlan<R>(s: Settings, outcomes: nat -> Outcome<R>, n: nat, req: Request, plan: seq<Fallback>,
                         last: nat, r: Result<R>)
    requires Settled(s, outcomes, n, req, plan, last, r)
    ensures last < |plan|
  {}

  lemma PlanParts(s: Settings, req: Request, active: Option<Fallback>)
    ensures var plan := Plan(s, req, active);
            && plan != [] && plan[0] == (if active.Some? then active.value else Fallback(req.model, req.provider))
            && plan[1..] == Eligible(req.fallbacks + s.globalFallbacks,
                                     if active.Some? then {req.model, active.value.model} else {req.model})
  {}

  /** The starts before the `last` failed in a way that moves on. */
  predicate FailedUpTo<R(==)>(s: Settings, outcomes: nat -> Outcome<R>, n: nat, req: Request, last: nat) {
    forall k :: 0 <= k < last ==>
      var f := ResultAt(s, outcomes, StartIndex(s, outcomes, n, req, k), req); f.Raised? && TriggersFallback(f.error)
  }

  // ---------------------------------------------------------------- what a call leaves behind

  /** The replacement recorded for the model, while it lasts. */
  function ActiveCooldown(model: string, cooldowns: map<string, Cooldown>, now: real): Option<Fallback> {
    if model in cooldowns && now < cooldowns[model].expires then Some(cooldowns[model].fallback) else None
  }

  /** Looking a model up drops its entry if that has expired. */
  function AfterLookup(model: string, cooldowns: map<string, Cooldown>, active: Option<Fallback>)
    : map<string, Cooldown>
  {
    if active.Some? then cooldowns else cooldowns - {model}
  }

  /** The fallback report: empty exactly when the primary model answered or the call raised. */
  function Report<R>(s: Settings, req: Request, active: Option<Fallback>, last: nat, r: Result<R>,
                     first: Result<R>): Option<FallbackInfo>
  {
    var plan := Plan(s, req, active);
    if r.Raised? || last >= |plan| then None
    else if last > 0 && first.Raised? then Some(FallbackInfo(req.model, plan[last].model, AfterError(first.error)))
    else if active.Some? then Some(FallbackInfo(req.model, plan[last].model, CooldownSkip))
    else None
  }

  /** A fallback answered after a failure, and cooldowns are in use. */
  predicate Records<R>(s: Settings, last: nat, r: Result<R>) { !r.Raised? && last > 0 && s.cooldownSeconds > 0.0 }

  /** Only a fallback that answered after a failure is remembered, from `now` on. */
  predicate Remembered<R>(s: Settings, model: string, plan: seq<Fallback>, last: nat, r: Result<R>,
                          before: map<string, Cooldown>, now: real, after: map<string, Cooldown>)
  {
    if Records(s, last, r) then last < |plan| && after == before[model := Cooldown(now + s.cooldownSeconds, plan[last])]
    else after == before
  }

  /** Index of the last clock reading. */
  function Latest(readings: nat): nat { if readings == 0 then 0 else readings - 1 }

  lemma FirstFailed<R>(s: Settings, outcomes: nat -> Outcome<R>, n: nat, req: Request)
    requires var f := ResultAt(s, outcomes, n, req); f.Raised? && TriggersFallback(f.error)
    ensures FailedUpTo(s, outcomes, n, req, 1) && StartIndex(s, outcomes, n, req, 0) == n
  {}

  lemma NextStart<R>(s: Settings, outcomes: nat -> Outcome<R>, n: nat, req: Request, last: nat)
    requires last > 0 && FailedUpTo(s, outcomes, n, req, last)
    ensures var at := StartIndex(s, outcomes, n, req, last);
            && StartIndex(s, outcomes, n, req, last + 1) == at + Used(s, outcomes, at, req)
            && var f := ResultAt(s, outcomes, at, req);
               f.Raised? && TriggersFallback(f.error) ==> FailedUpTo(s, outcomes, n, req, last + 1)
  {
    hide ResultAt, Used;
  }

  lemma SentFirst<R>(s: Settings, outcomes: nat -> Outcome<R>, n: nat, req: Request, plan: seq<Fallback>)
    requires plan != []
    ensures SentUpTo(s, outcomes, n, req, plan, 1) == SentTo(s, outcomes, n, req, plan[0])
  {
    assert SentUpTo(s, outcomes, n, req, plan, 0) == [];
    assert StartIndex(s, outcomes, n, req, 0) == n;
  }

  lemma SentNext<R>(s: Settings, outcomes: nat -> Outcome<R>, n: nat, req: Request, plan: seq<Fallback>, k: nat)
    requires k < |plan|
    ensures SentUpTo(s, outcomes, n, req, plan, k + 1)
         == SentUpTo(s, outcomes, n, req, plan, k)
            + SentTo(s, outcomes, StartIndex(s, outcomes, n, req, k), req, plan[k])
  {}

  lemma Regroup<T>(a: seq<T>, b: seq<T>, c: seq<T>)
    ensures a + b + c == a + (b + c)
  {}

  lemma NowSettled<R>(s: Settings, outcomes: nat -> Outcome<R>, n: nat, req: Request, plan: seq<Fallback>,
                      last: nat, r: Result<R>)
    requires last < |plan| && (FailedUpTo(s, outcomes, n, req, last) || FailedUpTo(s, outcomes, n, req, last + 1))
    requires r == ResultAt(s, outcomes, StartIndex(s, outcomes, n, req, last), req)
    requires r.Raised? && TriggersFallback(r.error) ==> last == |plan| - 1
    ensures Settled(s, outcomes, n, req, plan, last, r)
  {
    hide ResultAt, StartIndex;
  }

  /** The next entry is skipped, or it is the next one of the plan. */
  lemma NextEligible(effective: seq<Fallback>, i: nat, tried: set<string>, plan: seq<Fallback>, last: nat)
    requires i < |effective| && last < |plan| && plan[last + 1..] == Eligible(effective[i..], tried)
    ensures var fb := effective[i];
            if fb.model == "" || fb.model in tried then plan[last + 1..] == Eligible(effective[i + 1..], tried)
            else && last + 1 < |plan| && fb == plan[last + 1] && plan[1..last + 2] == plan[1..last + 1] + [fb]
                 && plan[last + 2..] == Eligible(effective[i + 1..], tried + {fb.model})
  {
    var fb := effective[i];
    assert effective[i..][1..] == effective[i + 1..];
    if fb.model != "" && fb.model !in tried {
      assert plan[last + 1] == plan[last + 1..][0];
      assert plan[last + 2..] == plan[last + 1..][1..];
    }
  }

  lemma NoneEligible(tried: set<string>)
    ensures Eligible([], tried) == []
  {}

  lemma NothingRemembered<R>(s: Settings, model: string, plan: seq<Fallback>, last: nat, r: Result<R>,
                             cooldowns: map<string, Cooldown>)
    requires r.Raised? || last == 0
    ensures forall now :: Remembered(s, model, plan, last, r, cooldowns, now, cooldowns)
  {}

  lemma NowRemembered<R>(s: Settings, model: string, plan: seq<Fallback>, last: nat, r: Result<R>,
                         before: map<string, Cooldown>, now: real)
    requires !r.Raised? && 0 < last < |plan|
    ensures var after := if s.cooldownSeconds <= 0.0 then before
                         else before[model := Cooldown(now + s.cooldownSeconds, plan[last])];
            Remembered(s, model, plan, last, r, before, now, after)
  {}

  lemma NothingFailed<R>(s: Settings, outcomes: nat -> Outcome<R>, n: nat, req: Request)
    ensures FailedUpTo(s, outcomes, n, req, 0) && StartIndex(s, outcomes, n, req, 0) == n
  {}

  lemma ReportAtFirst<R>(s: Settings, req: Request, active: Option<Fallback>, r: Result<R>)
    ensures Report(s, req, active, 0, r, r)
         == if active.Some? && !r.Raised? then Some(FallbackInfo(req.model, active.value.model, CooldownSkip)) else None
  {
    PlanParts(s, req, active);
  }

  lemma ReportAfterFailure<R>(s: Settings, req: Request, active: Option<Fallback>, last: nat, r: Result<R>, e: Error)
    requires last < |Plan(s, req, active)|
    ensures r.Raised? ==> Report(s, req, active, last, r, Raised(e)) == None
    ensures !r.Raised? && last > 0 ==>
              Report(s, req, active, last, r, Raised(e))
                == Some(FallbackInfo(req.model, Plan(s, req, active)[last].model, AfterError(e)))
  {}

  /** A call that returns leaves the report empty if and only if the primary model answered. */
  lemma ReportEmptyIffPrimary<R>(s: Settings, outcomes: nat -> Outcome<R>, n: nat, req: Request,
                                 active: Option<Fallback>, last: nat, r: Result<R>)
    requires active.Some? ==> active.value.model != req.model
    requires Settled(s, outcomes, n, req, Plan(s, req, active), last, r) && !r.Raised?
    ensures Report(s, req, active, last, r, ResultAt(s, outcomes, n, req)) == None
            <==> Plan(s, req, active)[last].model == req.model
  {
    PlanIsSound(s, req, active);
    PlanParts(s, req, active);
    hide Plan, ResultAt;
    if last > 0 { assert StartIndex(s, outcomes, n, req, 0) == n; }
  }

  // ---------------------------------------------------------------- the breaker over many calls

  /** One call as the cooldown table sees it: what was asked and what settled it, the number of clock
      readings before and after, and the table before and after. */
  datatype Call<+R> = Call(req: Request, active: Option<Fallback>, last: nat, result: Result<R>,
                           asked: nat, done: nat, before: map<string, Cooldown>, after: map<string, Cooldown>)

  predicate CallStep<R>(s: Settings, clock: nat -> real, c: Call<R>) {
    && c.asked <= c.done && (Records(s, c.last, c.result) ==> c.asked < c.done)
    && c.active == ActiveCooldown(c.req.model, c.before, clock(c.asked))
    && Remembered(s, c.req.model, Plan(s, c.req, c.active), c.last, c.result,
                  AfterLookup(c.req.model, c.before, c.active), clock(Latest(c.done)), c.after)
  }

  /** When a call meets a replacement, the entry keeps it exactly when the call records nothing. */
  lemma CallMovesReplacement<R>(s: Settings, clock: nat -> real, c: Call<R>)
    requires CallStep(s, clock, c) && SoundCooldowns(c.before) && c.active.Some?
    ensures var m := c.req.model;
            && m in c.before && m in c.after && c.active == Some(c.before[m].fallback)
            && (c.after[m].fallback == c.before[m].fallback <==> !Records(s, c.last, c.result))
  {
    PlanIsSound(s, c.req, c.active);
    PlanParts(s, c.req, c.active);
    hide Plan, Names;
  }

  /** The replacement can change while the model is covered: when the recorded one times out and
      another fallback answers, later calls start with that one. */
  lemma ReplacementMoves()
    ensures var a, b := Fallback("a", None), Fallback("b", None);
            var s, req := Settings(60.0, 1.0, 1.0, []), Request("m", None, false, false, [b], 0);
            var outcomes := (i: nat) => if i == 0 then Fault(Timeout) else Reply(0);
            var before, after := map["m" := Cooldown(60.0, a)], map["m" := Cooldown(61.0, b)];
            && Settled(s, outcomes, 0, req, Plan(s, req, Some(a)), 1, Value(0))
            && CallStep(s, (i: nat) => i as real, Call(req, Some(a), 1, Value(0), 0, 2, before, after))
            && ActiveCooldown("m", before, 0.0) == Some(a) && ActiveCooldown("m", after, 2.0) == Some(b)
  {
    var a, b := Fallback("a", None), Fallback("b", None);
    var s, req := Settings(60.0, 1.0, 1.0, []), Request("m", None, false, false, [b], 0);
    var outcomes := (i: nat) => if i == 0 then Fault(Timeout) else Reply(0);
    assert "a"[0] != "b"[0] && "m"[0] != "b"[0];
    assert Eligible([b], {"m", "a"}) == [b] + Eligible([b][1..], {"m", "a"} + {"b"});
    assert [b] + [] == [b] && [b][1..] == [];
    assert Plan(s, req, Some(a)) == [a, b];
    assert ResultAt(s, outcomes, 0, req) == Raised(Timeout) && Used(s, outcomes, 0, req) == 1;
    assert StartIndex(s, outcomes, 0, req, 0) == 0 && StartIndex(s, outcomes, 0, req, 1) == 1;
    assert ResultAt(s, outcomes, 1, req) == Value(0);
  }

  // ---------------------------------------------------------------- the breaker under any interleaving

  /** What happens to the table. A call looks its model up, and may later record the fallback that
      answered; `seen` is the replacement it had met. An operator may clear an entry. Steps of different
      calls may come in any order. */
  datatype Event =
    | LookedUp(model: string, time: real, active: Option<Fallback>)
    | Recorded(model: string, time: real, fallback: Fallback, seen: Option<Fallback>)
    | Cleared(model: string, time: real)

  predicate TableStep(s: Settings, e: Event, before: map<string, Cooldown>, after: map<string, Cooldown>) {
    match e
    case LookedUp(model, time, active) =>
      active == ActiveCooldown(model, before, time) && after == AfterLookup(model, before, active)
    case Recorded(model, time, fallback, seen) =>
      && s.cooldownSeconds > 0.0 && fallback.model != model && fallback.model != ""
      && (seen.Some? ==> fallback.model != seen.value.model)
      && after == before[model := Cooldown(time + s.cooldownSeconds, fallback)]
    case Cleared(model, _) => after == before - {model}
  }

  /** A call is a lookup and, exactly if it records, a recording. */
  lemma CallIsSteps<R>(s: Settings, clock: nat -> real, c: Call<R>)
    requires CallStep(s, clock, c) && SoundCooldowns(c.before)
    ensures var mid, plan := AfterLookup(c.req.model, c.before, c.active), Plan(s, c.req, c.active);
            && TableStep(s, LookedUp(c.req.model, clock(c.asked), c.active), c.before, mid)
            && if Records(s, c.last, c.result)
               then c.last < |plan|
                    && TableStep(s, Recorded(c.req.model, clock(Latest(c.done)), plan[c.last], c.active), mid, c.after)
               else c.after == mid
  {
    PlanIsSound(s, c.req, c.active);
    PlanParts(s, c.req, c.active);
    hide Plan, Names;
  }

  /** A run: the table before, between and after the events, which come in the order of their times. */
  predicate TableRun(s: Settings, events: seq<Event>, tables: seq<map<string, Cooldown>>) {
    && |tables| == |events| + 1
    && (forall k :: 0 <= k < |events| ==> TableStep(s, events[k], tables[k], tables[k + 1]))
    && (forall j, k :: 0 <= j < k < |events| ==> events[j].time <= events[k].time)
  }

  /** The model has an entry that does not expire before `until`. */
  predicate Covered(cooldowns: map<string, Cooldown>, model: string, until: real) {
    model in cooldowns && until <= cooldowns[model].expires
  }

  predicate Clears(e: Event, model: string) { e.Cleared? && e.model == model }

  predicate RecordsFor(e: Event, model: string) { e.Recorded? && e.model == model }

  /** Every step but clearing the model's entry keeps its cover; only a recording for it changes the replacement. */
  lemma StepKeepsCover(s: Settings, e: Event, before: map<string, Cooldown>, after: map<string, Cooldown>,
                       model: string, until: real)
    requires TableStep(s, e, before, after) && SoundCooldowns(before) && Covered(before, model, until)
    requires e.time < until <= e.time + s.cooldownSeconds && !Clears(e, model)
    ensures Covered(after, model, until) && SoundCooldowns(after)
    ensures after[model].fallback == if RecordsFor(e, model) then e.fallback else before[model].fallback
  {}

  /** The first event records a fallback for its model, nobody clears that entry before event `k`, and
      all events before `k` come before it would expire. */
  predicate Breaker(s: Settings, events: seq<Event>, tables: seq<map<string, Cooldown>>, k: nat) {
    && TableRun(s, events, tables) && 0 < k <= |events| && SoundCooldowns(tables[0]) && events[0].Recorded?
    && (forall j :: 0 < j < k ==> !Clears(events[j], events[0].model))
    && (forall j :: 0 < j < k ==> events[j].time < events[0].time + s.cooldownSeconds)
  }

  /** The cover lasts from the event that made it. */
  lemma {:induction false} CoverLasts(s: Settings, events: seq<Event>, tables: seq<map<string, Cooldown>>, k: nat)
    requires Breaker(s, events, tables, k)
    ensures Covered(tables[k], events[0].model, events[0].time + s.cooldownSeconds) && SoundCooldowns(tables[k])
    decreases k
  {
    assert TableStep(s, events[k - 1], tables[k - 1], tables[k]);
    if k > 1 {
      CoverLasts(s, events, tables, k - 1);
      hide TableStep, SoundCooldowns, Covered;
      StepKeepsCover(s, events[k - 1], tables[k - 1], tables[k], events[0].model, events[0].time + s.cooldownSeconds);
    }
  }

  /** The breaker: from the recording of a fallback for a model until that entry would expire, unless
      somebody clears it, every call that looks the model up has a replacement and never starts the
      model, whatever calls for whatever models come in between and however their steps interleave. */
  lemma BreakerSkipsModel(s: Settings, events: seq<Event>, tables: seq<map<string, Cooldown>>, k: nat)
    requires Breaker(s, events, tables, k) && k < |events| && events[k].LookedUp?
    requires events[k].model == events[0].model && events[k].time < events[0].time + s.cooldownSeconds
    ensures events[k].active.Some?
    ensures forall req: Request, f :: req.model == events[k].model && f in Plan(s, req, events[k].active) ==>
              f.model != req.model
  {
    CoverLasts(s, events, tables, k);
    assert TableStep(s, events[k], tables[k], tables[k + 1]);
    hide Plan;
    forall req: Request, f | req.model == events[k].model && f in Plan(s, req, events[k].active)
      ensures f.model != req.model
    {
      PlanIsSound(s, req, events[k].active);
    }
  }

  /** Up to the `k`-th table the model has the recorded replacement. */
  predicate SameReplacement(events: seq<Event>, tables: seq<map<string, Cooldown>>, k: nat)
    requires k < |tables| && events != [] && events[0].Recorded?
  {
    forall j :: 0 < j <= k ==> events[0].model in tables[j] && tables[j][events[0].model].fallback == events[0].fallback
  }

  /** All further recordings for the model name that replacement again. */
  predicate RecordsAgree(events: seq<Event>, k: nat)
    requires k <= |events| && events != [] && events[0].Recorded?
  {
    forall j :: 0 < j < k && RecordsFor(events[j], events[0].model) ==> events[j].fallback == events[0].fallback
  }

  /** The replacement stays exactly as long as every recording for the model names it. */
  lemma {:induction false} ReplacementStays(s: Settings, events: seq<Event>, tables: seq<map<string, Cooldown>>, k: nat)
    requires Breaker(s, events, tables, k)
    ensures SameReplacement(events, tables, k) <==> RecordsAgree(events, k)
    decreases k
  {
    assert TableStep(s, events[k - 1], tables[k - 1], tables[k]);
    if k > 1 {
      ReplacementStays(s, events, tables, k - 1);
      CoverLasts(s, events, tables, k - 1);
      hide TableStep, SoundCooldowns, Covered;
      StepKeepsCover(s, events[k - 1], tables[k - 1], tables[k], events[0].model, events[0].time + s.cooldownSeconds);
    }
  }

  /** Each recording for the model comes from a call that met the replacement still in force then, as
      it does when calls for one model do not overlap. */
  predicate Informed(events: seq<Event>, tables: seq<map<string, Cooldown>>, k: nat)
    requires k <= |events| < |tables| && events != []
  {
    forall j :: 0 < j < k && RecordsFor(events[j], events[0].model) ==>
      events[j].model in tables[j] && events[j].seen == Some(tables[j][events[j].model].fallback)
  }

  /** Then the replacement stays exactly as long as no call for the model records. */
  lemma ReplacementStaysUnlessRecorded(s: Settings, events: seq<Event>, tables: seq<map<string, Cooldown>>, k: nat)
    requires Breaker(s, events, tables, k) && Informed(events, tables, k)
    ensures SameReplacement(events, tables, k) <==> forall j :: 0 < j < k ==> !RecordsFor(events[j], events[0].model)
  {
    ReplacementStays(s, events, tables, k);
    forall j | 0 < j < k && RecordsFor(events[j], events[0].model)
      ensures SameReplacement(events, tables, k) ==> events[j].fallback != events[0].fallback
    {
      assert TableStep(s, events[j], tables[j], tables[j + 1]);
    }
  }

  // ---------------------------------------------------------------- the calls

  class LlmCaller<R(==)> {
    const settings: Settings
    const outcomes: nat -> Outcome<R>
    const clock: nat -> real
    const draws: nat -> Unit
    var attempts: nat                      // API attempts made so far
    var readings: nat                         // clock readings so far
    var waits: seq<real>                   // sleeps between attempts so far
    var cooldowns: map<string, Cooldown>
    var lastFallback: Option<FallbackInfo>
    ghost var starts: seq<Fallback>        // models started so far
    ghost var sent: seq<Sent>              // what the attempts so far sent

    constructor (settings: Settings, outcomes: nat -> Outcome<R>, clock: nat -> real, draws: nat -> Unit)
      ensures this.settings == settings && this.outcomes == outcomes && this.clock == clock && this.draws == draws
      ensures attempts == readings == 0 && waits == [] && cooldowns == map[] && lastFallback == None
                && starts == [] && sent == []
    {
      this.settings, this.outcomes, this.clock, this.draws := settings, outcomes, clock, draws;
      attempts, readings, waits, cooldowns, lastFallback, starts, sent := 0, 0, [], map[], None, [], [];
    }

    method SetModelCooldown(model: string, fallback: Fallback)
      requires SoundCooldowns(cooldowns) && fallback.model != model && fallback.model != ""
      modifies this`cooldowns, this`readings
      ensures SoundCooldowns(cooldowns)
      ensures if settings.cooldownSeconds <= 0.0 then cooldowns == old(cooldowns) && readings == old(readings)
              else && readings == old(readings) + 1
                   && var expires := clock(old(readings)) + settings.cooldownSeconds;
                      cooldowns == old(cooldowns)[model := Cooldown(expires, fallback)]
    {
      if settings.cooldownSeconds <= 0.0 {
        return;
      }
      var expires := clock(readings) + settings.cooldownSeconds;
      readings := readings + 1;
      cooldowns := cooldowns[model := Cooldown(expires, fallback)];
    }

    /** The replacement while the cooldown lasts; an expired entry is dropped. */
    method GetModelCooldown(model: string) returns (active: Option<Fallback>)
      modifies this`cooldowns, this`readings
      ensures model !in old(cooldowns) ==> active == None && cooldowns == old(cooldowns) && readings == old(readings)
      ensures model in old(cooldowns) ==>
                && readings == old(readings) + 1
                && if clock(old(readings)) >= old(cooldowns)[model].expires
                   then active == None && cooldowns == old(cooldowns) - {model}
                   else active == Some(old(cooldowns)[model].fallback) && cooldowns == old(cooldowns)
    {
      if model !in cooldowns {
        return None;
      }
      var entry := cooldowns[model];
      var now := clock(readings);
      readings := readings + 1;
      if now >= entry.expires {
        cooldowns := cooldowns - {model};
        return None;
      }
      return Some(entry.fallback);
    }

    method ClearModelCooldown(model: string) returns (found: bool)
      modifies this`cooldowns
      ensures found <==> model in old(cooldowns)
      ensures cooldowns == old(cooldowns) - {model}
      ensures SoundCooldowns(old(cooldowns)) ==> SoundCooldowns(cooldowns)
    {
      found := model in cooldowns;
      cooldowns := cooldowns - {model};
    }

    /** One API attempt. */
    method Attempt(ghost target: Fallback, ghost mode: Mode) returns (o: Outcome<R>)
      modifies this`attempts, this`sent
      ensures attempts == old(attempts) + 1 && o == outcomes(old(attempts)) && sent == old(sent) + [Sent(target, mode)]
    {
      sent := sent + [Sent(target, mode)];
      o := outcomes(attempts);
      attempts := attempts + 1;
    }

    method RetrySingleModel(target: Fallback, req: Request) returns (r: Result<R>, ghost slept: seq<real>)
      modifies this`attempts, this`waits, this`sent
      ensures r == ResultAt(settings, outcomes, old(attempts), req)
      ensures attempts == old(attempts) + Used(settings, outcomes, old(attempts), req)
      ensures sent == old(sent) + SentTo(settings, outcomes, old(attempts), req, target)
      ensures waits == old(waits) + slept && WaitsAllowed(settings, outcomes, old(attempts), req.hasTools, slept)
      ensures req.maxRetries >= 0 ==>
                |slept| == Retries(settings, outcomes, old(attempts), req.hasTools, req.maxRetries)
    {
      slept := [];
      if req.maxRetries < 0 {
        return NoResult, [];
      }
      NoWaits(settings, outcomes, attempts, req.hasTools);
      hide Classify, WaitAllowed, Retries, Used, ResultAt, WaitsAllowed, SentTo;
      ghost var n := attempts;
      var attempt: nat := 0;
      while attempt < req.maxRetries + 1
        invariant attempts == n + attempt && attempt <= req.maxRetries
        invariant waits == old(waits) + slept && |slept| == attempt
        invariant WaitsAllowed(settings, outcomes, n, req.hasTools, slept)
        invariant sent == old(sent) + seq(attempt, i => Sent(target, Full))
      {
        var o := Attempt(target, Full);
        assert sent == old(sent) + seq(attempt + 1, i => Sent(target, Full));
        var cl := if o.Fault? then Classify(settings, o.error, req.hasTools) else Propagate;
        if !cl.Retry? || attempt >= req.maxRetries {
          r := Conclude(target, req, attempt, o, cl, n, slept, old(sent));
          return;
        }
        var wait := WaitFor(cl, attempt);
        WaitAdded(settings, outcomes, n, req.hasTools, slept, wait);
        waits := waits + [wait];
        slept := slept + [wait];
        attempt := attempt + 1;
      }
      assert false;
      r := NoResult;
    }

    /** The last full attempt: its reply, an attempt without tools or images, or its error. */
    method Conclude(target: Fallback, req: Request, attempt: nat, o: Outcome<R>, cl: Class, ghost n: nat,
                    ghost slept: seq<real>, ghost before: seq<Sent>)
      returns (r: Result<R>)
      requires attempt <= req.maxRetries && |slept| == attempt && attempts == n + attempt + 1
      requires o == outcomes(n + attempt) && WaitsAllowed(settings, outcomes, n, req.hasTools, slept)
      requires cl == if o.Fault? then Classify(settings, o.error, req.hasTools) else Propagate
      requires !cl.Retry? || attempt == req.maxRetries
      requires sent == before + seq(attempt + 1, i => Sent(target, Full))
      modifies this`attempts, this`sent
      ensures r == ResultAt(settings, outcomes, n, req)
      ensures attempts == n + Used(settings, outcomes, n, req)
      ensures attempt == Retries(settings, outcomes, n, req.hasTools, req.maxRetries)
      ensures sent == before + SentTo(settings, outcomes, n, req, target)
    {
      WaitedRetryable(settings, outcomes, n, req.hasTools, slept);
      hide Classify, Retries, Used, ResultAt, WaitsAllowed;
      Stops(settings, outcomes, n, req, attempt);
      if o.Reply? {
        return Value(o.reply);
      }
      if cl.WithoutTools? || (cl.WithoutImages? && req.hasNoImagesCall) {
        var reduced := Attempt(target, if cl.WithoutTools? then NoTools else NoImages);
        match reduced
        case Reply(v) => return Value(v);
        case Fault(e) => return Raised(e);
      }
      return Raised(o.error);
    }

    /** The model `target` gets its attempts. */
    method Start(target: Fallback, req: Request) returns (r: Result<R>)
      modifies this`attempts, this`waits, this`starts, this`sent
      ensures starts == old(starts) + [target]
      ensures sent == old(sent) + SentTo(settings, outcomes, old(attempts), req, target)
      ensures r == ResultAt(settings, outcomes, old(attempts), req)
      ensures attempts == old(attempts) + Used(settings, outcomes, old(attempts), req)
    {
      starts := starts + [target];
      ghost var slept;
      r, slept := RetrySingleModel(target, req);
    }

    method LookUp(model: string) returns (active: Option<Fallback>)
      requires SoundCooldowns(cooldowns)
      modifies this`cooldowns, this`readings
      ensures SoundCooldowns(cooldowns)
      ensures active == ActiveCooldown(model, old(cooldowns), clock(old(readings)))
      ensures active.Some? ==> active.value.model != model && active.value.model != ""
      ensures cooldowns == AfterLookup(model, old(cooldowns), active) && readings >= old(readings)
      ensures TableStep(settings, LookedUp(model, clock(old(readings)), active), old(cooldowns), cooldowns)
    {
      active := GetModelCooldown(model);
    }

    method WaitFor(cl: Class, attempt: nat) returns (wait: real)
      requires cl.Retry?
      ensures WaitAllowed(cl, attempt, wait)
    {
      match cl.after
      case Some(seconds) => wait := Max(1.0, Min(120.0, seconds));
      case None => wait := ComputeBackoff(cl.baseWait, attempt, draws(|waits|));
    }

    /** The fallbacks in order, each once, until one settles the call. */
    method RunFallbacks(req: Request, primaryError: Error, cd: Option<Fallback>, ghost n: nat, ghost base: seq<Sent>)
      returns (r: Result<R>, ghost last: nat)
      requires TriggersFallback(primaryError) && ResultAt(settings, outcomes, n, req) == Raised(primaryError)
      requires attempts == StartIndex(settings, outcomes, n, req, 1)
      requires sent == base + SentUpTo(settings, outcomes, n, req, Plan(settings, req, cd), 1)
      requires SoundCooldowns(cooldowns) && lastFallback == None
      requires cd.Some? ==> cd.value.model != req.model && cd.value.model != ""
      modifies this
      ensures SoundCooldowns(cooldowns)
      ensures readings >= old(readings) && (Records(settings, last, r) ==> readings > old(readings))
      ensures var plan := Plan(settings, req, cd);
              && Settled(settings, outcomes, n, req, plan, last, r) && last < |plan|
              && starts == old(starts) + plan[1..last + 1]
              && Remembered(settings, req.model, plan, last, r, old(cooldowns), clock(Latest(readings)), cooldowns)
              && sent == base + SentUpTo(settings, outcomes, n, req, plan, last + 1)
      ensures attempts == StartIndex(settings, outcomes, n, req, last + 1)
      ensures lastFallback == Report(settings, req, cd, last, r, Raised(primaryError))
    {
      hide SoundCooldowns, ResultAt, Used, Classify, Plan, Names, StartIndex, FailedUpTo, Eligible, Remembered, Report;
      hide Settled, Distinct, SentTo, SentUpTo;
      var effective := req.fallbacks + settings.globalFallbacks;
      var tried := if cd.Some? then {req.model, cd.value.model} else {req.model};
      ghost var plan := Plan(settings, req, cd);
      PlanParts(settings, req, cd);
      PlanIsSound(settings, req, cd);
      FirstFailed(settings, outcomes, n, req);
      last := 0;
      var lastError := primaryError;
      r := Raised(primaryError);
      assert plan[1..1] == [];
      assert effective[0..] == effective;
      for i := 0 to |effective|
        invariant last < |plan| && plan[last + 1..] == Eligible(effective[i..], tried)
        invariant FailedUpTo(settings, outcomes, n, req, last + 1)
        invariant r == Raised(lastError) && TriggersFallback(lastError)
        invariant r == ResultAt(settings, outcomes, StartIndex(settings, outcomes, n, req, last), req)
        invariant attempts == StartIndex(settings, outcomes, n, req, last + 1)
        invariant starts == old(starts) + plan[1..last + 1]
        invariant sent == base + SentUpTo(settings, outcomes, n, req, plan, last + 1)
        invariant cooldowns == old(cooldowns) && readings == old(readings) && lastFallback == None
      {
        var fb := effective[i];
        NextEligible(effective, i, tried, plan, last);
        ghost var at := attempts;
        if fb.model == "" || fb.model in tried {
          continue;
        }
        tried := tried + {fb.model};
        r := Start(fb, req);
        last := last + 1;
        SentNext(settings, outcomes, n, req, plan, last);
        Regroup(base, SentUpTo(settings, outcomes, n, req, plan, last), SentTo(settings, outcomes, at, req, fb));
        Regroup(old(starts), plan[1..last], [fb]);
        NextStart(settings, outcomes, n, req, last);
        if !r.Raised? || !TriggersFallback(r.error) {
          NowSettled(settings, outcomes, n, req, plan, last, r);
          Record(req, fb, primaryError, cd, r, last);
          return;
        }
        lastError := r.error;
      }
      NoneEligible(tried);
      assert effective[|effective|..] == [];
      NowSettled(settings, outcomes, n, req, plan, last, r);
      NothingRemembered(settings, req.model, plan, last, r, cooldowns);
      ReportAfterFailure(settings, req, cd, last, r, primaryError);
    }

    /** A fallback settled the call. If it answered, it is reported, and remembered for the model. */
    method Record(req: Request, fb: Fallback, primaryError: Error, cd: Option<Fallback>, r: Result<R>, ghost last: nat)
      requires SoundCooldowns(cooldowns) && lastFallback == None && fb.model != req.model && fb.model != ""
      requires 0 < last < |Plan(settings, req, cd)| && fb == Plan(settings, req, cd)[last]
      requires cd.Some? ==> cd.value.model != fb.model
      modifies this`cooldowns, this`readings, this`lastFallback
      ensures SoundCooldowns(cooldowns)
      ensures Remembered(settings, req.model, Plan(settings, req, cd), last, r, old(cooldowns),
                         clock(Latest(readings)), cooldowns)
      ensures lastFallback == Report(settings, req, cd, last, r, Raised(primaryError))
      ensures readings >= old(readings) && (Records(settings, last, r) ==> readings > old(readings))
      ensures Records(settings, last, r) ==>
                TableStep(settings, Recorded(req.model, clock(Latest(readings)), fb, cd), old(cooldowns), cooldowns)
    {
      hide SoundCooldowns, Plan, Remembered, Report;
      ghost var plan := Plan(settings, req, cd);
      ReportAfterFailure(settings, req, cd, last, r, primaryError);
      if r.Raised? {
        NothingRemembered(settings, req.model, plan, last, r, cooldowns);
      } else {
        lastFallback := Some(FallbackInfo(req.model, fb.model, AfterError(primaryError)));
        SetModelCooldown(req.model, fb);
        NowRemembered(settings, req.model, plan, last, r, old(cooldowns), clock(Latest(readings)));
      }
    }

    /** Circuit breaker, then the primary model, then the fallbacks. `last` is the index in the plan
        of the start that settled the call. */
    method RunWithFallbackChain(req: Request) returns (r: Result<R>, ghost active: Option<Fallback>, ghost last: nat)
      requires SoundCooldowns(cooldowns)
      modifies this
      ensures SoundCooldowns(cooldowns)
      ensures active.Some? ==> active.value.model != req.model
      ensures CallStep(settings, clock, Call(req, active, last, r, old(readings), readings, old(cooldowns), cooldowns))
      ensures var plan := Plan(settings, req, active);
              && Settled(settings, outcomes, old(attempts), req, plan, last, r) && last < |plan|
              && starts == old(starts) + plan[..last + 1]
              && sent == old(sent) + SentUpTo(settings, outcomes, old(attempts), req, plan, last + 1)
      ensures attempts == StartIndex(settings, outcomes, old(attempts), req, last + 1)
      ensures lastFallback == Report(settings, req, active, last, r, ResultAt(settings, outcomes, old(attempts), req))
    {
      ghost var n := attempts;
      hide SoundCooldowns, Classify, AfterLookup, ActiveCooldown, Eligible, Used, ResultAt, Plan, Settled, Remembered;
      hide Report, FailedUpTo, SentTo, SentUpTo;
      var cd := LookUp(req.model);
      active, last := cd, 0;
      lastFallback := None;
      var first := if cd.Some? then cd.value else Fallback(req.model, req.provider);
      ghost var plan := Plan(settings, req, active);
      PlanParts(settings, req, cd);
      assert plan[..1] == [first];
      r := Start(first, req);
      assert attempts == StartIndex(settings, outcomes, n, req, 1);
      SentFirst(settings, outcomes, n, req, plan);
      if r.Raised? && TriggersFallback(r.error) {
        r, last := RunFallbacks(req, r.error, cd, n, old(sent));
        assert plan[..last + 1] == plan[..1] + plan[1..last + 1];
        return;
      }
      ReportAtFirst(settings, req, active, r);
      NothingFailed(settings, outcomes, n, req);
      NowSettled(settings, outcomes, n, req, plan, 0, r);
      if cd.Some? && !r.Raised? {
        lastFallback := Some(FallbackInfo(req.model, cd.value.model, CooldownSkip));
      }
      NothingRemembered(settings, req.model, plan, 0, r, cooldowns);
    }
  }

  // ---------------------------------------------------------------- in plain terms

  /** Rate limits, timeouts, lost connections, empty answers, and server errors that may pass. */
  predicate Transient(e: Error) {
    e.RateLimit? || e.Timeout? || e.Connection? || e.EmptyChoices? || e == InternalServer(false)
  }

  /** The first `k` outcomes are such errors. */
  predicate TransientFor<R>(outcomes: nat -> Outcome<R>, n: nat, k: nat) {
    forall j :: n <= j < n + k ==> outcomes(j).Fault? && Transient(outcomes(j).error)
  }

  /** After `k` transient errors, with attempt `k` settled: what decides is the first other outcome, or
      the last one allowed. */
  lemma {:induction false} RetriesThen<R>(s: Settings, outcomes: nat -> Outcome<R>, n: nat, hasTools: bool,
                                          left: nat, k: nat)
    requires k <= left && TransientFor(outcomes, n, k)
    requires k == left || outcomes(n + k).Reply? || !Transient(outcomes(n + k).error)
    ensures Retries(s, outcomes, n, hasTools, left) == k
    decreases k
  {
    if k > 0 {
      assert outcomes(n).Fault? && Transient(outcomes(n).error);
      RetriesThen(s, outcomes, n + 1, hasTools, left - 1, k - 1);
    }
  }

  /** Up to the allowed number of transient errors and then a reply give the reply. */
  lemma ReplyAfterRetries<R>(s: Settings, outcomes: nat -> Outcome<R>, n: nat, req: Request, k: nat)
    requires k <= req.maxRetries && TransientFor(outcomes, n, k) && outcomes(n + k).Reply?
    ensures ResultAt(s, outcomes, n, req) == Value(outcomes(n + k).reply) && Used(s, outcomes, n, req) == k + 1
  {
    RetriesThen(s, outcomes, n, req.hasTools, req.maxRetries, k);
  }

  /** One transient error more than there are retries is raised. */
  lemma RetriesExhausted<R>(s: Settings, outcomes: nat -> Outcome<R>, n: nat, req: Request)
    requires req.maxRetries >= 0 && TransientFor(outcomes, n, req.maxRetries + 1)
    ensures ResultAt(s, outcomes, n, req) == Raised(outcomes(n + req.maxRetries).error)
    ensures Used(s, outcomes, n, req) == req.maxRetries + 1
  {
    RetriesThen(s, outcomes, n, req.hasTools, req.maxRetries, req.maxRetries);
    assert outcomes(n + req.maxRetries).Fault? && Transient(outcomes(n + req.maxRetries).error);
  }

  /** An unexpected error, a lasting server error, and a refusal that no reduced request can answer are
      raised at once. */
  lemma RaisedAtOnce<R>(s: Settings, outcomes: nat -> Outcome<R>, n: nat, req: Request, k: nat)
    requires k <= req.maxRetries && TransientFor(outcomes, n, k) && outcomes(n + k).Fault?
    requires match outcomes(n + k).error
             case Unexpected => true
             case InternalServer(lasting) => lasting
             case BadRequest(tools, vision) => !(tools && req.hasTools) && !(vision && req.hasNoImagesCall)
             case _ => false
    ensures ResultAt(s, outcomes, n, req) == Raised(outcomes(n + k).error) && Used(s, outcomes, n, req) == k + 1
  {
    RetriesThen(s, outcomes, n, req.hasTools, req.maxRetries, k);
  }

  /** When the model takes no tools, or else no images, one attempt without them follows and decides;
      its own error is raised as it is. */
  lemma ReducedDecides<R>(s: Settings, outcomes: nat -> Outcome<R>, n: nat, req: Request, target: Fallback, k: nat)
    requires k <= req.maxRetries && TransientFor(outcomes, n, k)
    requires outcomes(n + k).Fault? && outcomes(n + k).error.BadRequest?
    requires var e := outcomes(n + k).error;
             (e.toolsUnsupported && req.hasTools) || (e.visionUnsupported && req.hasNoImagesCall)
    ensures var e := outcomes(n + k).error;
            && Used(s, outcomes, n, req) == k + 2
            && ResultAt(s, outcomes, n, req)
               == (match outcomes(n + k + 1) case Reply(v) => Value(v) case Fault(f) => Raised(f))
            && SentTo(s, outcomes, n, req, target)
               == seq(k + 1, i => Sent(target, Full))
                  + [Sent(target, if e.toolsUnsupported && req.hasTools then NoTools else NoImages)]
  {
    RetriesThen(s, outcomes, n, req.hasTools, req.maxRetries, k);
  }

  /** Otherwise the whole request is sent each time. */
  lemma SentWhole<R>(s: Settings, outcomes: nat -> Outcome<R>, n: nat, req: Request, target: Fallback, k: nat)
    requires k <= req.maxRetries && TransientFor(outcomes, n, k)
    requires k == req.maxRetries || outcomes(n + k).Reply? || !Transient(outcomes(n + k).error)
    requires outcomes(n + k).Reply? || !outcomes(n + k).error.BadRequest?
    ensures SentTo(s, outcomes, n, req, target) == seq(k + 1, i => Sent(target, Full))
  {
    RetriesThen(s, outcomes, n, req.hasTools, req.maxRetries, k);
  }

  /** The waits: as long as the upstream says, between one second and two minutes, and else by backoff
      from the rate-limit wait or from the general one, never under half of it and never over five
      minutes or the doubled wait, whichever is less, unless half the wait is more. */
  lemma WaitsInPlainTerms<R>(s: Settings, outcomes: nat -> Outcome<R>, n: nat, hasTools: bool, slept: seq<real>, j: nat)
    requires WaitsAllowed(s, outcomes, n, hasTools, slept) && j < |slept|
    ensures outcomes(n + j).Fault? && Transient(outcomes(n + j).error)
    ensures match outcomes(n + j).error
            case RateLimit(Some(seconds)) =>
              slept[j] == if seconds <= 1.0 then 1.0 else if seconds >= 120.0 then 120.0 else seconds
            case error =>
              var base := if error.RateLimit? then s.rateLimitWait else s.retryWait;
              && base * 0.5 <= slept[j]
              && slept[j] <= Max(base * 0.5, Max(0.0, Min(300.0, Doubled(base, j))))
  {
    hide Doubled;
    assert RetryableAt(s, outcomes, n + j, hasTools);
    assert WaitAllowed(Classify(s, outcomes(n + j).error, hasTools), n + j - n, slept[n + j - n]);
  }

  /** The base doubles with every attempt. */
  lemma DoubledInPlainTerms(base: real, n: nat)
    ensures Doubled(base, 0) == base && Doubled(base, n + 1) == Doubled(base, n) + Doubled(base, n)
  {}

  /** A call that raises has met an unexpected error, or has started every model of its plan. */
  lemma RaisedMeansExhausted<R>(s: Settings, outcomes: nat -> Outcome<R>, n: nat, req: Request, plan: seq<Fallback>,
                                last: nat, r: Result<R>)
    requires Settled(s, outcomes, n, req, plan, last, r) && r.Raised?
    ensures r.error == Unexpected || last == |plan| - 1
  {
    hide ResultAt, StartIndex;
  }

  /** The first start that replies settles the call, when those before it failed for a rate limit, a
      timeout, a lost connection, an empty answer, a server error or a refused request. */
  lemma FirstReplyWins<R>(s: Settings, outcomes: nat -> Outcome<R>, n: nat, req: Request, plan: seq<Fallback>,
                          last: nat, r: Result<R>, k: nat)
    requires Settled(s, outcomes, n, req, plan, last, r) && k < |plan|
    requires ResultAt(s, outcomes, StartIndex(s, outcomes, n, req, k), req).Value?
    requires forall j :: 0 <= j < k ==>
               var f := ResultAt(s, outcomes, StartIndex(s, outcomes, n, req, j), req);
               f.Raised? && match f.error
                            case RateLimit(_) => true
                            case Timeout => true
                            case Connection => true
                            case EmptyChoices => true
                            case InternalServer(_) => true
                            case BadRequest(_, _) => true
                            case Unexpected => false
    ensures last == k && r == ResultAt(s, outcomes, StartIndex(s, outcomes, n, req, k), req)
  {
    hide ResultAt, StartIndex;
  }

  /** An entry that is tried: it names a model that is not tried before it. */
  predicate TriedAt(fallbacks: seq<Fallback>, i: nat, tried: set<string>) {
    && i < |fallbacks| && fallbacks[i].model != "" && fallbacks[i].model !in tried
    && forall j :: 0 <= j < i ==> fallbacks[j].model != fallbacks[i].model
  }

  /** The positions of these entries, in order. */
  function Positions(fallbacks: seq<Fallback>, tried: set<string>, i: nat): (ps: seq<nat>)
    requires i <= |fallbacks|
    ensures forall p :: p in ps <==> i <= p < |fallbacks| && TriedAt(fallbacks, p, tried)
    ensures forall a :: 0 <= a < |ps| ==> i <= ps[a] < |fallbacks|
    ensures forall a, b :: 0 <= a < b < |ps| ==> ps[a] < ps[b]
    decreases |fallbacks| - i
  {
    if i == |fallbacks| then []
    else (if TriedAt(fallbacks, i, tried) then [i] else []) + Positions(fallbacks, tried, i + 1)
  }

  function Picked(fallbacks: seq<Fallback>, ps: seq<nat>): (picked: seq<Fallback>)
    requires forall a :: 0 <= a < |ps| ==> ps[a] < |fallbacks|
    ensures |picked| == |ps| && forall a :: 0 <= a < |ps| ==> picked[a] == fallbacks[ps[a]]
  {
    seq(|ps|, a requires 0 <= a < |ps| => fallbacks[ps[a]])
  }

  /** The models named before position `i`. */
  function NamedBefore(fallbacks: seq<Fallback>, i: nat): (names: set<string>)
    requires i <= |fallbacks|
    ensures forall name :: name in names <==> name != "" && exists j :: 0 <= j < i && fallbacks[j].model == name
  {
    if i == 0 then {}
    else NamedBefore(fallbacks, i - 1) + (if fallbacks[i - 1].model == "" then {} else {fallbacks[i - 1].model})
  }

  lemma {:induction false} EligibleFrom(fallbacks: seq<Fallback>, tried: set<string>, i: nat)
    requires i <= |fallbacks|
    ensures Eligible(fallbacks[i..], tried + NamedBefore(fallbacks, i))
         == Picked(fallbacks, Positions(fallbacks, tried, i))
    decreases |fallbacks| - i
  {
    if i < |fallbacks| {
      EligibleFrom(fallbacks, tried, i + 1);
      EligibleStep(fallbacks, tried, i);
      PickedStep(fallbacks, tried, i);
      hide Eligible, Picked, Positions, TriedAt, NamedBefore;
    }
  }

  lemma EligibleStep(fallbacks: seq<Fallback>, tried: set<string>, i: nat)
    requires i < |fallbacks|
    ensures Eligible(fallbacks[i..], tried + NamedBefore(fallbacks, i))
         == (if TriedAt(fallbacks, i, tried) then [fallbacks[i]] else [])
            + Eligible(fallbacks[i + 1..], tried + NamedBefore(fallbacks, i + 1))
  {
    var before, name := tried + NamedBefore(fallbacks, i), fallbacks[i].model;
    assert fallbacks[i..][1..] == fallbacks[i + 1..];
    assert TriedAt(fallbacks, i, tried) <==> name != "" && name !in before;
    assert tried + NamedBefore(fallbacks, i + 1) == before + (if name == "" then {} else {name});
    if name in before { assert before + {name} == before; }
    assert before + {} == before;
  }

  lemma PickedStep(fallbacks: seq<Fallback>, tried: set<string>, i: nat)
    requires i < |fallbacks|
    ensures Picked(fallbacks, Positions(fallbacks, tried, i))
         == (if TriedAt(fallbacks, i, tried) then [fallbacks[i]] else [])
            + Picked(fallbacks, Positions(fallbacks, tried, i + 1))
  {
    hide TriedAt;
  }

  /** The plan: the replacement in force or else the model asked for, then of the request's fallbacks
      and the global ones, in their order, each that names a model not named before. */
  lemma PlanInPlainTerms(s: Settings, req: Request, active: Option<Fallback>)
    ensures var first := if active.Some? then active.value else Fallback(req.model, req.provider);
            var all := req.fallbacks + s.globalFallbacks;
            Plan(s, req, active) == [first] + Picked(all, Positions(all, {req.model, first.model}, 0))
  {
    var first := if active.Some? then active.value else Fallback(req.model, req.provider);
    var all := req.fallbacks + s.globalFallbacks;
    var tried := {req.model, first.model};
    EligibleFrom(all, tried, 0);
    hide Eligible, Picked, Positions;
    assert all[0..] == all && NamedBefore(all, 0) == {} && tried + {} == tried;
    if active.None? { assert tried == {req.model}; }
  }
}
