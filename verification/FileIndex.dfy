/** Incremental directory index: concurrent per-file jobs, then removal of stale rows. */
module FileIndex {
  import opened Text
  import opened Wrappers

  /** `bot` and `client` are absent for the cross-bot and cross-client index. */
  datatype Scope = Scope(root: string, bot: Option<string>, client: Option<string>)

  datatype Key = Key(scope: Scope, file: string)

  datatype Chunk = Chunk(content: string, language: Option<string>, symbol: Option<string>, startLine: int,
                         endLine: int)

  /** What the models contribute to one row. */
  datatype Detail = Detail(description: Option<string>, embedding: seq<real>)

  /** One stored chunk. Legacy rows have no model or no version. */
  datatype Row = Row(hash: string, model: Option<string>, version: Option<string>, index: nat, chunk: Chunk,
                     detail: Detail)

  /** The rows of each file of each scope, in the order of their ids. */
  type Db = m: map<Key, seq<Row>> | forall k :: k in m ==> m[k] != [] witness map[]

  /** Everything deterministic outside: hash of the content, the chunker of a version, and the
      models' contribution to the `i`-th row. */
  datatype World = World(
    hash: string -> string,
    chunk: (string, string, string) -> seq<Chunk>,
    detail: (string, string, string, string, nat) -> Detail)
  {
    function Chunks(version: string, file: string, content: string): seq<Chunk> { chunk(version, file, content) }

    /** The rows a file gets, for an embedding model recorded as `model`. */
    function Rows(version: string, file: string, content: string, model: string, recorded: Option<string>): seq<Row> {
      var chunks := Chunks(version, file, content);
      seq(|chunks|, i requires 0 <= i < |chunks| =>
        Row(hash(content), recorded, Some(version), i, chunks[i], detail(version, file, content, model, i)))
    }

    ghost predicate Injective() { forall a, b :: hash(a) == hash(b) ==> a == b }
  }

  datatype Segment = Segment(pathPrefix: string, model: string)

  /** `full`: no explicit file list and no suppressed cleanup. */
  datatype Config = Config(scope: Scope, version: string, baseModel: string, segments: seq<Segment>,
                           candidates: seq<string>, full: bool, permits: nat)

  /** Where a job goes wrong, if anywhere. */
  datatype Fault = NoFault | Crashes | ReadFails | EmbedFails | NoEmbeddings | WrongDimensions | InsertFails

  // ---------------------------------------------------------------- segments

  predicate InSegment(file: string, seg: Segment) {
    var p := seg.pathPrefix;
    file == p || StartsWith(file, if p != "" && p[|p| - 1] == '/' then p else p + "/")
  }

  /** The segment with the longest matching prefix; of several, the first. */
  ghost predicate MostSpecific(file: string, segments: seq<Segment>, best: Option<Segment>) {
    match best
    case None => forall seg :: seg in segments ==> !InSegment(file, seg)
    case Some(b) => exists i: nat :: BestAt(file, segments, b, i)
  }

  predicate BestAt(file: string, segments: seq<Segment>, b: Segment, i: nat) {
    && i < |segments| && segments[i] == b && InSegment(file, b)
    && (forall j :: 0 <= j < |segments| && InSegment(file, segments[j]) ==> |segments[j].pathPrefix| <= |b.pathPrefix|)
    && (forall j :: 0 <= j < i && InSegment(file, segments[j]) ==> |segments[j].pathPrefix| < |b.pathPrefix|)
  }

  function BestSegment(file: string, segments: seq<Segment>): Option<Segment> {
    if segments == [] then None
    else
      var last, before := segments[|segments| - 1], BestSegment(file, segments[..|segments| - 1]);
      if InSegment(file, last) && (before.None? || |last.pathPrefix| > |before.value.pathPrefix|)
        then Some(last) else before
  }

  method MatchSegment(file: string, segments: seq<Segment>) returns (best: Option<Segment>)
    ensures best == BestSegment(file, segments)
    ensures MostSpecific(file, segments, best)
  {
    best := None;
    var bestLen := -1;
    for i := 0 to |segments|
      invariant best == BestSegment(file, segments[..i])
      invariant bestLen == if best.Some? then |best.value.pathPrefix| else -1
    {
      assert segments[..i + 1][..i] == segments[..i];
      var seg := segments[i];
      if InSegment(file, seg) {
        if |seg.pathPrefix| > bestLen {
          best := Some(seg);
          bestLen := |seg.pathPrefix|;
        }
      }
    }
    assert segments[..|segments|] == segments;
    BestIsMostSpecific(file, segments);
  }

  lemma {:induction false} BestIsMostSpecific(file: string, segments: seq<Segment>)
    ensures MostSpecific(file, segments, BestSegment(file, segments))
  {
    hide InSegment;
    if segments != [] {
      var n := |segments| - 1;
      var before := segments[..n];
      BestIsMostSpecific(file, before);
      var b := BestSegment(file, before);
      var r := BestSegment(file, segments);
      if InSegment(file, segments[n]) && (b.None? || |segments[n].pathPrefix| > |b.value.pathPrefix|) {
        assert BestAt(file, segments, r.value, n);
      } else if b.Some? {
        var i: nat :| BestAt(file, before, b.value, i);
        assert BestAt(file, segments, b.value, i);
      }
    }
  }

  function ModelFor(cfg: Config, file: string): string {
    match BestSegment(file, cfg.segments)
    case Some(seg) => seg.model
    case None => cfg.baseModel
  }

  // ---------------------------------------------------------------- one file

  /** The stored rows already belong to this content, model and version; a row without a model
      counts as one of the base model. */
  predicate Unchanged(w: World, cfg: Config, before: Db, file: string, content: string) {
    var key := Key(cfg.scope, file);
    && key in before
    && var first := before[key][0];
       && first.hash == w.hash(content)
       && (first.model == Some(ModelFor(cfg, file)) || (first.model == None && ModelFor(cfg, file) == cfg.baseModel))
       && first.version == Some(cfg.version)
  }

  datatype Verdict = Indexed | Skipped | Failed

  /** What becomes of a file, whatever the other jobs do. */
  function Judge(w: World, cfg: Config, before: Db, file: string, content: string, fault: Fault): Verdict {
    if fault.Crashes? then Failed
    else if w.Chunks(cfg.version, file, content) == [] then Skipped
    else if fault.ReadFails? then Failed
    else if Unchanged(w, cfg, before, file, content) then Skipped
    else if fault.NoFault? then Indexed
    else Failed
  }

  function NewRows(w: World, cfg: Config, file: string, content: string): seq<Row> {
    w.Rows(cfg.version, file, content, ModelFor(cfg, file), Some(ModelFor(cfg, file)))
  }

  datatype Job = Waiting | Prepared | Embedded(rows: seq<Row>) | Done(verdict: Verdict) {
    /** Holds a permit of the semaphore. */
    predicate Active() { Prepared? || Embedded? }

    function StepsLeft(): nat {
      match this case Waiting => 3 case Prepared => 2 case Embedded(_) => 1 case Done(_) => 0
    }
  }

  /** The next step of a job up to its next suspension point. */
  function Advance(w: World, cfg: Config, before: Db, file: string, content: string, fault: Fault, job: Job): Job {
    match job
    case Waiting =>
      if fault.Crashes? then Done(Failed)
      else if w.Chunks(cfg.version, file, content) == [] then Done(Skipped)
      else if fault.ReadFails? then Done(Failed)
      else if Unchanged(w, cfg, before, file, content) then Done(Skipped)
      else Prepared
    case Prepared =>
      if fault.EmbedFails? || fault.NoEmbeddings? || fault.WrongDimensions? then Done(Failed)
      else Embedded(NewRows(w, cfg, file, content))
    case Embedded(_) => if fault.InsertFails? then Done(Failed) else Done(Indexed)
    case Done(_) => job
  }

  /** Where a job can be, given where it will end. */
  predicate OnCourse(w: World, cfg: Config, before: Db, file: string, content: string, fault: Fault, job: Job) {
    var verdict := Judge(w, cfg, before, file, content, fault);
    var rows := NewRows(w, cfg, file, content);
    match job
    case Waiting => true
    case Prepared => rows != [] && !fault.Crashes? && !fault.ReadFails? && !Unchanged(w, cfg, before, file, content)
    case Embedded(r) => r == rows && rows != [] && (verdict == Indexed || (verdict == Failed && fault.InsertFails?))
    case Done(v) => v == verdict
  }

  lemma AdvanceOnCourse(w: World, cfg: Config, before: Db, file: string, content: string, fault: Fault, job: Job)
    requires OnCourse(w, cfg, before, file, content, fault, job) && !job.Done?
    ensures var next := Advance(w, cfg, before, file, content, fault, job);
            && OnCourse(w, cfg, before, file, content, fault, next)
            && next.StepsLeft() < job.StepsLeft()
            && (next == Done(Indexed) ==>
                  job == Embedded(NewRows(w, cfg, file, content)) && NewRows(w, cfg, file, content) != [])
  {
    hide Unchanged, ModelFor;
    assert |NewRows(w, cfg, file, content)| == |w.Chunks(cfg.version, file, content)|;
  }

  // ---------------------------------------------------------------- all files

  /** Some job for the file ends with its rows written. */
  predicate Written(w: World, cfg: Config, before: Db, disk: string -> string, faults: nat -> Fault, file: string) {
    exists i :: 0 <= i < |cfg.candidates| && cfg.candidates[i] == file
                && Judge(w, cfg, before, file, disk(file), faults(i)) == Indexed
  }

  /** Memory files are left alone by a run over segments. */
  predicate MemoryFile(scope: Scope, file: string) {
    || StartsWith(file, "memory/")
    || (scope.bot.Some? && scope.bot.value != "" && StartsWith(file, "bots/" + scope.bot.value + "/memory/"))
  }

  /** Indexed before, no candidate now. */
  predicate Stale(cfg: Config, before: Db, file: string) {
    && Key(cfg.scope, file) in before && file !in cfg.candidates
    && !(cfg.segments != [] && MemoryFile(cfg.scope, file))
  }

  /** What an index run makes of the database: each key on its own, whatever the order of the jobs. */
  ghost predicate IndexRun(w: World, cfg: Config, disk: string -> string, faults: nat -> Fault, before: Db, after: Db) {
    forall key: Key ::
      if key.scope == cfg.scope && Written(w, cfg, before, disk, faults, key.file) then
        key in after && after[key] == NewRows(w, cfg, key.file, disk(key.file))
      else if cfg.full && key.scope == cfg.scope && Stale(cfg, before, key.file) then key !in after
      else (key in after <==> key in before) && (key in after ==> after[key] == before[key])
  }

  datatype Stats = Stats(indexed: nat, skipped: nat, removed: nat, errors: nat)

  function Total(jobs: seq<Job>, weight: Job -> nat): nat {
    if jobs == [] then 0 else weight(jobs[0]) + Total(jobs[1..], weight)
  }

  lemma {:induction false} TotalUpdate(jobs: seq<Job>, weight: Job -> nat, i: nat, job: Job)
    requires i < |jobs|
    ensures Total(jobs[i := job], weight) == Total(jobs, weight) - weight(jobs[i]) + weight(job)
    decreases i
  {
    var updated := jobs[i := job];
    if i > 0 {
      assert updated[1..] == jobs[1..][i - 1 := job];
      TotalUpdate(jobs[1..], weight, i - 1, job);
    } else {
      assert updated[1..] == jobs[1..];
    }
  }

  lemma {:induction false} TotalZero(jobs: seq<Job>, weight: Job -> nat, i: nat)
    requires i < |jobs|
    ensures Total(jobs, weight) >= weight(jobs[i])
    decreases i
  {
    if i > 0 { TotalZero(jobs[1..], weight, i - 1); }
  }

  lemma {:induction false} TotalOfNone(jobs: seq<Job>, weight: Job -> nat)
    requires forall i :: 0 <= i < |jobs| ==> weight(jobs[i]) == 0
    ensures Total(jobs, weight) == 0
  {
    if jobs != [] { TotalOfNone(jobs[1..], weight); }
  }

  const ACTIVE: Job -> nat := (j: Job) => if j.Active() then 1 else 0
  const LEFT: Job -> nat := (j: Job) => j.StepsLeft()

  function Running(jobs: seq<Job>): nat { Total(jobs, ACTIVE) }

  /** The job can take a step now: it holds a permit, or one is free. */
  predicate Enabled(jobs: seq<Job>, permits: nat, i: nat) {
    i < |jobs| && !jobs[i].Done? && (jobs[i].Waiting? ==> Running(jobs) < permits)
  }

  /** No deadlock: as long as a job is not done, some job can take a step. */
  lemma SomeEnabled(jobs: seq<Job>, permits: nat, k: nat)
    requires permits >= 1 && k < |jobs| && !jobs[k].Done?
    ensures exists i: nat :: Enabled(jobs, permits, i)
  {
    if i :| 0 <= i < |jobs| && jobs[i].Active() {
      assert Enabled(jobs, permits, i);
    } else {
      TotalOfNone(jobs, ACTIVE);
      assert Enabled(jobs, permits, k);
    }
  }

  /** A permit is taken by a job that starts waiting for a model and given back by one that ends. */
  lemma StepKeepsPermits(jobs: seq<Job>, permits: nat, i: nat, next: Job)
    requires Enabled(jobs, permits, i) && Running(jobs) <= permits && next.StepsLeft() < jobs[i].StepsLeft()
    ensures Running(jobs[i := next]) <= permits
    ensures Total(jobs[i := next], LEFT) < Total(jobs, LEFT)
  {
    TotalUpdate(jobs, ACTIVE, i, next);
    TotalUpdate(jobs, LEFT, i, next);
    TotalZero(jobs, ACTIVE, i);
  }

  /** Some finished job has written the file's rows. */
  predicate HasWritten(cfg: Config, jobs: seq<Job>, file: string)
    requires |jobs| == |cfg.candidates|
  {
    exists i :: 0 <= i < |jobs| && jobs[i] == Done(Indexed) && cfg.candidates[i] == file
  }

  /** The database while the jobs are under way. */
  ghost predicate Midway(w: World, cfg: Config, disk: string -> string, before: Db, jobs: seq<Job>, db: Db)
    requires |jobs| == |cfg.candidates|
  {
    forall key: Key ::
      if key.scope == cfg.scope && HasWritten(cfg, jobs, key.file) then
        key in db && db[key] == NewRows(w, cfg, key.file, disk(key.file))
      else (key in db <==> key in before) && (key in db ==> db[key] == before[key])
  }

  ghost predicate AllOnCourse(w: World, cfg: Config, disk: string -> string, faults: nat -> Fault, before: Db,
                              jobs: seq<Job>)
    requires |jobs| == |cfg.candidates|
  {
    forall i :: 0 <= i < |jobs| ==>
      OnCourse(w, cfg, before, cfg.candidates[i], disk(cfg.candidates[i]), faults(i), jobs[i])
  }

  lemma StepKeepsCourse(w: World, cfg: Config, disk: string -> string, faults: nat -> Fault, before: Db,
                        jobs: seq<Job>, i: nat)
    requires |jobs| == |cfg.candidates| && AllOnCourse(w, cfg, disk, faults, before, jobs)
    requires i < |jobs| && !jobs[i].Done?
    ensures var f := cfg.candidates[i];
            var next := Advance(w, cfg, before, f, disk(f), faults(i), jobs[i]);
            AllOnCourse(w, cfg, disk, faults, before, jobs[i := next]) && next.StepsLeft() < jobs[i].StepsLeft()
  {
    hide OnCourse, Advance;
    var f := cfg.candidates[i];
    AdvanceOnCourse(w, cfg, before, f, disk(f), faults(i), jobs[i]);
  }

  /** A job that does not end by writing changes nothing that counts. */
  lemma QuietStep(w: World, cfg: Config, disk: string -> string, before: Db, jobs: seq<Job>, db: Db, i: nat, next: Job)
    requires |jobs| == |cfg.candidates| && i < |jobs| && !jobs[i].Done? && next != Done(Indexed)
    requires Midway(w, cfg, disk, before, jobs, db)
    ensures Midway(w, cfg, disk, before, jobs[i := next], db)
  {
    hide NewRows;
    forall file ensures HasWritten(cfg, jobs[i := next], file) <==> HasWritten(cfg, jobs, file) {
      if HasWritten(cfg, jobs, file) {
        var j :| 0 <= j < |jobs| && jobs[j] == Done(Indexed) && cfg.candidates[j] == file;
        assert jobs[i := next][j] == Done(Indexed);
      }
    }
  }

  /** The commit of one job replaces the rows of its file. */
  lemma CommitStep(w: World, cfg: Config, disk: string -> string, before: Db, jobs: seq<Job>, db: Db, i: nat,
                   rows: seq<Row>)
    requires |jobs| == |cfg.candidates| && i < |jobs| && !jobs[i].Done?
    requires rows != [] && rows == NewRows(w, cfg, cfg.candidates[i], disk(cfg.candidates[i]))
    requires Midway(w, cfg, disk, before, jobs, db)
    ensures Midway(w, cfg, disk, before, jobs[i := Done(Indexed)], db[Key(cfg.scope, cfg.candidates[i]) := rows])
  {
    hide NewRows;
    var updated := jobs[i := Done(Indexed)];
    forall file ensures HasWritten(cfg, updated, file) <==> HasWritten(cfg, jobs, file) || file == cfg.candidates[i] {
      if HasWritten(cfg, jobs, file) {
        var j :| 0 <= j < |jobs| && jobs[j] == Done(Indexed) && cfg.candidates[j] == file;
        assert updated[j] == Done(Indexed);
      }
      assert updated[i] == Done(Indexed);
    }
  }

  /** With all jobs done, what was written is what the verdicts say. */
  lemma AllDone(w: World, cfg: Config, disk: string -> string, faults: nat -> Fault, before: Db, jobs: seq<Job>)
    requires |jobs| == |cfg.candidates| && AllOnCourse(w, cfg, disk, faults, before, jobs)
    requires forall i :: 0 <= i < |jobs| ==> jobs[i].Done?
    ensures forall file :: HasWritten(cfg, jobs, file) <==> Written(w, cfg, before, disk, faults, file)
  {
    hide Judge;
    forall i | 0 <= i < |jobs|
      ensures jobs[i] == Done(Judge(w, cfg, before, cfg.candidates[i], disk(cfg.candidates[i]), faults(i)))
    {
      assert OnCourse(w, cfg, before, cfg.candidates[i], disk(cfg.candidates[i]), faults(i), jobs[i]);
    }
    forall file ensures HasWritten(cfg, jobs, file) <==> Written(w, cfg, before, disk, faults, file) {
      if HasWritten(cfg, jobs, file) {
        var i :| 0 <= i < |jobs| && jobs[i] == Done(Indexed) && cfg.candidates[i] == file;
        assert cfg.candidates[i] == file && Judge(w, cfg, before, file, disk(file), faults(i)) == Indexed;
      }
      if Written(w, cfg, before, disk, faults, file) {
        var i :| 0 <= i < |cfg.candidates| && cfg.candidates[i] == file
          && Judge(w, cfg, before, file, disk(file), faults(i)) == Indexed;
        assert jobs[i] == Done(Indexed);
      }
    }
  }

  function CountVerdicts(w: World, cfg: Config, disk: string -> string, faults: nat -> Fault, before: Db, v: Verdict,
                         n: nat): nat
    requires n <= |cfg.candidates|
  {
    if n == 0 then 0
    else
      var f := cfg.candidates[n - 1];
      CountVerdicts(w, cfg, disk, faults, before, v, n - 1)
        + (if Judge(w, cfg, before, f, disk(f), faults(n - 1)) == v then 1 else 0)
  }

  lemma {:induction false} VerdictsAddUp(w: World, cfg: Config, disk: string -> string, faults: nat -> Fault,
                                         before: Db, n: nat)
    requires n <= |cfg.candidates|
    ensures CountVerdicts(w, cfg, disk, faults, before, Indexed, n)
              + CountVerdicts(w, cfg, disk, faults, before, Skipped, n)
            + CountVerdicts(w, cfg, disk, faults, before, Failed, n) == n
  {
    hide Judge;
    if n > 0 { VerdictsAddUp(w, cfg, disk, faults, before, n - 1); }
  }

  class Indexer {
    const w: World
    var db: Db
    var jobs: seq<Job>

    constructor (w: World, db: Db)
      ensures this.w == w && this.db == db
    {
      this.w, this.db, this.jobs := w, db, [];
    }

    ghost predicate Under(cfg: Config, disk: string -> string, faults: nat -> Fault, before: Db)
      reads this
    {
      && |jobs| == |cfg.candidates|
      && AllOnCourse(w, cfg, disk, faults, before, jobs)
      && Running(jobs) <= cfg.permits
      && Midway(w, cfg, disk, before, jobs, db)
    }

    /** One job runs up to its next suspension point. */
    method Step(cfg: Config, disk: string -> string, faults: nat -> Fault, before: Db, i: nat)
      requires Under(cfg, disk, faults, before) && Enabled(jobs, cfg.permits, i)
      modifies this
      ensures Under(cfg, disk, faults, before)
      ensures Total(jobs, LEFT) < Total(old(jobs), LEFT)
    {
      hide Judge, Advance, OnCourse, NewRows, Midway, AllOnCourse, Total;
      var file := cfg.candidates[i];
      var next := Advance(w, cfg, before, file, disk(file), faults(i), jobs[i]);
      CourseAt(w, cfg, disk, faults, before, jobs, i);
      AdvanceOnCourse(w, cfg, before, file, disk(file), faults(i), jobs[i]);
      StepKeepsCourse(w, cfg, disk, faults, before, jobs, i);
      StepKeepsPermits(jobs, cfg.permits, i, next);
      if next == Done(Indexed) {
        var rows := jobs[i].rows;
        CommitStep(w, cfg, disk, before, jobs, db, i, rows);
        db := db[Key(cfg.scope, file) := rows];
      } else {
        QuietStep(w, cfg, disk, before, jobs, db, i, next);
      }
      jobs := jobs[i := next];
    }

    /** The scheduler's choice where it can step, otherwise the first job that can. */
    method Pick(permits: nat, choice: nat) returns (i: nat)
      requires exists j: nat :: Enabled(jobs, permits, j)
      ensures Enabled(jobs, permits, i) && (Enabled(jobs, permits, choice) ==> i == choice)
    {
      if Enabled(jobs, permits, choice) {
        return choice;
      }
      i := 0;
      while !Enabled(jobs, permits, i)
        invariant i <= |jobs| && forall j: nat :: j < i ==> !Enabled(jobs, permits, j)
        decreases |jobs| - i
      {
        i := i + 1;
      }
    }

    /** All jobs, interleaved as the scheduler likes. */
    method RunJobs(cfg: Config, disk: string -> string, faults: nat -> Fault, schedule: nat -> nat)
      requires cfg.permits >= 1
      modifies this
      ensures Under(cfg, disk, faults, old(db)) && forall i :: 0 <= i < |jobs| ==> jobs[i].Done?
    {
      hide Judge, Advance, OnCourse, NewRows, Enabled;
      ghost var before := db;
      var snapshot := db;
      jobs := seq(|cfg.candidates|, i => Waiting);
      StartUnder(w, cfg, disk, faults, db, jobs);
      hide Midway, AllOnCourse;
      var tick := 0;
      while exists k :: 0 <= k < |jobs| && !jobs[k].Done?
        invariant Under(cfg, disk, faults, before) && snapshot == before
        decreases Total(jobs, LEFT)
      {
        ghost var k :| 0 <= k < |jobs| && !jobs[k].Done?;
        SomeEnabled(jobs, cfg.permits, k);
        var i := Pick(cfg.permits, schedule(tick));
        Step(cfg, disk, faults, snapshot, i);
        tick := tick + 1;
      }
    }

    /** An index run: all jobs under any schedule, then removal of the stale files. */
    method IndexDirectory(cfg: Config, disk: string -> string, faults: nat -> Fault, schedule: nat -> nat)
      returns (stats: Stats)
      requires cfg.permits >= 1
      modifies this
      ensures IndexRun(w, cfg, disk, faults, old(db), db)
      ensures stats.indexed == CountVerdicts(w, cfg, disk, faults, old(db), Indexed, |cfg.candidates|)
      ensures stats.skipped == CountVerdicts(w, cfg, disk, faults, old(db), Skipped, |cfg.candidates|)
      ensures stats.errors == CountVerdicts(w, cfg, disk, faults, old(db), Failed, |cfg.candidates|)
      ensures stats.indexed + stats.skipped + stats.errors == |cfg.candidates|
      ensures stats.removed == if cfg.full then |StaleFiles(cfg, old(db))| else 0
    {
      hide Judge, NewRows, OnCourse, IndexRun, Midway, AllOnCourse, Written, HasWritten, CountVerdicts;
      ghost var before := db;
      var stale := StaleFiles(cfg, db);
      RunJobs(cfg, disk, faults, schedule);
      AllDone(w, cfg, disk, faults, before, jobs);
      var indexed, skipped, errors := Tally(cfg, disk, faults, before);
      var removed := 0;
      CleanUp(w, cfg, disk, faults, before, jobs, db);
      if cfg.full {
        db := db - set f | f in stale :: Key(cfg.scope, f);
        removed := |stale|;
      }
      stats := Stats(indexed, skipped, removed, errors);
    }

    method Tally(cfg: Config, ghost disk: string -> string, ghost faults: nat -> Fault, ghost before: Db)
      returns (indexed: nat, skipped: nat, errors: nat)
      requires Under(cfg, disk, faults, before) && forall i :: 0 <= i < |jobs| ==> jobs[i].Done?
      ensures indexed == CountVerdicts(w, cfg, disk, faults, before, Indexed, |cfg.candidates|)
      ensures skipped == CountVerdicts(w, cfg, disk, faults, before, Skipped, |cfg.candidates|)
      ensures errors == CountVerdicts(w, cfg, disk, faults, before, Failed, |cfg.candidates|)
      ensures indexed + skipped + errors == |cfg.candidates|
    {
      hide Judge, NewRows, OnCourse, Midway, AllOnCourse;
      indexed, skipped, errors := 0, 0, 0;
      for i := 0 to |jobs|
        invariant indexed == CountVerdicts(w, cfg, disk, faults, before, Indexed, i)
        invariant skipped == CountVerdicts(w, cfg, disk, faults, before, Skipped, i)
        invariant errors == CountVerdicts(w, cfg, disk, faults, before, Failed, i)
      {
        CourseAt(w, cfg, disk, faults, before, jobs, i);
        VerdictOfDone(w, cfg, before, cfg.candidates[i], disk(cfg.candidates[i]), faults(i), jobs[i]);
        match jobs[i].verdict
        case Indexed => indexed := indexed + 1;
        case Skipped => skipped := skipped + 1;
        case Failed => errors := errors + 1;
      }
      VerdictsAddUp(w, cfg, disk, faults, before, |cfg.candidates|);
    }
  }

  function StaleFiles(cfg: Config, before: Db): set<string> {
    set k | k in before && k.scope == cfg.scope && Stale(cfg, before, k.file) :: k.file
  }

  lemma CourseAt(w: World, cfg: Config, disk: string -> string, faults: nat -> Fault, before: Db, jobs: seq<Job>,
                 i: nat)
    requires |jobs| == |cfg.candidates| && AllOnCourse(w, cfg, disk, faults, before, jobs) && i < |jobs|
    ensures OnCourse(w, cfg, before, cfg.candidates[i], disk(cfg.candidates[i]), faults(i), jobs[i])
  {}

  lemma VerdictOfDone(w: World, cfg: Config, before: Db, file: string, content: string, fault: Fault, job: Job)
    requires OnCourse(w, cfg, before, file, content, fault, job) && job.Done?
    ensures job.verdict == Judge(w, cfg, before, file, content, fault)
  {}

  lemma StartUnder(w: World, cfg: Config, disk: string -> string, faults: nat -> Fault, db: Db, jobs: seq<Job>)
    requires |jobs| == |cfg.candidates| && forall i :: 0 <= i < |jobs| ==> jobs[i] == Waiting
    ensures AllOnCourse(w, cfg, disk, faults, db, jobs) && Running(jobs) == 0 && Midway(w, cfg, disk, db, jobs, db)
  {
    hide Judge, NewRows;
    TotalOfNone(jobs, ACTIVE);
  }

  /** Removing the stale files completes the run. */
  lemma CleanUp(w: World, cfg: Config, disk: string -> string, faults: nat -> Fault, before: Db, jobs: seq<Job>, db: Db)
    requires |jobs| == |cfg.candidates| && Midway(w, cfg, disk, before, jobs, db)
    requires forall file :: HasWritten(cfg, jobs, file) <==> Written(w, cfg, before, disk, faults, file)
    ensures var after := if cfg.full then db - set f | f in StaleFiles(cfg, before) :: Key(cfg.scope, f) else db;
            IndexRun(w, cfg, disk, faults, before, after)
  {
    hide NewRows, HasWritten, Written, Stale, StaleFiles;
    var gone := set f | f in StaleFiles(cfg, before) :: Key(cfg.scope, f);
    forall key: Key
      ensures key in gone <==> key.scope == cfg.scope && Stale(cfg, before, key.file)
      ensures key.scope == cfg.scope && Written(w, cfg, before, disk, faults, key.file) ==>
                !Stale(cfg, before, key.file)
    {
      StaleIff(cfg, before, key);
      if Written(w, cfg, before, disk, faults, key.file) { WrittenIsNotStale(w, cfg, disk, faults, before, key.file); }
    }
  }

  lemma StaleIff(cfg: Config, before: Db, key: Key)
    ensures key in (set f | f in StaleFiles(cfg, before) :: Key(cfg.scope, f))
            <==> key.scope == cfg.scope && Stale(cfg, before, key.file)
  {
    if key.scope == cfg.scope && Stale(cfg, before, key.file) {
      assert key == Key(cfg.scope, key.file);
      assert key.file in StaleFiles(cfg, before);
    }
  }

  lemma WrittenIsNotStale(w: World, cfg: Config, disk: string -> string, faults: nat -> Fault, before: Db, file: string)
    requires Written(w, cfg, before, disk, faults, file)
    ensures !Stale(cfg, before, file)
  {}

  // ---------------------------------------------------------------- agreement with a rebuild

  /** One writing produced these rows: a full set for some content, by some version, for some model;
      `legacy` rows were written before models were recorded. */
  ghost predicate WrittenAs(w: World, file: string, rows: seq<Row>, legacy: bool, version: string, content: string,
                            model: string) {
    rows == w.Rows(version, file, content, model, if legacy then None else Some(model))
  }

  /** Every group of rows in the database comes from one writing. */
  ghost predicate Consistent(w: World, db: Db) {
    forall key :: key in db ==>
      exists version, content, model :: WrittenAs(w, key.file, db[key], false, version, content, model)
  }

  /** The same, legacy rows (of the base model) allowed. */
  ghost predicate ConsistentOrLegacy(w: World, cfg: Config, db: Db) {
    forall key :: key in db ==>
      || (exists version, content, model :: WrittenAs(w, key.file, db[key], false, version, content, model))
      || (exists version, content :: WrittenAs(w, key.file, db[key], true, version, content, cfg.baseModel))
  }

  /** What one writing leaves in the first row. */
  lemma FirstRow(w: World, file: string, rows: seq<Row>, legacy: bool, version: string, content: string, model: string)
    requires WrittenAs(w, file, rows, legacy, version, content, model) && rows != []
    ensures rows[0].hash == w.hash(content) && rows[0].version == Some(version)
    ensures rows[0].model == if legacy then None else Some(model)
  {}

  /** Whatever fails, an index run keeps the database consistent. */
  lemma RunKeepsConsistent(w: World, cfg: Config, disk: string -> string, faults: nat -> Fault, before: Db, after: Db)
    requires Consistent(w, before) && IndexRun(w, cfg, disk, faults, before, after)
    ensures Consistent(w, after)
  {
    hide Written, Stale, ModelFor, World.Rows;
    forall key | key in after
      ensures exists version, content, model :: WrittenAs(w, key.file, after[key], false, version, content, model)
    {
      if key.scope == cfg.scope && Written(w, cfg, before, disk, faults, key.file) {
        assert WrittenAs(w, key.file, after[key], false, cfg.version, disk(key.file), ModelFor(cfg, key.file));
      } else {
        assert key in before && after[key] == before[key];
      }
    }
  }

  /** Legacy rows that the base-model rule takes for current ones. */
  predicate LegacyMatch(w: World, cfg: Config, before: Db, file: string, content: string) {
    Unchanged(w, cfg, before, file, content) && before[Key(cfg.scope, file)][0].model == None
  }

  /** Rows found unchanged are the rows a rebuild would write, unless they are legacy rows. */
  lemma UnchangedIsCurrent(w: World, cfg: Config, before: Db, file: string, content: string)
    requires w.Injective() && ConsistentOrLegacy(w, cfg, before)
    requires Unchanged(w, cfg, before, file, content)
    ensures before[Key(cfg.scope, file)] == NewRows(w, cfg, file, content) <==>
              !LegacyMatch(w, cfg, before, file, content)
  {
    hide ModelFor, World.Rows;
    var key := Key(cfg.scope, file);
    var rows := before[key];
    if version, c, model :| WrittenAs(w, file, rows, false, version, c, model) {
      FirstRow(w, file, rows, false, version, c, model);
    } else {
      var version, c :| WrittenAs(w, file, rows, true, version, c, cfg.baseModel);
      FirstRow(w, file, rows, true, version, c, cfg.baseModel);
      if rows == NewRows(w, cfg, file, content) {
        FirstRow(w, file, rows, false, cfg.version, content, ModelFor(cfg, file));
      }
    }
  }

  ghost predicate NoFaults(cfg: Config, faults: nat -> Fault) {
    forall i :: 0 <= i < |cfg.candidates| ==> faults(i) == NoFault
  }

  /** What a rebuild from scratch stores for a candidate. */
  ghost predicate AsRebuilt(w: World, cfg: Config, db: Db, file: string, content: string) {
    var key := Key(cfg.scope, file);
    if w.Chunks(cfg.version, file, content) == [] then key !in db
    else key in db && db[key] == NewRows(w, cfg, file, content)
  }

  /** After a run without faults, a candidate is stored exactly as a rebuild would store it, unless
      it chunks to nothing but had rows before, or has legacy rows that count as current. */
  lemma CandidateAgreesExactly(w: World, cfg: Config, disk: string -> string, faults: nat -> Fault, before: Db,
                               after: Db, file: string)
    requires w.Injective() && ConsistentOrLegacy(w, cfg, before) && NoFaults(cfg, faults)
    requires IndexRun(w, cfg, disk, faults, before, after) && file in cfg.candidates
    ensures AsRebuilt(w, cfg, after, file, disk(file)) <==>
              if w.Chunks(cfg.version, file, disk(file)) == [] then Key(cfg.scope, file) !in before
              else !LegacyMatch(w, cfg, before, file, disk(file))
  {
    var content := disk(file);
    var i :| 0 <= i < |cfg.candidates| && cfg.candidates[i] == file;
    CandidateWritten(w, cfg, disk, faults, before, file);
    if Unchanged(w, cfg, before, file, content) { UnchangedIsCurrent(w, cfg, before, file, content); }
    hide Unchanged, NewRows, Written, World.Chunks;
    var key := Key(cfg.scope, file);
    assert !Stale(cfg, before, file);
    assert key.scope == cfg.scope && key.file == file;
  }

  // A world, a run and a file for the two exceptions: one chunk for a text, none for the empty one.
  const TINY := World(
    (s: string) => s,
    (v: string, f: string, c: string) => if c == "" then [] else [Chunk(c, None, None, 1, 1)],
    (v: string, f: string, c: string, m: string, i: nat) => Detail(None, []))
  const RUN := Config(Scope("/r", None, None), "v", "m", [], ["f"], true, 1)
  const FILE := Key(RUN.scope, "f")

  /** The rows of the file with content "x", as recorded under this model. */
  function TinyRows(recorded: Option<string>): (rows: seq<Row>)
    ensures rows != []
  {
    assert |TINY.Rows("v", "f", "x", "m", recorded)| == 1;
    TINY.Rows("v", "f", "x", "m", recorded)
  }

  lemma TinyIsConsistent(recorded: Option<string>)
    requires recorded == Some("m") || recorded == None
    ensures TINY.Injective() && ConsistentOrLegacy(TINY, RUN, map[FILE := TinyRows(recorded)])
  {
    assert WrittenAs(TINY, "f", TinyRows(recorded), recorded == None, "v", "x", "m");
  }

  /** A file that was emptied keeps its rows; a rebuild would store none. */
  lemma EmptiedFileKeepsRows(faults: nat -> Fault, after: Db)
    requires NoFaults(RUN, faults)
    requires IndexRun(TINY, RUN, (f: string) => "", faults, map[FILE := TinyRows(Some("m"))], after)
    ensures FILE in after && after[FILE] == TinyRows(Some("m")) && !AsRebuilt(TINY, RUN, after, "f", "")
  {
    var before: Db := map[FILE := TinyRows(Some("m"))];
    var disk := (f: string) => "";
    TinyIsConsistent(Some("m"));
    CandidateWritten(TINY, RUN, disk, faults, before, "f");
    hide TinyRows, Unchanged, NewRows, Written, NoFaults;
    assert !Stale(RUN, before, FILE.file);
  }

  /** Legacy rows of the base model count as current; a rebuild would record the model. */
  lemma LegacyRowsStay(faults: nat -> Fault, after: Db)
    requires NoFaults(RUN, faults)
    requires IndexRun(TINY, RUN, (f: string) => "x", faults, map[FILE := TinyRows(None)], after)
    ensures FILE in after && after[FILE] == TinyRows(None) && !AsRebuilt(TINY, RUN, after, "f", "x")
  {
    var before: Db := map[FILE := TinyRows(None)];
    var disk := (f: string) => "x";
    TinyIsConsistent(None);
    assert LegacyMatch(TINY, RUN, before, "f", "x");
    CandidateAgreesExactly(TINY, RUN, disk, faults, before, after, "f");
    CandidateWritten(TINY, RUN, disk, faults, before, "f");
    assert TINY.Chunks("v", "f", "x") != [];
    hide TinyRows, NewRows, Written, NoFaults;
    assert !Stale(RUN, before, FILE.file);
  }

  /** Without faults a candidate is written unless it has no chunks or is unchanged. */
  lemma CandidateWritten(w: World, cfg: Config, disk: string -> string, faults: nat -> Fault, before: Db, file: string)
    requires NoFaults(cfg, faults) && file in cfg.candidates
    ensures Written(w, cfg, before, disk, faults, file) <==>
              w.Chunks(cfg.version, file, disk(file)) != [] && !Unchanged(w, cfg, before, file, disk(file))
  {
    hide Unchanged, World.Chunks;
    var i :| 0 <= i < |cfg.candidates| && cfg.candidates[i] == file;
    assert faults(i) == NoFault;
  }

  lemma ConsistentIsNotLegacy(w: World, cfg: Config, db: Db)
    requires Consistent(w, db)
    ensures ConsistentOrLegacy(w, cfg, db)
    ensures forall file, content :: !LegacyMatch(w, cfg, db, file, content)
  {
    hide World.Rows, ModelFor;
    forall file, content ensures !LegacyMatch(w, cfg, db, file, content) {
      var key := Key(cfg.scope, file);
      if key in db {
        var version, c, model :| WrittenAs(w, key.file, db[key], false, version, c, model);
        FirstRow(w, file, db[key], false, version, c, model);
      }
    }
  }

  /** A full run without segments and without faults, from a consistent database, under any schedule:
      every candidate with chunks has exactly the rows of a rebuild, files that are no candidates have
      none, and other scopes are untouched. */
  lemma FullRunRebuilds(w: World, cfg: Config, disk: string -> string, faults: nat -> Fault, before: Db, after: Db)
    requires w.Injective() && Consistent(w, before) && NoFaults(cfg, faults) && cfg.full && cfg.segments == []
    requires IndexRun(w, cfg, disk, faults, before, after)
    ensures forall file :: file in cfg.candidates && w.Chunks(cfg.version, file, disk(file)) != [] ==>
              Key(cfg.scope, file) in after && after[Key(cfg.scope, file)] == NewRows(w, cfg, file, disk(file))
    ensures forall file :: file !in cfg.candidates ==> Key(cfg.scope, file) !in after
    ensures forall key: Key :: key.scope != cfg.scope ==>
              (key in after <==> key in before) && (key in after ==> after[key] == before[key])
  {
    hide NewRows, World.Chunks, LegacyMatch, Judge;
    ConsistentIsNotLegacy(w, cfg, before);
    forall file | file in cfg.candidates && w.Chunks(cfg.version, file, disk(file)) != []
      ensures Key(cfg.scope, file) in after && after[Key(cfg.scope, file)] == NewRows(w, cfg, file, disk(file))
    {
      CandidateAgreesExactly(w, cfg, disk, faults, before, after, file);
    }
    forall file | file !in cfg.candidates ensures Key(cfg.scope, file) !in after {
      var key := Key(cfg.scope, file);
      assert key.scope == cfg.scope && key.file == file;
      assert !Written(w, cfg, before, disk, faults, file);
    }
  }

  /** Running again over the same disk changes nothing. */
  lemma SecondRunIsIdle(w: World, cfg: Config, disk: string -> string, faults: nat -> Fault, again: nat -> Fault,
                        before: Db, after: Db, twice: Db)
    requires w.Injective() && Consistent(w, before) && NoFaults(cfg, faults) && cfg.full && cfg.segments == []
    requires IndexRun(w, cfg, disk, faults, before, after) && IndexRun(w, cfg, disk, again, after, twice)
    ensures twice == after
  {
    FullRunRebuilds(w, cfg, disk, faults, before, after);
    forall key: Key ensures (key in twice <==> key in after) && (key in after ==> twice[key] == after[key]) {
      RerunWritesNothing(w, cfg, disk, again, after, key.file);
      if key.scope == cfg.scope {
        assert key == Key(cfg.scope, key.file);
        assert !Stale(cfg, after, key.file);
      }
    }
  }

  lemma RerunWritesNothing(w: World, cfg: Config, disk: string -> string, again: nat -> Fault, after: Db, file: string)
    requires w.Chunks(cfg.version, file, disk(file)) != [] && file in cfg.candidates ==>
               Key(cfg.scope, file) in after && after[Key(cfg.scope, file)] == NewRows(w, cfg, file, disk(file))
    ensures !Written(w, cfg, after, disk, again, file)
  {
    hide ModelFor;
    if file in cfg.candidates && w.Chunks(cfg.version, file, disk(file)) != [] {
      FirstRow(w, file, NewRows(w, cfg, file, disk(file)), false, cfg.version, disk(file), ModelFor(cfg, file));
      assert Unchanged(w, cfg, after, file, disk(file));
    }
  }

  // ---------------------------------------------------------------- in plain terms

  /** The model of the most specific segment, or else the base model. */
  lemma ModelInPlainTerms(cfg: Config, file: string)
    ensures var best := BestSegment(file, cfg.segments);
            && MostSpecific(file, cfg.segments, best)
            && ModelFor(cfg, file) == if best.Some? then best.value.model else cfg.baseModel
  {
    BestIsMostSpecific(file, cfg.segments);
  }

  /** A segment holds the file of its own path and all files below it, and nothing else; a path that
      ends in a slash needs no further one. */
  lemma SegmentInPlainTerms(file: string, seg: Segment)
    ensures InSegment(file, seg) <==>
              || file == seg.pathPrefix
              || (exists rest :: file == seg.pathPrefix + "/" + rest)
              || (seg.pathPrefix != "" && seg.pathPrefix[|seg.pathPrefix| - 1] == '/' && seg.pathPrefix <= file)
  {
    var p := seg.pathPrefix;
    if exists rest :: file == p + "/" + rest {
      var rest :| file == p + "/" + rest;
      assert file[..|p + "/"|] == p + "/" && file[..|p|] == p;
    }
    if StartsWith(file, p + "/") { assert file == p + "/" + file[|p| + 1..]; }
  }

  /** After a run without faults from a consistent database, a candidate with chunks has one row for
      each of them, in order: its text and position, what the models made of it, and the hash, the
      version and the model it was written under. */
  lemma StoredRows(w: World, cfg: Config, disk: string -> string, faults: nat -> Fault,
                   before: Db, after: Db, file: string)
    requires w.Injective() && Consistent(w, before) && NoFaults(cfg, faults)
    requires IndexRun(w, cfg, disk, faults, before, after) && file in cfg.candidates
    requires w.chunk(cfg.version, file, disk(file)) != []
    ensures var key, content := Key(cfg.scope, file), disk(file);
            var cs := w.chunk(cfg.version, file, content);
            exists best, model ::
              && MostSpecific(file, cfg.segments, best)
              && model == (if best.Some? then best.value.model else cfg.baseModel)
              && key in after && |after[key]| == |cs|
              && forall i :: 0 <= i < |cs| ==>
                   after[key][i] == Row(w.hash(content), Some(model), Some(cfg.version), i, cs[i],
                                        w.detail(cfg.version, file, content, model, i))
  {
    ConsistentIsNotLegacy(w, cfg, before);
    CandidateAgreesExactly(w, cfg, disk, faults, before, after, file);
    ModelInPlainTerms(cfg, file);
    var best, model := BestSegment(file, cfg.segments), ModelFor(cfg, file);
    hide MostSpecific, ModelFor, IndexRun, Consistent, LegacyMatch, BestSegment;
  }

  /** What a run leaves alone: rows of a file that no job of it wrote, and rows of other scopes. */
  lemma FaultKeepsRows(w: World, cfg: Config, disk: string -> string, faults: nat -> Fault,
                       before: Db, after: Db, file: string)
    requires IndexRun(w, cfg, disk, faults, before, after) && file in cfg.candidates
    requires forall i :: 0 <= i < |cfg.candidates| && cfg.candidates[i] == file ==> faults(i) != NoFault
    ensures var key := Key(cfg.scope, file);
            (key in after <==> key in before) && (key in after ==> after[key] == before[key])
  {
    var key := Key(cfg.scope, file);
    assert key.scope == cfg.scope && key.file == file;
    assert !Written(w, cfg, before, disk, faults, file);
    hide Written;
    assert !Stale(cfg, before, file);
  }

  /** A full run over segments removes every indexed file that is no candidate, but for memory files:
      those below "memory/" and those below the bot's own "bots/.../memory/". */
  lemma SegmentRunRemoves(w: World, cfg: Config, disk: string -> string, faults: nat -> Fault,
                          before: Db, after: Db, file: string)
    requires IndexRun(w, cfg, disk, faults, before, after) && cfg.full && cfg.segments != []
    requires file !in cfg.candidates && Key(cfg.scope, file) in before
    ensures Key(cfg.scope, file) in after <==>
              || "memory/" <= file
              || (exists bot :: cfg.scope.bot == Some(bot) && bot != "" && "bots/" + bot + "/memory/" <= file)
    ensures Key(cfg.scope, file) in after ==> after[Key(cfg.scope, file)] == before[Key(cfg.scope, file)]
  {
    var key := Key(cfg.scope, file);
    assert key.scope == cfg.scope && key.file == file;
    assert !Written(w, cfg, before, disk, faults, file);
    hide Written;
  }

  /** A second run over the same disk indexes no file again. */
  lemma {:induction false} SecondRunSkips(w: World, cfg: Config, disk: string -> string, faults: nat -> Fault,
                                          again: nat -> Fault, before: Db, after: Db, n: nat)
    requires w.Injective() && Consistent(w, before) && NoFaults(cfg, faults) && cfg.full && cfg.segments == []
    requires IndexRun(w, cfg, disk, faults, before, after) && NoFaults(cfg, again) && n <= |cfg.candidates|
    ensures CountVerdicts(w, cfg, disk, again, after, Skipped, n) == n
    decreases n
  {
    if n > 0 {
      SecondRunSkips(w, cfg, disk, faults, again, before, after, n - 1);
      var file := cfg.candidates[n - 1];
      FullRunRebuilds(w, cfg, disk, faults, before, after);
      UnchangedAfter(w, cfg, after, file, disk(file));
      hide IndexRun, Unchanged, NewRows, Consistent;
      assert again(n - 1) == NoFault;
    }
  }

  lemma UnchangedAfter(w: World, cfg: Config, after: Db, file: string, content: string)
    requires w.Chunks(cfg.version, file, content) != [] ==>
               Key(cfg.scope, file) in after && after[Key(cfg.scope, file)] == NewRows(w, cfg, file, content)
    ensures w.Chunks(cfg.version, file, content) != [] ==> Unchanged(w, cfg, after, file, content)
  {
    hide ModelFor;
    if w.Chunks(cfg.version, file, content) != [] {
      FirstRow(w, file, NewRows(w, cfg, file, content), false, cfg.version, content, ModelFor(cfg, file));
    }
  }

  /** What a job counts as: failed when it crashes, or when a file with chunks cannot be read, or is to be
      written and something else goes wrong; skipped without chunks or when the first stored row has the
      content's hash, the version, and the model (or, without one, the base model is asked for). */
  lemma VerdictInPlainTerms(w: World, cfg: Config, before: Db, file: string, content: string, fault: Fault)
    ensures var chunks, key := w.chunk(cfg.version, file, content), Key(cfg.scope, file);
            var current := key in before && before[key][0].hash == w.hash(content)
                           && before[key][0].version == Some(cfg.version)
                           && (before[key][0].model == Some(ModelFor(cfg, file))
                               || (before[key][0].model == None && ModelFor(cfg, file) == cfg.baseModel));
            match Judge(w, cfg, before, file, content, fault)
            case Indexed => chunks != [] && !current && fault == NoFault
            case Skipped => fault != Crashes && (chunks == [] || (fault != ReadFails && current))
            case Failed => fault == Crashes || (chunks != [] && (fault == ReadFails || (!current && fault != NoFault)))
  {
    hide ModelFor;
  }
}
