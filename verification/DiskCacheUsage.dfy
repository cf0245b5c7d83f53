/** The usage counters of common/disk_cache_config.go under concurrent creation and closing of
    body storages. Every atomic operation of common/body_storage.go is one step: the
    availability check, the write of the file, each counter update and each clamp. */
module DiskCacheUsage {
  import opened Prelude

  datatype Config = Config(enabled: bool, threshold: int, max: int)  // in bytes

  datatype Origin =
    | FromBytes                        // CreateBodyStorage
    | FromReader(contentLength: int)   // CreateBodyStorageFromReader

  datatype Phase =
    | Start          // before the availability check
    | Approved       // the check passed; the file is not written yet
    | Written        // before ActiveDiskFiles += 1
    | CountedFile    // before CurrentDiskUsageBytes += size
    | OnDisk         // a live disk storage
    | Closing        // Close won the swap; before ActiveDiskFiles -= 1
    | ClampFiles     // that went below zero; before storing 0
    | Uncounted      // before CurrentDiskUsageBytes -= size
    | ClampBytes     // that went below zero; before storing 0
    | ToMemory       // before ActiveMemoryBuffers += 1
    | CountedBuffer  // before CurrentMemoryUsageBytes += size
    | InMemory       // a live memory storage
    | Releasing      // Close won the swap; before ActiveMemoryBuffers -= 1
    | Released       // before CurrentMemoryUsageBytes -= size
    | Gone           // closed, or never created

  datatype Job = Job(origin: Origin, size: nat, phase: Phase)

  datatype State = State(files: int, bytes: int, buffers: int, memory: int, jobs: seq<Job>)

  predicate Init(s: State) {
    s == State(0, 0, 0, 0, [])
  }

  // ---------------------------------------------------------------- steps

  function Move(s: State, i: nat, phase: Phase): State
    requires i < |s.jobs|
  {
    s.(jobs := s.jobs[i := s.jobs[i].(phase := phase)])
  }

  function Declared(job: Job): int {
    match job.origin
    case FromBytes => job.size
    case FromReader(contentLength) => contentLength
  }

  predicate WantsDisk(c: Config, s: State, job: Job) {
    && c.enabled
    && (job.origin.FromReader? ==> Declared(job) > 0)
    && Declared(job) >= c.threshold
    && s.bytes + Declared(job) <= c.max
  }

  /** The next step of job `i`. `ok` is the outcome of reading and writing the body; a live
      storage moves when it is closed, and closing it again is no step. */
  function Next(c: Config, s: State, i: nat, ok: bool): State
    requires i < |s.jobs|
  {
    var job := s.jobs[i];
    match job.phase
    case Start =>
      if WantsDisk(c, s, job) then Move(s, i, Approved)
      else if job.origin.FromBytes? then Move(s, i, ToMemory)
      else if ok then s.(jobs := s.jobs[i := job.(origin := FromBytes)])
      else Move(s, i, Gone)
    case Approved =>
      if ok then Move(s, i, Written)
      else if job.origin.FromBytes? then Move(s, i, ToMemory)
      else Move(s, i, Gone)
    case Written => Move(s, i, CountedFile).(files := s.files + 1)
    case CountedFile => Move(s, i, OnDisk).(bytes := s.bytes + job.size)
    case OnDisk => Move(s, i, Closing)
    case Closing =>
      Move(s, i, if s.files - 1 < 0 then ClampFiles else Uncounted).(files := s.files - 1)
    case ClampFiles => Move(s, i, Uncounted).(files := 0)
    case Uncounted =>
      Move(s, i, if s.bytes - job.size < 0 then ClampBytes else Gone).(bytes := s.bytes - job.size)
    case ClampBytes => Move(s, i, Gone).(bytes := 0)
    case ToMemory => Move(s, i, CountedBuffer).(buffers := s.buffers + 1)
    case CountedBuffer => Move(s, i, InMemory).(memory := s.memory + job.size)
    case InMemory => Move(s, i, Releasing)
    case Releasing => Move(s, i, Released).(buffers := s.buffers - 1)
    case Released => Move(s, i, Gone).(memory := s.memory - job.size)
    case Gone => s
  }

  predicate Arrives(s: State, s': State, origin: Origin, size: nat) {
    s' == s.(jobs := s.jobs + [Job(origin, size, Start)])
  }

  predicate Advances(c: Config, s: State, s': State, i: nat, ok: bool) {
    i < |s.jobs| && s' == Next(c, s, i, ok)
  }

  ghost predicate Step(c: Config, s: State, s': State) {
    || (exists origin, size :: Arrives(s, s', origin, size))
    || (exists i, ok :: Advances(c, s, s', i, ok))
  }

  ghost predicate Run(c: Config, run: seq<State>) {
    && |run| > 0
    && Init(run[0])
    && forall n :: 0 <= n < |run| - 1 ==> Step(c, run[n], run[n + 1])
  }

  // ---------------------------------------------------------------- what the counters mean

  function FileOf(job: Job): int {
    if job.phase.CountedFile? || job.phase.OnDisk? || job.phase.Closing? then 1 else 0
  }

  function DiskBytesOf(job: Job): int {
    if job.phase.OnDisk? || job.phase.Closing? || job.phase.Uncounted? then job.size else 0
  }

  function BufferOf(job: Job): int {
    if job.phase.CountedBuffer? || job.phase.InMemory? || job.phase.Releasing? then 1 else 0
  }

  function MemoryBytesOf(job: Job): int {
    if job.phase.InMemory? || job.phase.Releasing? || job.phase.Released? then job.size else 0
  }

  /** Approved for the disk but not yet in the byte counter. */
  function PendingOf(job: Job): int {
    if job.phase.Approved? || job.phase.Written? || job.phase.CountedFile? then job.size else 0
  }

  function Total(jobs: seq<Job>, weight: Job -> int): int {
    if jobs == [] then 0 else Total(jobs[..|jobs| - 1], weight) + weight(jobs[|jobs| - 1])
  }

  lemma {:induction false} TotalUpdate(jobs: seq<Job>, i: nat, job: Job, weight: Job -> int)
    requires i < |jobs|
    ensures Total(jobs[i := job], weight) == Total(jobs, weight) - weight(jobs[i]) + weight(job)
  {
    var n := |jobs| - 1;
    if i < n {
      TotalUpdate(jobs[..n], i, job, weight);
      assert jobs[i := job][..n] == jobs[..n][i := job];
    } else {
      assert jobs[i := job][..n] == jobs[..n];
    }
  }

  lemma TotalAppend(jobs: seq<Job>, job: Job, weight: Job -> int)
    ensures Total(jobs + [job], weight) == Total(jobs, weight) + weight(job)
  {
    assert (jobs + [job])[..|jobs|] == jobs;
  }

  lemma {:induction false} TotalCovers(jobs: seq<Job>, i: nat, weight: Job -> int)
    requires forall job :: weight(job) >= 0
    ensures Total(jobs, weight) >= 0
    ensures i < |jobs| ==> Total(jobs, weight) >= weight(jobs[i])
  {
    if jobs != [] {
      var n := |jobs| - 1;
      TotalCovers(jobs[..n], i, weight);
    }
  }

  ghost predicate Inv(s: State) {
    && s.files == Total(s.jobs, FileOf)
    && s.bytes == Total(s.jobs, DiskBytesOf)
    && s.buffers == Total(s.jobs, BufferOf)
    && s.memory == Total(s.jobs, MemoryBytesOf)
    && forall i :: 0 <= i < |s.jobs| ==> !s.jobs[i].phase.ClampFiles? && !s.jobs[i].phase.ClampBytes?
  }

  lemma AdvanceMovesOneJob(c: Config, s: State, s': State, i: nat, ok: bool)
    requires Advances(c, s, s', i, ok)
    ensures i < |s'.jobs| && s'.jobs == s.jobs[i := s'.jobs[i]]
  {
  }

  lemma AdvanceKeepsFiles(c: Config, s: State, s': State, i: nat, ok: bool)
    requires Inv(s) && Advances(c, s, s', i, ok)
    ensures s'.files == Total(s'.jobs, FileOf)
    ensures !s'.jobs[i].phase.ClampFiles?
  {
    AdvanceMovesOneJob(c, s, s', i, ok);
    TotalUpdate(s.jobs, i, s'.jobs[i], FileOf);
    TotalCovers(s.jobs, i, FileOf);
  }

  lemma AdvanceKeepsBytes(c: Config, s: State, s': State, i: nat, ok: bool)
    requires Inv(s) && Advances(c, s, s', i, ok)
    ensures s'.bytes == Total(s'.jobs, DiskBytesOf)
    ensures !s'.jobs[i].phase.ClampBytes?
  {
    AdvanceKeepsFiles(c, s, s', i, ok);
    AdvanceMovesOneJob(c, s, s', i, ok);
    TotalUpdate(s.jobs, i, s'.jobs[i], DiskBytesOf);
    TotalCovers(s.jobs, i, DiskBytesOf);
  }

  lemma AdvanceKeepsMemory(c: Config, s: State, s': State, i: nat, ok: bool)
    requires Inv(s) && Advances(c, s, s', i, ok)
    ensures s'.buffers == Total(s'.jobs, BufferOf) && s'.memory == Total(s'.jobs, MemoryBytesOf)
  {
    AdvanceMovesOneJob(c, s, s', i, ok);
    TotalUpdate(s.jobs, i, s'.jobs[i], BufferOf);
    TotalUpdate(s.jobs, i, s'.jobs[i], MemoryBytesOf);
  }

  lemma AdvanceKeepsInv(c: Config, s: State, s': State, i: nat, ok: bool)
    requires Inv(s) && Advances(c, s, s', i, ok)
    ensures Inv(s')
  {
    AdvanceMovesOneJob(c, s, s', i, ok);
    AdvanceKeepsFiles(c, s, s', i, ok);
    AdvanceKeepsBytes(c, s, s', i, ok);
    AdvanceKeepsMemory(c, s, s', i, ok);
  }

  lemma ArriveKeepsInv(s: State, s': State, origin: Origin, size: nat)
    requires Inv(s) && Arrives(s, s', origin, size)
    ensures Inv(s')
  {
    var job := Job(origin, size, Start);
    TotalAppend(s.jobs, job, FileOf);
    TotalAppend(s.jobs, job, DiskBytesOf);
    TotalAppend(s.jobs, job, BufferOf);
    TotalAppend(s.jobs, job, MemoryBytesOf);
  }

  lemma {:induction false} RunKeepsInv(c: Config, run: seq<State>, n: nat)
    requires Run(c, run) && n < |run|
    ensures Inv(run[n])
  {
    if n > 0 {
      RunKeepsInv(c, run, n - 1);
      var s, s' := run[n - 1], run[n];
      assert Step(c, s, s');
      if origin, size :| Arrives(s, s', origin, size) { ArriveKeepsInv(s, s', origin, size); }
      else { var i, ok :| Advances(c, s, s', i, ok); AdvanceKeepsInv(c, s, s', i, ok); }
    }
  }

  /** In every interleaving of creations and closes the four counters are the count and the
      total size of the storages that are counted in, they are never negative, and the clamp
      at zero never fires. */
  lemma CountersAreExact(c: Config, run: seq<State>, n: nat)
    requires Run(c, run) && n < |run|
    ensures run[n].files == Total(run[n].jobs, FileOf) >= 0
    ensures run[n].bytes == Total(run[n].jobs, DiskBytesOf) >= 0
    ensures run[n].buffers == Total(run[n].jobs, BufferOf) >= 0
    ensures run[n].memory == Total(run[n].jobs, MemoryBytesOf) >= 0
    ensures forall i :: 0 <= i < |run[n].jobs| ==>
              !run[n].jobs[i].phase.ClampFiles? && !run[n].jobs[i].phase.ClampBytes?
  {
    RunKeepsInv(c, run, n);
    TotalCovers(run[n].jobs, 0, FileOf);
    TotalCovers(run[n].jobs, 0, DiskBytesOf);
    TotalCovers(run[n].jobs, 0, BufferOf);
    TotalCovers(run[n].jobs, 0, MemoryBytesOf);
  }

  // ---------------------------------------------------------------- the size limit

  predicate Pending(job: Job) {
    job.phase.Approved? || job.phase.Written? || job.phase.CountedFile?
  }

  /** No second body is approved for the disk while one is between its check and its count. */
  predicate OneAtATime(s: State) {
    forall i, j :: 0 <= i < j < |s.jobs| ==> !(Pending(s.jobs[i]) && Pending(s.jobs[j]))
  }

  /** A body on its way to the disk is no longer than what the check was told. */
  predicate Honest(s: State) {
    forall i :: 0 <= i < |s.jobs| && Pending(s.jobs[i]) ==> s.jobs[i].size <= Declared(s.jobs[i])
  }

  ghost predicate Below(c: Config, s: State) {
    s.bytes + Total(s.jobs, PendingOf) <= Max(c.max, 0)
  }

  lemma {:induction false} NobodyPending(jobs: seq<Job>)
    requires forall i :: 0 <= i < |jobs| ==> !Pending(jobs[i])
    ensures Total(jobs, PendingOf) == 0
  {
    if jobs != [] { NobodyPending(jobs[..|jobs| - 1]); }
  }

  lemma ApprovedAlone(s: State, s': State, i: nat)
    requires i < |s.jobs| == |s'.jobs| && s'.jobs == s.jobs[i := s'.jobs[i]] && OneAtATime(s')
    requires Pending(s'.jobs[i]) && !Pending(s.jobs[i])
    ensures Total(s.jobs, PendingOf) == 0
  {
    forall k | 0 <= k < |s.jobs| ensures !Pending(s.jobs[k]) {
      assert k != i ==> s'.jobs[k] == s.jobs[k];
    }
    NobodyPending(s.jobs);
  }

  lemma AdvanceStaysBelow(c: Config, s: State, s': State, i: nat, ok: bool)
    requires Inv(s) && Below(c, s)
    requires Advances(c, s, s', i, ok) && OneAtATime(s') && Honest(s')
    ensures Below(c, s')
  {
    var job := s'.jobs[i];
    assert s'.jobs == s.jobs[i := job];
    TotalUpdate(s.jobs, i, job, PendingOf);
    TotalCovers(s.jobs, i, DiskBytesOf);
    if job.phase.Approved? && s.jobs[i].phase.Start? { ApprovedAlone(s, s', i); }
  }

  lemma StepStaysBelow(c: Config, s: State, s': State)
    requires Inv(s) && Below(c, s) && Step(c, s, s') && OneAtATime(s') && Honest(s')
    ensures Below(c, s')
  {
    if origin, size :| Arrives(s, s', origin, size) {
      assert s'.jobs[..|s.jobs|] == s.jobs;
    } else {
      var i, ok :| Advances(c, s, s', i, ok);
      AdvanceStaysBelow(c, s, s', i, ok);
    }
  }

  /** With bodies no longer than declared and no two creations overlapping between check and
      count, the disk usage never exceeds the maximum, or zero when that is negative. */
  lemma {:induction false} SerialRunsStayBelowMax(c: Config, run: seq<State>, n: nat)
    requires Run(c, run) && n < |run|
    requires forall k :: 0 <= k < |run| ==> OneAtATime(run[k]) && Honest(run[k])
    ensures Below(c, run[n]) && run[n].bytes <= Max(c.max, 0)
  {
    if n > 0 {
      SerialRunsStayBelowMax(c, run, n - 1);
      RunKeepsInv(c, run, n - 1);
      StepStaysBelow(c, run[n - 1], run[n]);
    }
    TotalCovers(run[n].jobs, 0, PendingOf);
  }

  /** The check and the count are not one atomic action: any two bodies that fit alone and not
      together can both be approved, and the usage ends above the maximum. */
  lemma OverlapExceedsMax(c: Config, a: nat, b: nat) returns (run: seq<State>)
    requires c.enabled && c.threshold <= a <= c.max && c.threshold <= b <= c.max && a + b > c.max
    ensures Run(c, run) && run[|run| - 1].bytes > c.max
    ensures forall n :: 0 <= n < |run| ==> Honest(run[n])
  {
    var s0 := State(0, 0, 0, 0, []);
    var s1 := s0.(jobs := [Job(FromBytes, a, Start)]);
    var s2 := s1.(jobs := [Job(FromBytes, a, Start), Job(FromBytes, b, Start)]);
    assert Arrives(s0, s1, FromBytes, a) && Arrives(s1, s2, FromBytes, b);
    var s3 := Next(c, s2, 0, true);
    var s4 := Next(c, s3, 1, true);
    assert s4.jobs == [Job(FromBytes, a, Approved), Job(FromBytes, b, Approved)];
    var s5 := Next(c, s4, 0, true);
    var s6 := Next(c, s5, 0, true);
    var s7 := Next(c, s6, 0, true);
    assert s7 == State(1, a, 0, 0, [Job(FromBytes, a, OnDisk), Job(FromBytes, b, Approved)]);
    var s8 := Next(c, s7, 1, true);
    var s9 := Next(c, s8, 1, true);
    var s10 := Next(c, s9, 1, true);
    assert Advances(c, s2, s3, 0, true) && Advances(c, s3, s4, 1, true) && Advances(c, s4, s5, 0, true);
    assert Advances(c, s5, s6, 0, true) && Advances(c, s6, s7, 0, true) && Advances(c, s7, s8, 1, true);
    assert Advances(c, s8, s9, 1, true) && Advances(c, s9, s10, 1, true);
    run := [s0, s1, s2, s3, s4, s5, s6, s7, s8, s9, s10];
  }

  // ---------------------------------------------------------------- which configurations keep the limit

  ghost predicate HonestRun(c: Config, run: seq<State>) {
    Run(c, run) && forall n :: 0 <= n < |run| ==> Honest(run[n])
  }

  /** Whatever the creations overlap, honest lengths never bring the usage above the maximum. */
  ghost predicate NeverExceeds(c: Config) {
    forall run: seq<State>, n | HonestRun(c, run) && 0 <= n < |run| :: run[n].bytes <= c.max
  }

  predicate OnDiskPath(job: Job) {
    Pending(job) || job.phase.OnDisk? || job.phase.Closing? || job.phase.Uncounted?
  }

  /** Only empty bodies are on their way to the disk or there. */
  predicate NothingOnDisk(s: State) {
    forall i :: 0 <= i < |s.jobs| && OnDiskPath(s.jobs[i]) ==> s.jobs[i].size == 0
  }

  lemma {:induction false} NothingCounted(jobs: seq<Job>)
    requires forall i :: 0 <= i < |jobs| && OnDiskPath(jobs[i]) ==> jobs[i].size == 0
    ensures Total(jobs, DiskBytesOf) == 0
  {
    if jobs != [] { NothingCounted(jobs[..|jobs| - 1]); }
  }

  predicate TakesNothing(c: Config) {
    !c.enabled || c.threshold > c.max || c.max == 0
  }

  lemma AdvanceTakesNothing(c: Config, s: State, s': State, i: nat, ok: bool)
    requires TakesNothing(c) && c.max >= 0 && Inv(s) && NothingOnDisk(s)
    requires Advances(c, s, s', i, ok) && Honest(s')
    ensures NothingOnDisk(s')
  {
    AdvanceMovesOneJob(c, s, s', i, ok);
    NothingCounted(s.jobs);
  }

  lemma StepTakesNothing(c: Config, s: State, s': State)
    requires TakesNothing(c) && c.max >= 0 && Inv(s) && NothingOnDisk(s) && Step(c, s, s') && Honest(s')
    ensures NothingOnDisk(s')
  {
    if i, ok :| Advances(c, s, s', i, ok) { AdvanceTakesNothing(c, s, s', i, ok); }
  }

  lemma {:induction false} RunTakesNothing(c: Config, run: seq<State>, n: nat)
    requires TakesNothing(c) && c.max >= 0 && HonestRun(c, run) && n < |run|
    ensures NothingOnDisk(run[n]) && run[n].bytes == 0
  {
    if n > 0 {
      RunTakesNothing(c, run, n - 1);
      RunKeepsInv(c, run, n - 1);
      StepTakesNothing(c, run[n - 1], run[n]);
    }
    RunKeepsInv(c, run, n);
    NothingCounted(run[n].jobs);
  }

  /** The limit holds in every honest run if and only if the configuration sends no non-empty body to the disk at
      all: the cache is off, its threshold is above its maximum, or its maximum is zero. */
  lemma NeverExceedsIff(c: Config)
    ensures NeverExceeds(c) <==> c.max >= 0 && TakesNothing(c)
  {
    if c.max < 0 {
      var run := [State(0, 0, 0, 0, [])];
      assert HonestRun(c, run) && run[0].bytes > c.max;
    } else if TakesNothing(c) {
      forall run: seq<State>, n | HonestRun(c, run) && 0 <= n < |run| ensures run[n].bytes <= c.max {
        RunTakesNothing(c, run, n);
      }
    } else {
      var run := OverlapExceedsMax(c, c.max, c.max);
      assert HonestRun(c, run);
    }
  }

  // ---------------------------------------------------------------- the life of one body

  /** The state after `n` steps of one job, when no other job moves. */
  function After(c: Config, s: State, i: nat, n: nat, ok: bool): State
    requires i < |s.jobs|
    decreases n
  {
    if n == 0 then s else After(c, Next(c, s, i, ok), i, n - 1, ok)
  }

  function WithPhase(s: State, i: nat, phase: Phase): State
    requires i < |s.jobs|
  {
    s.(jobs := s.jobs[i := s.jobs[i].(phase := phase)])
  }

  predicate InMemoryAfter(s: State, s': State, i: nat)
    requires i < |s.jobs|
  {
    s' == WithPhase(s, i, InMemory).(buffers := s.buffers + 1, memory := s.memory + s.jobs[i].size)
  }

  predicate OnDiskAfter(s: State, s': State, i: nat)
    requires i < |s.jobs|
  {
    s' == WithPhase(s, i, OnDisk).(files := s.files + 1, bytes := s.bytes + s.jobs[i].size)
  }

  lemma ReachesMemory(c: Config, s: State, i: nat)
    requires i < |s.jobs| && s.jobs[i].phase == ToMemory
    ensures InMemoryAfter(s, After(c, s, i, 2, true), i)
  {
    var s1 := Next(c, s, i, true);
    var s2 := Next(c, s1, i, true);
    assert After(c, s, i, 2, true) == After(c, s1, i, 1, true) == After(c, s2, i, 0, true);
    assert s2.jobs == WithPhase(s, i, InMemory).jobs;
  }

  lemma ReachesDisk(c: Config, s: State, i: nat)
    requires i < |s.jobs| && s.jobs[i].phase == Approved
    ensures OnDiskAfter(s, After(c, s, i, 3, true), i)
  {
    var s1 := Next(c, s, i, true);
    var s2 := Next(c, s1, i, true);
    var s3 := Next(c, s2, i, true);
    assert After(c, s, i, 3, true) == After(c, s1, i, 2, true) == After(c, s2, i, 1, true) == After(c, s3, i, 0, true);
    assert s3.jobs == WithPhase(s, i, OnDisk).jobs;
  }

  /** A body at hand goes to the disk when the cache is on, the body reaches the threshold and fits, and its file is
      written; otherwise to memory. It is counted where it is. */
  lemma BytesAreStored(c: Config, s: State, i: nat, size: nat)
    requires i < |s.jobs| && s.jobs[i] == Job(FromBytes, size, Start)
    ensures var s1 := Next(c, s, i, true);
            if c.enabled && size >= c.threshold && s.bytes + size <= c.max
            then && OnDiskAfter(s, After(c, s1, i, 3, true), i)
                 && InMemoryAfter(s, After(c, Next(c, s1, i, false), i, 2, true), i)
            else InMemoryAfter(s, After(c, s1, i, 2, true), i)
  {
    var s1 := Next(c, s, i, true);
    if s1.jobs[i].phase == Approved {
      ReachesDisk(c, s1, i);
      ReachesMemory(c, Next(c, s1, i, false), i);
    } else {
      ReachesMemory(c, s1, i);
    }
  }

  /** A body that is still to be read goes to the disk when its declared length is positive, reaches the threshold and
      fits; otherwise it is read and handled as a body at hand. Nothing is kept of a body that cannot be read. */
  lemma ReaderIsStored(c: Config, s: State, i: nat, size: nat, declared: int)
    requires i < |s.jobs| && s.jobs[i] == Job(FromReader(declared), size, Start)
    ensures var s1 := Next(c, s, i, true);
            if c.enabled && declared > 0 && declared >= c.threshold && s.bytes + declared <= c.max
            then OnDiskAfter(s, After(c, s1, i, 3, true), i) && Next(c, s1, i, false) == WithPhase(s, i, Gone)
            else && s1 == s.(jobs := s.jobs[i := Job(FromBytes, size, Start)])
                 && Next(c, s, i, false) == WithPhase(s, i, Gone)
  {
    var s1 := Next(c, s, i, true);
    if s1.jobs[i].phase == Approved { ReachesDisk(c, s1, i); }
  }

  lemma OneStep(c: Config, s: State, i: nat, n: nat, ok: bool)
    requires i < |s.jobs| && n > 0
    ensures After(c, s, i, n, ok) == After(c, Next(c, s, i, ok), i, n - 1, ok)
  {
  }

  lemma ThreeSteps(c: Config, s: State, i: nat, ok: bool, s1: State, s2: State, s3: State)
    requires i < |s.jobs| == |s1.jobs| == |s2.jobs| == |s3.jobs|
    requires s1 == Next(c, s, i, ok) && s2 == Next(c, s1, i, ok) && s3 == Next(c, s2, i, ok)
    ensures After(c, s, i, 3, ok) == s3
  {
    OneStep(c, s, i, 3, ok);
    OneStep(c, s1, i, 2, ok);
    OneStep(c, s2, i, 1, ok);
  }

  lemma MoveTwice(s: State, i: nat, first: Phase, second: Phase)
    requires i < |s.jobs|
    ensures WithPhase(WithPhase(s, i, first), i, second) == WithPhase(s, i, second)
  {
    assert WithPhase(WithPhase(s, i, first), i, second).jobs == WithPhase(s, i, second).jobs;
  }

  /** Closing a file takes back what was counted. */
  lemma CloseTakesBackFile(c: Config, s: State, i: nat, ok: bool)
    requires i < |s.jobs| && s.jobs[i].phase == OnDisk && s.files >= 1 && s.bytes >= s.jobs[i].size
    ensures After(c, s, i, 3, ok) ==
            WithPhase(s, i, Gone).(files := s.files - 1, bytes := s.bytes - s.jobs[i].size)
  {
    var s1 := WithPhase(s, i, Closing);
    var s2 := WithPhase(s, i, Uncounted).(files := s.files - 1);
    MoveTwice(s, i, Closing, Uncounted);
    MoveTwice(s, i, Uncounted, Gone);
    ThreeSteps(c, s, i, ok, s1, s2, Next(c, s2, i, ok));
  }

  /** And closing a buffer likewise. */
  lemma CloseTakesBackBuffer(c: Config, s: State, i: nat, ok: bool)
    requires i < |s.jobs| && s.jobs[i].phase == InMemory
    ensures After(c, s, i, 3, ok) ==
            WithPhase(s, i, Gone).(buffers := s.buffers - 1, memory := s.memory - s.jobs[i].size)
  {
    var s1 := WithPhase(s, i, Releasing);
    var s2 := WithPhase(s, i, Released).(buffers := s.buffers - 1);
    MoveTwice(s, i, Releasing, Released);
    MoveTwice(s, i, Released, Gone);
    ThreeSteps(c, s, i, ok, s1, s2, Next(c, s2, i, ok));
  }
}
