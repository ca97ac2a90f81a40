/** Two scheduled jobs can close the same event in the same chat at once
    (internal/app/completion.go). Each pass is one transaction: take the lock of
    the chat and event, read the standings, read the mark, write and commit.
    Any number of passes interleave here, step by step, with each other and
    with settlements that change the standings; each may be aborted anywhere. */
module CompletionRace {
  import opened Wrappers
  import opened Completion

  type JobId = nat

  /** A pass remembers which version of the standings it read. */
  datatype Stage = Waiting | Holding | Read(version: nat) | Decided(version: nat)

  datatype Version = Version(standings: seq<Standing>, digest: Digest)

  /** history holds every version of the standings, the last being current.
      marked and awarded are the versions the mark and the medals were written
      for; marks lists the values the mark took. */
  datatype World = World(history: seq<Version>, chat: ChatState, lock: Option<JobId>, jobs: map<JobId, Stage>,
                         marked: Option<nat>, awarded: Option<nat>, marks: seq<string>)

  datatype Step = Change(standings: seq<Standing>)
                | Begin(job: JobId) | Acquire(job: JobId) | ReadStandings(job: JobId) | ReadMark(job: JobId)
                | Commit(job: JobId, wanted: bool) | Abort(job: JobId)

  predicate At(w: World, job: JobId, stage: Stage) {
    job in w.jobs && w.jobs[job] == stage
  }

  /** Without the lock, nothing keeps a second pass from going on. */
  predicate Enabled(locking: bool, w: World, s: Step) {
    match s
    case Change(_) => true
    case Begin(job) => job !in w.jobs
    case Acquire(job) => At(w, job, Waiting) && (locking ==> w.lock.None?)
    case ReadStandings(job) => At(w, job, Holding) && w.history != []
    case ReadMark(job) => job in w.jobs && w.jobs[job].Read? && w.jobs[job].version < |w.history|
    case Commit(job, _) => job in w.jobs && w.jobs[job].Decided? && w.jobs[job].version < |w.history|
    case Abort(job) => job in w.jobs
  }

  function Changed(w: World, v: Version): World {
    w.(history := w.history + [v])
  }

  function Ended(w: World, job: JobId): World {
    w.(jobs := w.jobs - {job}, lock := if w.lock == Some(job) then None else w.lock)
  }

  function Committed(w: World, job: JobId, version: nat, wanted: bool): World
    requires version < |w.history|
  {
    var d := w.history[version].digest;
    Ended(w, job).(chat := Written(w.chat, d, wanted),
                   marked := Some(version),
                   awarded := if d.anyPredictions then Some(version) else w.awarded,
                   marks := if UpToDate(w.chat, d) then w.marks else w.marks + [d.hash])
  }

  function Apply(locking: bool, w: World, s: Step): World
    requires Enabled(locking, w, s)
  {
    match s
    case Change(standings) => Changed(w, Version(standings, DigestOf(standings)))
    case Begin(job) => w.(jobs := w.jobs[job := Waiting])
    case Acquire(job) => w.(jobs := w.jobs[job := Holding], lock := if locking then Some(job) else None)
    case ReadStandings(job) => w.(jobs := w.jobs[job := Read(|w.history| - 1)])
    case ReadMark(job) =>
      var version := w.jobs[job].version;
      if UpToDate(w.chat, w.history[version].digest) then Ended(w, job) else w.(jobs := w.jobs[job := Decided(version)])
    case Commit(job, wanted) => Committed(w, job, w.jobs[job].version, wanted)
    case Abort(job) => Ended(w, job)
  }

  predicate Possible(locking: bool, w: World, steps: seq<Step>)
    decreases |steps|
  {
    steps == [] || (Enabled(locking, w, steps[0]) && Possible(locking, Apply(locking, w, steps[0]), steps[1..]))
  }

  function After(locking: bool, w: World, steps: seq<Step>): World
    requires Possible(locking, w, steps)
    decreases |steps|
  {
    if steps == [] then w else After(locking, Apply(locking, w, steps[0]), steps[1..])
  }

  const START := World([], NOTHING, None, map[], None, None, [])

  // ---------- What every step keeps ----------

  /** Only the holder of the lock is past waiting, and what it has read is
      still what is there. */
  predicate LockInv(w: World) {
    forall job :: job in w.jobs && !w.jobs[job].Waiting? ==>
      && w.lock == Some(job)
      && (w.jobs[job].Read? || w.jobs[job].Decided? ==>
            w.jobs[job].version < |w.history| && (w.marked.Some? ==> w.marked.value <= w.jobs[job].version))
      && (w.jobs[job].Decided? ==> !UpToDate(w.chat, w.history[w.jobs[job].version].digest))
  }

  /** The mark is the digest of the version it was written for, the medals are
      those of the version they were, and the two versions are the same exactly
      when somebody had predicted. */
  predicate RecordInv(w: World) {
    && (w.marked.None? ==> w.chat == NOTHING && w.awarded.None? && w.marks == [])
    && (w.marked.Some? ==>
          && w.marked.value < |w.history|
          && UpToDate(w.chat, w.history[w.marked.value].digest)
          && (w.history[w.marked.value].digest.anyPredictions <==> w.awarded == w.marked)
          && w.marks != [] && w.chat.mark == Some(w.marks[|w.marks| - 1]))
    && (w.awarded.Some? ==>
          && w.marked.Some? && w.awarded.value <= w.marked.value
          && w.chat.medals == w.history[w.awarded.value].digest.medals)
    && (w.awarded.None? ==> w.chat.medals == map[])
  }

  /** Recaps belong to changes of the mark, each to its own. */
  ghost predicate RecapInv(w: World) {
    && multiset(w.chat.recaps) <= multiset(w.marks)
    && forall i, j :: 0 <= i < j < |w.marks| && j == i + 1 ==> w.marks[i] != w.marks[j]
  }

  ghost predicate Inv(w: World) {
    LockInv(w) && RecordInv(w) && RecapInv(w)
  }

  lemma ReadStandingsKeeps(w: World, job: JobId)
    requires Inv(w) && Enabled(true, w, ReadStandings(job))
    ensures Inv(Apply(true, w, ReadStandings(job)))
  {
  }

  lemma DecideKeeps(w: World, job: JobId, version: nat)
    requires Inv(w) && At(w, job, Read(version)) && version < |w.history| && !UpToDate(w.chat, w.history[version].digest)
    ensures Inv(w.(jobs := w.jobs[job := Decided(version)]))
  {
  }

  lemma EndKeeps(w: World, job: JobId)
    requires Inv(w) && job in w.jobs
    ensures Inv(Ended(w, job))
  {
  }

  lemma ReadMarkKeeps(w: World, job: JobId)
    requires Inv(w) && Enabled(true, w, ReadMark(job))
    ensures Inv(Apply(true, w, ReadMark(job)))
  {
    var version := w.jobs[job].version;
    if UpToDate(w.chat, w.history[version].digest) {
      EndKeeps(w, job);
    } else {
      DecideKeeps(w, job, version);
    }
  }

  /** A later version of the standings changes nothing that was read before. */
  lemma ChangeKeeps(w: World, v: Version)
    requires Inv(w)
    ensures Inv(Changed(w, v))
  {
    assert forall i :: 0 <= i < |w.history| ==> Changed(w, v).history[i] == w.history[i];
  }

  lemma CommitKeepsRecord(w: World, job: JobId, version: nat, wanted: bool)
    requires Inv(w) && At(w, job, Decided(version)) && version < |w.history|
    ensures LockInv(Committed(w, job, version, wanted)) && RecordInv(Committed(w, job, version, wanted))
  {
  }

  lemma RecapsFollowMarks(recaps: seq<string>, marks: seq<string>, hash: string)
    requires multiset(recaps) <= multiset(marks)
    ensures multiset(recaps) <= multiset(marks + [hash]) && multiset(recaps + [hash]) <= multiset(marks + [hash])
  {
    assert multiset(marks + [hash]) == multiset(marks) + multiset{hash};
    assert multiset(recaps + [hash]) == multiset(recaps) + multiset{hash};
  }

  lemma CommitKeepsRecaps(w: World, job: JobId, version: nat, wanted: bool)
    requires Inv(w) && At(w, job, Decided(version)) && version < |w.history|
    ensures RecapInv(Committed(w, job, version, wanted))
  {
    var hash := w.history[version].digest.hash;
    assert w.chat.mark != Some(hash);
    RecapsFollowMarks(w.chat.recaps, w.marks, hash);
    if w.marks != [] {
      assert w.marks[|w.marks| - 1] != hash;
    }
  }

  lemma StepKeeps(w: World, s: Step)
    requires Inv(w) && Enabled(true, w, s)
    ensures Inv(Apply(true, w, s))
  {
    match s
    case Change(standings) => ChangeKeeps(w, Version(standings, DigestOf(standings)));
    case ReadStandings(job) => ReadStandingsKeeps(w, job);
    case ReadMark(job) => ReadMarkKeeps(w, job);
    case Commit(job, wanted) =>
      CommitKeepsRecord(w, job, w.jobs[job].version, wanted);
      CommitKeepsRecaps(w, job, w.jobs[job].version, wanted);
    case Abort(job) => EndKeeps(w, job);
    case _ =>
  }

  lemma {:induction false} HistoryKeeps(w: World, steps: seq<Step>)
    requires Inv(w) && Possible(true, w, steps)
    ensures Inv(After(true, w, steps))
    decreases |steps|
  {
    if steps != [] {
      StepKeeps(w, steps[0]);
      HistoryKeeps(Apply(true, w, steps[0]), steps[1..]);
    }
  }

  // ---------- Whole histories ----------

  lemma MultisetSize(a: multiset<string>, b: multiset<string>)
    requires a <= b
    ensures |a| <= |b|
  {
    assert b == a + (b - a);
  }

  /** However the passes interleave, there are no more recaps than changes of
      the mark, not even for any one result. */
  lemma RecapsAreAccountedFor(steps: seq<Step>)
    requires Possible(true, START, steps)
    ensures var w := After(true, START, steps);
            && |w.chat.recaps| <= |w.marks|
            && forall hash :: multiset(w.chat.recaps)[hash] <= multiset(w.marks)[hash]
  {
    HistoryKeeps(START, steps);
    var w := After(true, START, steps);
    MultisetSize(multiset(w.chat.recaps), multiset(w.marks));
    assert |multiset(w.chat.recaps)| == |w.chat.recaps| && |multiset(w.marks)| == |w.marks|;
  }

  /** The digests are those of the standings. */
  lemma {:induction false} DigestsAreTrue(w: World, steps: seq<Step>, i: nat)
    requires Possible(true, w, steps) && i < |After(true, w, steps).history|
    requires i < |w.history| ==> w.history[i].digest == DigestOf(w.history[i].standings)
    ensures var v := After(true, w, steps).history[i]; v.digest == DigestOf(v.standings)
    decreases |steps|
  {
    if steps != [] {
      DigestsAreTrue(Apply(true, w, steps[0]), steps[1..], i);
    }
  }

  /** Medals and mark describe the same standings exactly when somebody had
      predicted in the standings marked last: a pass that finds no predictions
      marks the chat and leaves the medals as they were. */
  lemma MedalsMatchMark(steps: seq<Step>)
    requires Possible(true, START, steps) && After(true, START, steps).marked.Some?
    ensures var w := After(true, START, steps);
            && w.marked.value < |w.history|
            && var standings := w.history[w.marked.value].standings;
               && w.chat.mark == Some(CompletionHash(standings))
               && (AnyPredictions(standings) <==> w.awarded == w.marked)
               && (w.awarded == w.marked ==> w.chat.medals == MedalsOf(standings))
  {
    HistoryKeeps(START, steps);
    DigestsAreTrue(START, steps, After(true, START, steps).marked.value);
  }

  /** The standings marked never go back to an older version. */
  lemma {:induction false} MarkNeverGoesBack(w: World, steps: seq<Step>)
    requires Inv(w) && Possible(true, w, steps) && w.marked.Some?
    ensures After(true, w, steps).marked.Some? && After(true, w, steps).marked.value >= w.marked.value
    decreases |steps|
  {
    if steps != [] {
      StepKeeps(w, steps[0]);
      MarkNeverGoesBack(Apply(true, w, steps[0]), steps[1..]);
    }
  }

  // ---------- Why it takes the lock, and predictions ----------

  lemma RunSplits(locking: bool, w: World, steps: seq<Step>, end: World)
    requires steps != [] && Enabled(locking, w, steps[0])
    requires Possible(locking, Apply(locking, w, steps[0]), steps[1..])
    requires After(locking, Apply(locking, w, steps[0]), steps[1..]) == end
    ensures Possible(locking, w, steps) && After(locking, w, steps) == end
  {
  }

  function Racers(): seq<Step> {
    [Acquire(1), Acquire(2), ReadStandings(1), ReadStandings(2), ReadMark(1), ReadMark(2), Commit(1, true), Commit(2, true)]
  }

  /** Two passes that both read the mark before either writes it. */
  function Race(standings: seq<Standing>): seq<Step> {
    [Change(standings), Begin(1), Begin(2)] + Racers()
  }

  /** The result is in, nothing is recorded, and two passes are this far. */
  function Racing(v: Version, first: Stage, second: Stage): World {
    World([v], NOTHING, None, map[1 := first, 2 := second], None, None, [])
  }

  predicate AnnouncedTwice(w: World) {
    |w.chat.recaps| == 2 && |w.marks| == 1
  }

  predicate Doubles(w: World, steps: seq<Step>) {
    Possible(false, w, steps) && AnnouncedTwice(After(false, w, steps))
  }

  lemma RaceEnds(v: Version)
    requires v.digest.anyPredictions
    ensures Doubles(Racing(v, Decided(0), Decided(0)), Racers()[6..])
  {
    var w := Racing(v, Decided(0), Decided(0));
    var once := Apply(false, w, Commit(1, true));
    assert At(once, 2, Decided(0));
    var twice := Apply(false, once, Commit(2, true));
    RunSplits(false, once, Racers()[7..], twice);
    RunSplits(false, w, Racers()[6..], twice);
  }

  lemma RaceReads(v: Version)
    requires v.digest.anyPredictions
    ensures Doubles(Racing(v, Holding, Holding), Racers()[2..])
  {
    RaceEnds(v);
    var end := After(false, Racing(v, Decided(0), Decided(0)), Racers()[6..]);
    assert Apply(false, Racing(v, Decided(0), Read(0)), ReadMark(2)) == Racing(v, Decided(0), Decided(0));
    RunSplits(false, Racing(v, Decided(0), Read(0)), Racers()[5..], end);
    assert Apply(false, Racing(v, Read(0), Read(0)), ReadMark(1)) == Racing(v, Decided(0), Read(0));
    RunSplits(false, Racing(v, Read(0), Read(0)), Racers()[4..], end);
    assert Apply(false, Racing(v, Read(0), Holding), ReadStandings(2)) == Racing(v, Read(0), Read(0));
    RunSplits(false, Racing(v, Read(0), Holding), Racers()[3..], end);
    assert Apply(false, Racing(v, Holding, Holding), ReadStandings(1)) == Racing(v, Read(0), Holding);
    RunSplits(false, Racing(v, Holding, Holding), Racers()[2..], end);
  }

  lemma RaceLocks(v: Version)
    requires v.digest.anyPredictions
    ensures Doubles(Racing(v, Waiting, Waiting), Racers())
  {
    RaceReads(v);
    var end := After(false, Racing(v, Holding, Holding), Racers()[2..]);
    assert Apply(false, Racing(v, Holding, Waiting), Acquire(2)) == Racing(v, Holding, Holding);
    RunSplits(false, Racing(v, Holding, Waiting), Racers()[1..], end);
    assert Apply(false, Racing(v, Waiting, Waiting), Acquire(1)) == Racing(v, Holding, Waiting);
    RunSplits(false, Racing(v, Waiting, Waiting), Racers(), end);
  }

  lemma RaceBegins(v: Version, steps: seq<Step>)
    requires Doubles(Racing(v, Waiting, Waiting), steps)
    ensures Doubles(Changed(START, v), [Begin(1), Begin(2)] + steps)
  {
    var end := After(false, Racing(v, Waiting, Waiting), steps);
    var told := Changed(START, v);
    var begun := Apply(false, told, Begin(1));
    assert Apply(false, begun, Begin(2)) == Racing(v, Waiting, Waiting);
    var second := [Begin(2)] + steps;
    assert second[1..] == steps;
    RunSplits(false, begun, second, end);
    var both := [Begin(1), Begin(2)] + steps;
    assert both[1..] == second;
    RunSplits(false, told, both, end);
  }

  lemma RaceTold(v: Version, change: Step, steps: seq<Step>)
    requires change.Change? && Apply(false, START, change) == Changed(START, v)
    requires Doubles(Changed(START, v), steps)
    ensures Doubles(START, [change] + steps)
  {
    var all := [change] + steps;
    assert all[1..] == steps;
    RunSplits(false, START, all, After(false, Changed(START, v), steps));
  }

  /** Without the lock, any event somebody predicted can be announced twice for
      one change of the mark. */
  lemma WithoutLockTwoRecaps(standings: seq<Standing>)
    requires AnyPredictions(standings)
    ensures Doubles(START, Race(standings))
  {
    var v := Version(standings, DigestOf(standings));
    RaceLocks(v);
    RaceBegins(v, Racers());
    RaceTold(v, Change(standings), [Begin(1), Begin(2)] + Racers());
    assert Race(standings) == [Change(standings)] + ([Begin(1), Begin(2)] + Racers());
  }

  // ---------- Medals of one version, mark of another ----------

  /** A pass that nothing gets in the way of. */
  function Pass(): seq<Step> {
    [Begin(1), Acquire(1), ReadStandings(1), ReadMark(1), Commit(1, true)]
  }

  /** After it, the mark and, if somebody had predicted, the medals are of the
      current version. */
  function Passed(w: World): World
    requires w.history != []
  {
    var last := |w.history| - 1;
    var d := w.history[last].digest;
    w.(chat := Written(w.chat, d, true), marked := Some(last),
       awarded := if d.anyPredictions then Some(last) else w.awarded, marks := w.marks + [d.hash])
  }

  lemma Prepend(w: World, s: Step, next: World, rest: seq<Step>)
    requires Enabled(true, w, s) && next == Apply(true, w, s) && Possible(true, next, rest)
    ensures Possible(true, w, [s] + rest) && After(true, w, [s] + rest) == After(true, next, rest)
  {
    assert ([s] + rest)[1..] == rest;
  }

  lemma PassRuns(w: World, rest: seq<Step>)
    requires w.history != [] && w.lock.None? && w.jobs == map[]
    requires !UpToDate(w.chat, w.history[|w.history| - 1].digest) && Possible(true, Passed(w), rest)
    ensures Possible(true, w, Pass() + rest) && After(true, w, Pass() + rest) == After(true, Passed(w), rest)
  {
    var last := |w.history| - 1;
    var begun := w.(jobs := map[1 := Waiting]);
    var held := w.(jobs := map[1 := Holding], lock := Some(1));
    var read := held.(jobs := map[1 := Read(last)]);
    var decided := held.(jobs := map[1 := Decided(last)]);
    assert decided.jobs - {1} == map[];
    Prepend(decided, Commit(1, true), Passed(w), rest);
    assert read.jobs[1 := Decided(last)] == decided.jobs;
    Prepend(read, ReadMark(1), decided, [Commit(1, true)] + rest);
    assert held.jobs[1 := Read(last)] == read.jobs;
    Prepend(held, ReadStandings(1), read, [ReadMark(1)] + ([Commit(1, true)] + rest));
    assert begun.jobs[1 := Holding] == held.jobs;
    Prepend(begun, Acquire(1), held, [ReadStandings(1)] + ([ReadMark(1)] + ([Commit(1, true)] + rest)));
    var most := [Acquire(1)] + ([ReadStandings(1)] + ([ReadMark(1)] + ([Commit(1, true)] + rest)));
    Prepend(w, Begin(1), begun, most);
    assert Pass() + rest == [Begin(1)] + most;
  }

  /** An event somebody predicted is closed, its standings change to others that
      nobody predicted, and it is closed again: the mark is of the second
      standings, the medals stay those of the first. */
  lemma MedalsOutliveTheirMark(some: seq<Standing>, none: seq<Standing>)
    requires AnyPredictions(some) && !AnyPredictions(none) && !SameRows(some, none)
    ensures var steps := [Change(some)] + (Pass() + ([Change(none)] + Pass()));
            && Possible(true, START, steps)
            && var w := After(true, START, steps);
               && w.marked == Some(1) && w.awarded == Some(0)
               && w.chat.mark == Some(CompletionHash(none)) && w.chat.medals == MedalsOf(some)
  {
    HashInjective(some, none);
    var first, second := Version(some, DigestOf(some)), Version(none, DigestOf(none));
    var told := Changed(START, first);
    var once := Passed(told);
    var retold := Changed(once, second);
    var rest := [];
    PassRuns(retold, rest);
    assert Pass() + rest == Pass();
    Prepend(once, Change(none), retold, Pass());
    PassRuns(told, [Change(none)] + Pass());
    Prepend(START, Change(some), told, Pass() + ([Change(none)] + Pass()));
  }
}
