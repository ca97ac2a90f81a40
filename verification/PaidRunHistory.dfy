/** Whole histories of the billed run: ticks of the scheduled job, with or
    without the weekly gate in front (internal/app/ranking_sync_gate.go,
    internal/app/enrichment_sync.go), interleaved with the remote side's own
    changes and with the loss of the record. */
module PaidRunHistory {
  import opened Numerals
  import opened Wrappers
  import opened WeekClock
  import opened PaidRun

  // ---------- The weekly gate ----------

  const END_OF_DAY_HOUR: int := 23

  predicate CollectedIn(rec: Option<ProviderRun>, week: int) {
    rec.Some? && rec.value.status.Collected? && rec.value.periodStart >= week
  }

  predicate ShouldRun(rec: Option<ProviderRun>, now: int) {
    var week := StartOfWeek(now);
    !CollectedIn(rec, week) && now >= week + END_OF_DAY_HOUR * HOUR
  }

  // ---------- The world ----------

  /** How a remote run stands to this provider: not its own, started but never
      recorded, followed by the record, given up after the patience ran out,
      or followed by a record that was lost. */
  datatype Fate = Foreign | Unrecorded | Followed | GivenUp | Forgotten

  datatype Remote = Remote(status: RemoteStatus, finishedAt: Option<int>, mode: string, fate: Fate, startedAt: int)

  /** What has happened, counted: a run accepted for a period, an accepted
      run whose record was not saved, a request without a usable answer, a run
      such a request started all the same, a lost record, a ranking handed to
      the caller. */
  datatype Entry = Accepted(period: int) | Unsaved(period: int) | NoAnswer(period: int) | Surfaced(period: int)
                 | Lost(period: int) | Result(period: int) | ResultFrom(id: string)

  datatype World = World(now: int, rec: Option<ProviderRun>, remote: map<string, Remote>, log: multiset<Entry>)

  /** gate is the instant at which the gate was asked; None is a tick with no
      gate in front. A run surfaces when a request that got no usable answer
      turns out to have started it. */
  datatype Step = Run(gate: Option<int>, t: Tick)
                | Finish(id: string, status: RemoteStatus, at: int)
                | Appear(id: string, run: Remote)
                | Surface(id: string, startedAt: int)
                | LoseRecord

  predicate ReportsTruly(w: World, run: RunInfo) {
    run.id in w.remote && run.status == w.remote[run.id].status && run.finishedAt == w.remote[run.id].finishedAt
  }

  /** An answer that is given is true; any call may fail instead. */
  predicate Honest(w: World, t: Tick) {
    && (t.info.Info? && w.rec.Some? && w.rec.value.runId != "" ==>
          t.info.run.id == w.rec.value.runId && ReportsTruly(w, t.info.run))
    && (t.list.Listed? ==>
          forall i :: 0 <= i < |t.list.runs| ==> ReportsTruly(w, t.list.runs[i]) && t.list.runs[i].status.Succeeded?)
    && (forall id :: id in t.outputs && t.outputs[id].Output? && id in w.remote ==> t.outputs[id].mode == w.remote[id].mode)
    && (t.post.Posted? ==> t.post.id !in w.remote)
  }

  predicate Enabled(w: World, s: Step) {
    match s
    case Run(gate, t) =>
      Honest(w, t) && w.now <= t.now <= t.later && (gate.Some? ==> w.now <= gate.value <= t.now)
    case Finish(id, status, at) => id in w.remote && w.remote[id].status.InFlight? && !status.InFlight? && at <= w.now
    case Appear(id, run) => id !in w.remote && id != "" && run.fate.Foreign?
    case Surface(id, startedAt) =>
      var period := StartOfWeek(startedAt);
      id !in w.remote && id != "" && startedAt <= w.now && w.log[Surfaced(period)] < w.log[NoAnswer(period)]
    case LoseRecord => true
  }

  predicate Fetches(w: World, s: Step) {
    s.Run? && (s.gate.Some? ==> ShouldRun(w.rec, s.gate.value))
  }

  /** The entries of one tick, from what it sent, what came of it, whether
      its save was confirmed and what it returned. */
  function Logged(p: int, sends: bool, posts: bool, saved: bool, r: FetchResult): multiset<Entry> {
    (if posts then multiset{Accepted(p)} else multiset{}) +
    (if posts && !saved then multiset{Unsaved(p)} else multiset{}) +
    (if sends && !posts then multiset{NoAnswer(p)} else multiset{}) +
    (if r.Ranked? then multiset{Result(p), ResultFrom(r.runId)} else multiset{})
  }

  function FollowedRun(rec: Option<ProviderRun>): string {
    if rec.Some? then rec.value.runId else ""
  }

  function Refated(remote: map<string, Remote>, id: string, fate: Fate): map<string, Remote> {
    if id in remote && remote[id].fate.Followed? then remote[id := remote[id].(fate := fate)] else remote
  }

  function RemoteAfter(cfg: Config, w: World, t: Tick, posts: bool, rec: Option<ProviderRun>): map<string, Remote> {
    if posts && t.post.Posted? then
      w.remote[t.post.id :=
        Remote(InFlight, None, cfg.mode, if FollowedRun(rec) == t.post.id then Followed else Unrecorded, t.now)]
    else if FollowedRun(rec) == "" then Refated(w.remote, FollowedRun(w.rec), GivenUp)
    else w.remote
  }

  function AfterTick(cfg: Config, w: World, t: Tick, sends: bool, posts: bool, e: Effect): World {
    World(t.later, e.rec, RemoteAfter(cfg, w, t, posts, e.rec),
          w.log + Logged(StartOfWeek(t.now), sends, posts, t.save.Saved?, e.result))
  }

  function Apply(cfg: Config, w: World, s: Step): World {
    match s
    case Run(_, t) =>
      if !Fetches(w, s) then w.(now := t.later)
      else AfterTick(cfg, w, t, Sends(cfg, w.rec, t), Posts(cfg, w.rec, t), Fetch(cfg, w.rec, t))
    case Finish(id, status, at) =>
      if id in w.remote then w.(remote := w.remote[id := w.remote[id].(status := status, finishedAt := Some(at))]) else w
    case Appear(id, run) => w.(remote := w.remote[id := run])
    case Surface(id, startedAt) =>
      w.(remote := w.remote[id := Remote(InFlight, None, cfg.mode, Unrecorded, startedAt)],
         log := w.log + multiset{Surfaced(StartOfWeek(startedAt))})
    case LoseRecord =>
      w.(rec := None, remote := Refated(w.remote, FollowedRun(w.rec), Forgotten),
         log := w.log + multiset{Lost(StartOfWeek(w.now))})
  }

  predicate Possible(cfg: Config, w: World, steps: seq<Step>)
    decreases |steps|
  {
    steps == [] || (Enabled(w, steps[0]) && Possible(cfg, Apply(cfg, w, steps[0]), steps[1..]))
  }

  function After(cfg: Config, w: World, steps: seq<Step>): World
    decreases |steps|
  {
    if steps == [] then w else After(cfg, Apply(cfg, w, steps[0]), steps[1..])
  }

  /** Nothing has been started yet; the remote side may hold any runs. */
  predicate Fresh(w: World) {
    w.rec.None? && w.log == multiset{} && "" !in w.remote && forall id :: id in w.remote ==> w.remote[id].fate.Foreign?
  }

  // ---------- What every step keeps ----------

  predicate RecordInv(cfg: Config, w: World) {
    && "" !in w.remote
    && (w.rec.Some? ==>
          var run := w.rec.value;
          && run.periodStart <= StartOfWeek(w.now) && run.attempts <= cfg.MaxRuns()
          && (run.startedAt.Some? ==> run.startedAt.value <= w.now)
          && (run.status.Abandoned? <==> run.runId == "")
          && (run.runId != "" ==> run.runId in w.remote)
          && (run.status.Collected? ==> w.remote[run.runId].status.Succeeded?))
  }

  lemma AdoptTargets(cfg: Config, rec: Option<ProviderRun>, runs: seq<RunInfo>, period: int, t: Tick)
    ensures var e := AdoptFrom(cfg, rec, runs, period, t);
            e.Some? ==>
              || (e.value.rec == rec && e.value.result.Failed?)
              || exists i :: && 0 <= i < |runs| && FromPeriod(runs[i], period) && Readable(cfg, t, runs[i].id)
                             && e.value == MarkCollected(rec, runs[i].id, 0, period, t)
  {
    if runs != [] {
      if NotToAdopt(cfg, runs[0], period, t) {
        AdoptTargets(cfg, rec, runs[1..], period, t);
      } else if Readable(cfg, t, runs[0].id) {
        assert FromPeriod(runs[0], period);
      }
    }
  }

  /** The record follows a run that is still in flight or has succeeded. */
  predicate Held(w: World) {
    FollowedRun(w.rec) in w.remote && !w.remote[FollowedRun(w.rec)].status.Unsuccessful?
  }

  /** Everything a tick can do: leave the record as it is, give a run up,
      collect or adopt a finished one, or start one. */
  predicate Shape(cfg: Config, w: World, t: Tick, posts: bool, e: Effect) {
    var period := StartOfWeek(t.now);
    || (e.rec == w.rec && !e.result.Ranked?
        && (posts ==> t.post.Posted? && t.post.id != "" && t.post.id !in w.remote && !t.save.Saved? && !Held(w)))
    || (&& w.rec.Some? && w.rec.value.status.Running? && Held(w) && !e.result.Ranked? && !posts
        && OutOfPatience(w.rec.value, t.later)
        && e.rec == Some(w.rec.value.(runId := "", status := Abandoned)))
    || (&& !posts && e.rec.Some? && e.rec.value.status.Collected? && e.rec.value.periodStart == period
        && e.rec.value.startedAt == Some(t.later)
        && e.rec.value.attempts == (if w.rec.Some? && Held(w) then w.rec.value.attempts else 0)
        && e.rec.value.runId in w.remote && w.remote[e.rec.value.runId].status.Succeeded?
        && (Held(w) ==> e.rec.value.runId == FollowedRun(w.rec))
        && (e.result.Ranked? ==> e.result.runId == e.rec.value.runId))
    || (&& posts && !e.result.Ranked? && t.post.Posted? && t.post.id != "" && t.post.id !in w.remote && !Held(w)
        && AttemptsIn(w.rec, period) < cfg.MaxRuns()
        && e.rec == Some(ProviderRun(t.post.id, Running, AttemptsIn(w.rec, period) + 1, period, Some(t.now))))
  }

  lemma FetchShapes(cfg: Config, w: World, t: Tick)
    requires RecordInv(cfg, w) && Honest(w, t)
    ensures Shape(cfg, w, t, Posts(cfg, w.rec, t), Fetch(cfg, w.rec, t))
  {
    if t.list.Listed? {
      AdoptTargets(cfg, w.rec, t.list.runs, StartOfWeek(t.now), t);
    }
  }

  lemma TickKeepsRecord(cfg: Config, w: World, t: Tick, sends: bool, posts: bool, e: Effect)
    requires RecordInv(cfg, w) && Shape(cfg, w, t, posts, e) && w.now <= t.now <= t.later
    ensures RecordInv(cfg, AfterTick(cfg, w, t, sends, posts, e))
  {
    WeeksAreOrdered(w.now, t.now);
    WeeksAreOrdered(t.now, t.later);
  }

  lemma StepKeepsRecord(cfg: Config, w: World, s: Step)
    requires RecordInv(cfg, w) && Enabled(w, s)
    ensures RecordInv(cfg, Apply(cfg, w, s))
  {
    if s.Run? {
      if Fetches(w, s) {
        FetchShapes(cfg, w, s.t);
        TickKeepsRecord(cfg, w, s.t, Sends(cfg, w.rec, s.t), Posts(cfg, w.rec, s.t), Fetch(cfg, w.rec, s.t));
      } else {
        WeeksAreOrdered(w.now, s.t.later);
      }
    }
  }

  // ---------- The budget ----------

  /** This many whole budgets. */
  function Whole(cfg: Config, budgets: nat): nat {
    if budgets == 0 then 0 else Whole(cfg, budgets - 1) + cfg.MaxRuns()
  }

  lemma {:induction false} WholeIsProduct(cfg: Config, budgets: nat)
    ensures Whole(cfg, budgets) == cfg.MaxRuns() * budgets
  {
    if budgets > 0 {
      WholeIsProduct(cfg, budgets - 1);
    }
  }

  predicate Covered(cfg: Config, now: int, rec: Option<ProviderRun>, p: int, accepted: nat, unsaved: nat, forLosses: nat) {
    && accepted <= cfg.MaxRuns() + forLosses + unsaved
    && (p > StartOfWeek(now) ==> accepted == 0)
    && (p == StartOfWeek(now) && !(rec.Some? && rec.value.status.Collected?) ==>
          accepted <= AttemptsIn(rec, p) + forLosses + unsaved)
  }

  /** For one period: what was accepted is covered by the recorded attempts,
      or by a whole budget once the record points at a collected run, from
      which no run is ever started. */
  predicate BudgetInv(cfg: Config, w: World, p: int) {
    && Covered(cfg, w.now, w.rec, p, w.log[Accepted(p)], w.log[Unsaved(p)], Whole(cfg, w.log[Lost(p)]))
    && w.log[Surfaced(p)] <= w.log[NoAnswer(p)]
  }

  lemma TickCounts(cfg: Config, w: World, t: Tick, sends: bool, posts: bool, e: Effect, p: int)
    ensures var v, now := AfterTick(cfg, w, t, sends, posts, e).log, p == StartOfWeek(t.now);
            && v[Lost(p)] == w.log[Lost(p)] && v[Surfaced(p)] == w.log[Surfaced(p)] && v[NoAnswer(p)] >= w.log[NoAnswer(p)]
            && v[Accepted(p)] == w.log[Accepted(p)] + (if posts && now then 1 else 0)
            && v[Unsaved(p)] == w.log[Unsaved(p)] + (if posts && !t.save.Saved? && now then 1 else 0)
  {
  }

  lemma TickStaysCovered(cfg: Config, w: World, t: Tick, posts: bool, e: Effect,
                         p: int, accepted: nat, unsaved: nat, forLosses: nat)
    requires RecordInv(cfg, w) && Shape(cfg, w, t, posts, e) && w.now <= t.now <= t.later
    requires Covered(cfg, w.now, w.rec, p, accepted, unsaved, forLosses)
    ensures var now := p == StartOfWeek(t.now);
            Covered(cfg, t.later, e.rec, p, accepted + (if posts && now then 1 else 0),
                    unsaved + (if posts && !t.save.Saved? && now then 1 else 0), forLosses)
  {
    WeeksAreOrdered(w.now, t.now);
    WeeksAreOrdered(t.now, t.later);
  }

  lemma TickKeepsBudget(cfg: Config, w: World, t: Tick, sends: bool, posts: bool, e: Effect, p: int)
    requires RecordInv(cfg, w) && Shape(cfg, w, t, posts, e) && w.now <= t.now <= t.later
    requires BudgetInv(cfg, w, p)
    ensures BudgetInv(cfg, AfterTick(cfg, w, t, sends, posts, e), p)
  {
    TickCounts(cfg, w, t, sends, posts, e, p);
    TickStaysCovered(cfg, w, t, posts, e, p, w.log[Accepted(p)], w.log[Unsaved(p)], Whole(cfg, w.log[Lost(p)]));
  }

  lemma StepKeepsBudget(cfg: Config, w: World, s: Step, p: int)
    requires RecordInv(cfg, w) && Enabled(w, s) && BudgetInv(cfg, w, p)
    ensures BudgetInv(cfg, Apply(cfg, w, s), p)
  {
    if s.Run? {
      if Fetches(w, s) {
        FetchShapes(cfg, w, s.t);
        TickKeepsBudget(cfg, w, s.t, Sends(cfg, w.rec, s.t), Posts(cfg, w.rec, s.t), Fetch(cfg, w.rec, s.t), p);
      } else {
        WeeksAreOrdered(w.now, s.t.later);
      }
    } else if s.LoseRecord? {
      var v := Apply(cfg, w, s);
      assert v.log[Lost(p)] == w.log[Lost(p)] + if p == StartOfWeek(w.now) then 1 else 0;
      assert Whole(cfg, w.log[Lost(p)] + 1) == Whole(cfg, w.log[Lost(p)]) + cfg.MaxRuns();
    }
  }

  lemma {:induction false} HistoryKeepsBudget(cfg: Config, w: World, steps: seq<Step>, p: int)
    requires RecordInv(cfg, w) && BudgetInv(cfg, w, p) && Possible(cfg, w, steps)
    ensures RecordInv(cfg, After(cfg, w, steps)) && BudgetInv(cfg, After(cfg, w, steps), p)
    decreases |steps|
  {
    if steps != [] {
      StepKeepsRecord(cfg, w, steps[0]);
      StepKeepsBudget(cfg, w, steps[0], p);
      HistoryKeepsBudget(cfg, Apply(cfg, w, steps[0]), steps[1..], p);
    }
  }

  /** The runs this provider has started in a period, whether it knows of them
      or not. */
  function Started(log: multiset<Entry>, p: int): nat {
    log[Accepted(p)] + log[Surfaced(p)]
  }

  /** Over every history, the runs accepted in one week stay within the
      configured number, plus one for each run whose record could not be
      saved, plus a whole budget for each loss of the record; and all runs
      started, within that plus one for each request without a usable answer. */
  lemma WeeklyBudget(cfg: Config, w: World, steps: seq<Step>, p: int)
    requires Fresh(w) && Possible(cfg, w, steps)
    ensures var log := After(cfg, w, steps).log;
            && log[Accepted(p)] <= cfg.MaxRuns() * (1 + log[Lost(p)]) + log[Unsaved(p)]
            && Started(log, p) <= cfg.MaxRuns() * (1 + log[Lost(p)]) + log[Unsaved(p)] + log[NoAnswer(p)]
  {
    HistoryKeepsBudget(cfg, w, steps, p);
    WholeIsProduct(cfg, After(cfg, w, steps).log[Lost(p)] + 1);
  }

  /** Requests that get no usable answer are not counted by any record, so a
      week can send any number of them. */
  function Unanswered(now: int, n: nat): seq<Step> {
    if n == 0 then [] else
      [Run(None, Tick(now, now, true, InfoError, Listed([]), map[], PostError, Saved))] + Unanswered(now, n - 1)
  }

  lemma {:induction false} UnansweredAreUnbounded(cfg: Config, w: World, n: nat)
    requires w.rec.None?
    ensures Possible(cfg, w, Unanswered(w.now, n))
    ensures var v, p := After(cfg, w, Unanswered(w.now, n)), StartOfWeek(w.now);
            && v.log[NoAnswer(p)] == w.log[NoAnswer(p)] + n
            && v.log[Accepted(p)] == w.log[Accepted(p)] && v.log[Unsaved(p)] == w.log[Unsaved(p)]
    decreases n
  {
    if n > 0 {
      var steps := Unanswered(w.now, n);
      assert AttemptsIn(w.rec, StartOfWeek(w.now)) == 0;
      assert steps[1..] == Unanswered(w.now, n - 1);
      UnansweredAreUnbounded(cfg, Apply(cfg, w, steps[0]), n - 1);
    }
  }

  // ---------- One run at a time ----------

  /** For one remote run still in flight: a followed run is the record's own
      and a given-up one is older than the patience. */
  predicate FateInv(w: World, id: string) {
    id in w.remote && w.remote[id].status.InFlight? ==>
      && (w.remote[id].fate.Followed? ==>
            w.rec.Some? && w.rec.value.runId == id && w.rec.value.startedAt == Some(w.remote[id].startedAt))
      && (w.remote[id].fate.GivenUp? ==> w.now - w.remote[id].startedAt > RUN_PATIENCE)
  }

  lemma TickKeepsFate(cfg: Config, w: World, t: Tick, sends: bool, posts: bool, e: Effect, id: string)
    requires RecordInv(cfg, w) && Shape(cfg, w, t, posts, e) && w.now <= t.now <= t.later
    requires FateInv(w, id)
    ensures FateInv(AfterTick(cfg, w, t, sends, posts, e), id)
  {
  }

  lemma {:induction false} HistoryKeepsFate(cfg: Config, w: World, steps: seq<Step>, id: string)
    requires RecordInv(cfg, w) && FateInv(w, id) && Possible(cfg, w, steps)
    ensures RecordInv(cfg, After(cfg, w, steps)) && FateInv(After(cfg, w, steps), id)
    decreases |steps|
  {
    if steps != [] {
      var s := steps[0];
      StepKeepsRecord(cfg, w, s);
      if Fetches(w, s) {
        FetchShapes(cfg, w, s.t);
        TickKeepsFate(cfg, w, s.t, Sends(cfg, w.rec, s.t), Posts(cfg, w.rec, s.t), Fetch(cfg, w.rec, s.t), id);
      }
      HistoryKeepsFate(cfg, Apply(cfg, w, s), steps[1..], id);
    }
  }

  lemma {:induction false} NothingToAdopt(cfg: Config, rec: Option<ProviderRun>, runs: seq<RunInfo>, period: int, t: Tick)
    ensures AdoptFrom(cfg, rec, runs, period, t).None? <==> forall i :: 0 <= i < |runs| ==> NotToAdopt(cfg, runs[i], period, t)
  {
    if runs != [] {
      NothingToAdopt(cfg, rec, runs[1..], period, t);
      assert forall i :: 1 <= i < |runs| ==> runs[i] == runs[1..][i - 1];
    }
  }

  /** After any history, a tick that starts a run finds none of the runs this
      provider had on record still in flight, unless it was given up more
      than the patience ago; and its scan of finished runs came back whole,
      with nothing of this period and this ranking in it. */
  lemma OneRunAtATime(cfg: Config, w: World, steps: seq<Step>, t: Tick, id: string)
    requires Fresh(w) && Possible(cfg, w, steps)
    requires var v := After(cfg, w, steps); Enabled(v, Run(None, t)) && Posts(cfg, v.rec, t)
    ensures var v := After(cfg, w, steps);
            id in v.remote && v.remote[id].status.InFlight? && (v.remote[id].fate.Followed? || v.remote[id].fate.GivenUp?) ==>
              v.remote[id].fate.GivenUp? && t.now - v.remote[id].startedAt > RUN_PATIENCE
    ensures !t.list.ListError?
    ensures t.list.Listed? ==> forall i :: 0 <= i < |t.list.runs| ==> NotToAdopt(cfg, t.list.runs[i], StartOfWeek(t.now), t)
  {
    var v := After(cfg, w, steps);
    HistoryKeepsFate(cfg, w, steps, id);
    FetchShapes(cfg, v, t);
    if t.list.Listed? {
      NothingToAdopt(cfg, v.rec, t.list.runs, StartOfWeek(t.now), t);
    }
  }

  // ---------- Whose ranking, and of which week ----------

  /** Every ranking handed out is of this provider's own mode, from a run
      that succeeded; one that was adopted finished inside the period it is
      recorded for. */
  lemma RankingsAreOurs(cfg: Config, w: World, t: Tick)
    requires RecordInv(cfg, w) && Honest(w, t)
    requires Fetch(cfg, w.rec, t).result.Ranked?
    ensures var e, period := Fetch(cfg, w.rec, t), StartOfWeek(t.now);
            var id := e.result.runId;
            && id in w.remote && w.remote[id].mode == cfg.mode && w.remote[id].status.Succeeded?
            && CollectedIn(e.rec, period) && e.rec.value.runId == id
            && (id != FollowedRun(w.rec) ==> w.remote[id].finishedAt.Some? && w.remote[id].finishedAt.value >= period)
  {
    if t.list.Listed? {
      AdoptTargets(cfg, w.rec, t.list.runs, StartOfWeek(t.now), t);
    }
  }

  /** The collecting path asks neither the status nor the week of the record:
      last week's collected run is collected once more and stamped with this
      week, however long ago it finished. */
  lemma CollectedRunIsCollectedAgain(cfg: Config, w: World, t: Tick)
    requires RecordInv(cfg, w) && Honest(w, t) && t.readable
    requires w.rec.Some? && w.rec.value.status.Collected?
    requires t.info.Info? && Readable(cfg, t, w.rec.value.runId) && t.save.Saved?
    ensures Fetch(cfg, w.rec, t) ==
            Effect(Ranked(w.rec.value.runId),
                   Some(w.rec.value.(periodStart := StartOfWeek(t.now), startedAt := Some(t.later))))
  {
  }

  predicate FinishedSince(w: World, id: string, period: int) {
    id in w.remote && w.remote[id].finishedAt.Some? && w.remote[id].finishedAt.value >= period
  }

  /** The record follows a successful run that did not finish in the period. */
  predicate FollowsOldSuccess(w: World, period: int) {
    var id := FollowedRun(w.rec);
    id in w.remote && w.remote[id].status.Succeeded? && !FinishedSince(w, id, period)
  }

  /** A ranking handed out is from a run that finished in the week it is stamped
      with, exactly unless the record the tick starts from follows an older
      successful run. */
  lemma RankingIsThisWeeksExactlyWhen(cfg: Config, w: World, t: Tick)
    requires RecordInv(cfg, w) && Honest(w, t) && Fetch(cfg, w.rec, t).result.Ranked?
    ensures var id, week := Fetch(cfg, w.rec, t).result.runId, StartOfWeek(t.now);
            FinishedSince(w, id, week) <==> !FollowsOldSuccess(w, week)
  {
    RankingsAreOurs(cfg, w, t);
    FetchShapes(cfg, w, t);
  }

  predicate KeepsRecord(steps: seq<Step>) {
    forall i :: 0 <= i < |steps| ==> !steps[i].LoseRecord?
  }

  lemma CollectedNeverSends(cfg: Config, w: World, t: Tick)
    requires RecordInv(cfg, w) && Honest(w, t)
    requires w.rec.Some? && w.rec.value.status.Collected?
    ensures !Sends(cfg, w.rec, t)
  {
  }

  /** So once a record points at a collected run, no history without a loss
      of the record ever sends another request or hands out another run's
      ranking: the source stays at that one run for good. */
  lemma {:induction false} CollectedIsForGood(cfg: Config, w: World, steps: seq<Step>, p: int, other: string)
    requires RecordInv(cfg, w) && Possible(cfg, w, steps) && KeepsRecord(steps)
    requires w.rec.Some? && w.rec.value.status.Collected? && other != w.rec.value.runId
    ensures var v := After(cfg, w, steps);
            && v.rec.Some? && v.rec.value.status.Collected? && v.rec.value.runId == w.rec.value.runId
            && v.log[Accepted(p)] == w.log[Accepted(p)] && v.log[NoAnswer(p)] == w.log[NoAnswer(p)]
            && v.log[ResultFrom(other)] == w.log[ResultFrom(other)]
    decreases |steps|
  {
    if steps != [] {
      var s := steps[0];
      StepKeepsRecord(cfg, w, s);
      if Fetches(w, s) {
        FetchShapes(cfg, w, s.t);
        CollectedNeverSends(cfg, w, s.t);
      }
      CollectedIsForGood(cfg, Apply(cfg, w, s), steps[1..], p, other);
    }
  }

  // ---------- The gate in front ----------

  /** The gate is open from 23:00 on a Monday to the end of that week, until a
      ranking of that or a later week is on record. */
  lemma GateWindow(rec: Option<ProviderRun>, now: int)
    ensures var monday := 4 * DAY + (now - 4 * DAY) / WEEK * WEEK;
            ShouldRun(rec, now) <==>
              && monday + 23 * HOUR <= now < monday + WEEK
              && !(rec.Some? && rec.value.status.Collected? && rec.value.periodStart >= monday)
  {
    WeekIsFloor(now);
    WeekContains(now);
  }

  predicate Gated(steps: seq<Step>) {
    forall i :: 0 <= i < |steps| ==> (steps[i].Run? ==> steps[i].gate.Some?)
  }

  predicate ResultInv(w: World, p: int) {
    && w.log[Result(p)] <= 1 + w.log[Lost(p)]
    && (p > StartOfWeek(w.now) ==> w.log[Result(p)] == 0)
    && (p == StartOfWeek(w.now) && !CollectedIn(w.rec, p) ==> w.log[Result(p)] <= w.log[Lost(p)])
  }

  lemma TickKeepsResults(cfg: Config, w: World, t: Tick, sends: bool, posts: bool, e: Effect, gate: int, p: int)
    requires RecordInv(cfg, w) && Shape(cfg, w, t, posts, e) && w.now <= gate <= t.now <= t.later
    requires ShouldRun(w.rec, gate) && ResultInv(w, p)
    ensures ResultInv(AfterTick(cfg, w, t, sends, posts, e), p)
  {
    var v := AfterTick(cfg, w, t, sends, posts, e);
    WeeksAreOrdered(w.now, gate);
    WeeksAreOrdered(gate, t.now);
    WeeksAreOrdered(t.now, t.later);
    assert v.log[Lost(p)] == w.log[Lost(p)];
    assert v.log[Result(p)] == w.log[Result(p)] + if e.result.Ranked? && p == StartOfWeek(t.now) then 1 else 0;
  }

  lemma StepKeepsResults(cfg: Config, w: World, s: Step, p: int)
    requires RecordInv(cfg, w) && Enabled(w, s) && (s.Run? ==> s.gate.Some?) && ResultInv(w, p)
    ensures ResultInv(Apply(cfg, w, s), p)
  {
    if s.Run? {
      if Fetches(w, s) {
        FetchShapes(cfg, w, s.t);
        TickKeepsResults(cfg, w, s.t, Sends(cfg, w.rec, s.t), Posts(cfg, w.rec, s.t), Fetch(cfg, w.rec, s.t), s.gate.value, p);
      } else {
        WeeksAreOrdered(w.now, s.t.later);
      }
    } else if s.LoseRecord? {
      assert Apply(cfg, w, s).log[Lost(p)] == w.log[Lost(p)] + if p == StartOfWeek(w.now) then 1 else 0;
    }
  }

  lemma {:induction false} HistoryKeepsResults(cfg: Config, w: World, steps: seq<Step>, p: int)
    requires RecordInv(cfg, w) && ResultInv(w, p) && Possible(cfg, w, steps) && Gated(steps)
    ensures ResultInv(After(cfg, w, steps), p)
    decreases |steps|
  {
    if steps != [] {
      StepKeepsRecord(cfg, w, steps[0]);
      StepKeepsResults(cfg, w, steps[0], p);
      HistoryKeepsResults(cfg, Apply(cfg, w, steps[0]), steps[1..], p);
    }
  }

  /** However the ticks are spaced, the gated job hands out at most one
      ranking a week, plus one for each loss of the record. */
  lemma OneRankingPerWeek(cfg: Config, w: World, steps: seq<Step>, p: int)
    requires Fresh(w) && Possible(cfg, w, steps) && Gated(steps)
    ensures var log := After(cfg, w, steps).log; log[Result(p)] <= 1 + log[Lost(p)]
  {
    HistoryKeepsResults(cfg, w, steps, p);
  }

  lemma TickKeepsCollected(w: World, t: Tick, cfg: Config, posts: bool, e: Effect, week: int)
    requires RecordInv(cfg, w) && Shape(cfg, w, t, posts, e) && CollectedIn(w.rec, week)
    requires StartOfWeek(w.now) <= StartOfWeek(t.now)
    ensures CollectedIn(e.rec, week)
  {
  }

  /** A week on record as collected stays so, or gives way to a later one. */
  lemma {:induction false} CollectedStays(cfg: Config, w: World, steps: seq<Step>, week: int)
    requires RecordInv(cfg, w) && Possible(cfg, w, steps) && KeepsRecord(steps) && CollectedIn(w.rec, week)
    ensures CollectedIn(After(cfg, w, steps).rec, week)
    decreases |steps|
  {
    if steps != [] {
      var s := steps[0];
      StepKeepsRecord(cfg, w, s);
      if Fetches(w, s) {
        FetchShapes(cfg, w, s.t);
        WeeksAreOrdered(w.now, s.t.now);
        TickKeepsCollected(w, s.t, cfg, Posts(cfg, w.rec, s.t), Fetch(cfg, w.rec, s.t), week);
      }
      CollectedStays(cfg, Apply(cfg, w, s), steps[1..], week);
    }
  }

  /** A ranking handed out shuts the gate for the rest of its week, whatever
      comes after, as long as the record is not lost. */
  lemma ResultShutsGate(cfg: Config, w: World, s: Step, steps: seq<Step>, now: int)
    requires RecordInv(cfg, w) && Enabled(w, s) && Fetches(w, s) && Fetch(cfg, w.rec, s.t).result.Ranked?
    requires Possible(cfg, Apply(cfg, w, s), steps) && KeepsRecord(steps)
    requires StartOfWeek(now) == StartOfWeek(s.t.now)
    ensures !ShouldRun(After(cfg, Apply(cfg, w, s), steps).rec, now)
  {
    RankingsAreOurs(cfg, w, s.t);
    StepKeepsRecord(cfg, w, s);
    CollectedStays(cfg, Apply(cfg, w, s), steps, StartOfWeek(now));
  }

  // ---------- No silent stall ----------

  /** Until when an unbroken row of pending ticks can last, by the record: the
      patience left for the run in flight, and a patience and a gap between
      ticks for every attempt left. */
  function StallBound(cfg: Config, run: ProviderRun, period: int, gap: nat): int
    requires run.startedAt.Some? && run.attempts <= cfg.MaxRuns()
  {
    run.startedAt.value + RUN_PATIENCE + (cfg.MaxRuns() - AttemptsIn(Some(run), period)) * (RUN_PATIENCE + gap)
  }

  /** The record follows a run in flight whose start was never dated. */
  predicate WaitsUndated(w: World) {
    && w.rec.Some? && w.rec.value.startedAt.None?
    && w.rec.value.runId in w.remote && w.remote[w.rec.value.runId].status.InFlight?
  }

  /** What a pending tick does to the record: nothing, while the followed run
      has patience left, or one more attempt. */
  predicate StillPending(cfg: Config, rec: Option<ProviderRun>, next: Option<ProviderRun>, t: Tick) {
    var period := StartOfWeek(t.now);
    || (next == rec && rec.Some? && rec.value.runId != "" && rec.value.startedAt.Some?
        && t.later - rec.value.startedAt.value <= RUN_PATIENCE)
    || (&& AttemptsIn(rec, period) < cfg.MaxRuns()
        && next.Some? && next.value.runId != "" && next.value.startedAt == Some(t.now) && next.value.periodStart == period
        && next.value.attempts == AttemptsIn(rec, period) + 1)
  }

  lemma PendingShape(cfg: Config, w: World, t: Tick)
    requires RecordInv(cfg, w) && Honest(w, t) && w.now <= t.now <= t.later && !WaitsUndated(w)
    requires Fetch(cfg, w.rec, t).result.Pending?
    ensures StillPending(cfg, w.rec, Fetch(cfg, w.rec, t).rec, t)
  {
    if t.list.Listed? {
      AdoptTargets(cfg, w.rec, t.list.runs, StartOfWeek(t.now), t);
    }
  }

  /** A run in flight, started at most the patience ago, after which the row of
      pending ticks can last no longer than before. */
  predicate Bounded(cfg: Config, rec: Option<ProviderRun>, next: Option<ProviderRun>, t: Tick, gap: nat) {
    var period := StartOfWeek(t.now);
    && next.Some? && next.value.runId != "" && next.value.startedAt.Some? && next.value.attempts <= cfg.MaxRuns()
    && next.value.startedAt.value <= t.now <= next.value.startedAt.value + RUN_PATIENCE
    && StallBound(cfg, next.value, period, gap) <= t.now + RUN_PATIENCE + cfg.MaxRuns() * (RUN_PATIENCE + gap)
    && (rec.Some? && rec.value.runId != "" && rec.value.startedAt.Some? && rec.value.attempts <= cfg.MaxRuns()
        && t.now <= rec.value.startedAt.value + RUN_PATIENCE + gap ==>
          StallBound(cfg, next.value, period, gap) <= StallBound(cfg, rec.value, period, gap))
  }

  lemma PendingIsBounded(cfg: Config, rec: Option<ProviderRun>, next: Option<ProviderRun>, t: Tick, gap: nat)
    requires StillPending(cfg, rec, next, t) && t.now <= t.later
    requires rec.Some? ==> rec.value.attempts <= cfg.MaxRuns()
    requires rec.Some? && rec.value.startedAt.Some? ==> rec.value.startedAt.value <= t.now
    ensures Bounded(cfg, rec, next, t, gap)
  {
    var left := cfg.MaxRuns() - AttemptsIn(next, StartOfWeek(t.now));
    var whole := RUN_PATIENCE + gap;
    MulMonotone(whole, left, cfg.MaxRuns());
    if next != rec && rec.Some? {
      assert (left + 1) * whole == left * whole + whole;
    }
  }

  lemma PendingTick(cfg: Config, w: World, t: Tick, gap: nat)
    requires RecordInv(cfg, w) && Honest(w, t) && w.now <= t.now <= t.later && !WaitsUndated(w)
    requires Fetch(cfg, w.rec, t).result.Pending?
    ensures Bounded(cfg, w.rec, Fetch(cfg, w.rec, t).rec, t, gap)
  {
    PendingShape(cfg, w, t);
    PendingIsBounded(cfg, w.rec, Fetch(cfg, w.rec, t).rec, t, gap);
  }

  /** The ticks of a history that keeps answering "pending", all in one week
      and no further apart than the gap. */
  predicate PendingRow(cfg: Config, w: World, steps: seq<Step>, last: int, gap: nat)
    decreases |steps|
  {
    steps == [] ||
    (&& Enabled(w, steps[0]) && !steps[0].LoseRecord?
     && (steps[0].Run? ==>
           && Fetches(w, steps[0]) && steps[0].t.now <= last + gap && StartOfWeek(steps[0].t.now) == StartOfWeek(last)
           && Fetch(cfg, w.rec, steps[0].t).result.Pending?)
     && PendingRow(cfg, Apply(cfg, w, steps[0]), steps[1..], if steps[0].Run? then steps[0].t.now else last, gap))
  }

  function LastTick(steps: seq<Step>, first: int): int {
    if steps == [] then first
    else LastTick(steps[1..], if steps[0].Run? then steps[0].t.now else first)
  }

  lemma {:induction false} RowEndsByBound(cfg: Config, w: World, steps: seq<Step>, last: int, gap: nat)
    requires RecordInv(cfg, w) && PendingRow(cfg, w, steps, last, gap)
    requires w.rec.Some? && w.rec.value.runId != "" && w.rec.value.startedAt.Some?
    requires last <= w.rec.value.startedAt.value + RUN_PATIENCE
    ensures LastTick(steps, last) <= StallBound(cfg, w.rec.value, StartOfWeek(last), gap)
    decreases |steps|
  {
    if steps == [] {
      assert (cfg.MaxRuns() - AttemptsIn(w.rec, StartOfWeek(last))) * (RUN_PATIENCE + gap) >= 0;
    } else {
      var s := steps[0];
      var v := Apply(cfg, w, s);
      StepKeepsRecord(cfg, w, s);
      if s.Run? {
        PendingTick(cfg, w, s.t, gap);
        RowEndsByBound(cfg, v, steps[1..], s.t.now, gap);
      } else {
        RowEndsByBound(cfg, v, steps[1..], last, gap);
      }
    }
  }

  /** "Pending" cannot go on: inside one week, a row of pending ticks no more
      than a gap apart, behind the gate or not, is over within the patience and
      the whole budget of patiences and gaps. A run in flight whose record was
      written before starts were dated is the one exception, see
      UndatedRunStallsForever. */
  lemma NoSilentStall(cfg: Config, w: World, first: Step, steps: seq<Step>, gap: nat)
    requires RecordInv(cfg, w) && !WaitsUndated(w) && Enabled(w, first)
    requires Fetches(w, first) && Fetch(cfg, w.rec, first.t).result.Pending?
    requires PendingRow(cfg, Apply(cfg, w, first), steps, first.t.now, gap)
    ensures LastTick(steps, first.t.now) - first.t.now <= RUN_PATIENCE + cfg.MaxRuns() * (RUN_PATIENCE + gap)
  {
    PendingTick(cfg, w, first.t, gap);
    StepKeepsRecord(cfg, w, first);
    RowEndsByBound(cfg, Apply(cfg, w, first), steps, first.t.now, gap);
  }

  /** Ticks at these instants that are told the followed run is in flight. */
  function Waiting(run: RunInfo, instants: seq<int>): seq<Step> {
    if instants == [] then []
    else
      [Run(None, Tick(instants[0], instants[0], true, Info(run), Listed([]), map[], PostError, Saved))]
      + Waiting(run, instants[1..])
  }

  predicate AllPending(cfg: Config, w: World, steps: seq<Step>)
    decreases |steps|
  {
    steps == [] ||
    (&& Fetches(w, steps[0]) && Fetch(cfg, w.rec, steps[0].t).result.Pending?
     && AllPending(cfg, Apply(cfg, w, steps[0]), steps[1..]))
  }

  /** A run without a recorded start that stays in flight is waited for at any
      instants whatever: nothing is sent, nothing is given up. */
  lemma {:induction false} UndatedRunStallsForever(cfg: Config, w: World, run: ProviderRun, instants: seq<int>)
    requires w.rec == Some(run) && run.runId != "" && WaitsUndated(w)
    requires forall i, j :: 0 <= i <= j < |instants| ==> w.now <= instants[i] <= instants[j]
    ensures var steps := Waiting(RunInfo(run.runId, InFlight, w.remote[run.runId].finishedAt), instants);
            && Possible(cfg, w, steps) && AllPending(cfg, w, steps)
            && After(cfg, w, steps).rec == w.rec && After(cfg, w, steps).log == w.log
    decreases |instants|
  {
    if instants != [] {
      var info := RunInfo(run.runId, InFlight, w.remote[run.runId].finishedAt);
      var steps := Waiting(info, instants);
      assert steps[1..] == Waiting(info, instants[1..]);
      var v := Apply(cfg, w, steps[0]);
      assert v.rec == w.rec && v.log == w.log && v.remote == w.remote && v.now == instants[0];
      UndatedRunStallsForever(cfg, v, run, instants[1..]);
    }
  }
}
