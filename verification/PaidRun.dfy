/** The billed ranking run (internal/adapter/apifyhltv/provider.go): one fetch
    is a small state machine spread over many scheduler ticks, with the run in
    flight kept in a persisted record. What the remote API and the database
    answer during one tick is the tick's input. */
module PaidRun {
  import opened Wrappers
  import opened WeekClock

  const RUN_PATIENCE: int := 6 * HOUR
  const DEFAULT_MAX_RUNS: nat := 3
  const CACHED_SCAN_LIMIT: nat := 3

  /** maxRuns 0 stands for "not configured". */
  datatype Config = Config(source: string, mode: string, maxRuns: nat) {
    function MaxRuns(): (n: nat)
      ensures n > 0
    {
      if maxRuns > 0 then maxRuns else DEFAULT_MAX_RUNS
    }
  }

  datatype RunStatus = Running | Collected | Abandoned

  /** The persisted record. An empty runId means that no run is followed; an
      unset startedAt is a row older than the field. */
  datatype ProviderRun = ProviderRun(runId: string, status: RunStatus, attempts: nat,
                                     periodStart: int, startedAt: Option<int>)

  datatype RemoteStatus = InFlight | Succeeded | Unsuccessful

  datatype RunInfo = RunInfo(id: string, status: RemoteStatus, finishedAt: Option<int>)

  // ---------- What one tick is told ----------

  datatype InfoReply = InfoError | Info(run: RunInfo)
  datatype ListReply = ListError | NoSuchActor | Listed(runs: seq<RunInfo>)
  datatype OutputReply = OutputError | OutputMissing | Output(mode: string, teams: nat)
  datatype PostReply = PostError | PostedWithoutId | Posted(id: string)
  /** A save that reports an error may have been written all the same. */
  datatype SaveReply = Saved | SaveError(written: bool)

  /** now is read when the tick starts, later when it gets to its save. */
  datatype Tick = Tick(now: int, later: int, readable: bool, info: InfoReply, list: ListReply,
                       outputs: map<string, OutputReply>, post: PostReply, save: SaveReply)

  datatype FetchError = StateUnreadable | ApiError | Stalled | OverBudget | NotSaved

  /** A ranking is named by the run it was read from. */
  datatype FetchResult = Ranked(runId: string) | Pending | Failed(error: FetchError)

  /** The result of a tick, and the record it leaves. */
  datatype Effect = Effect(result: FetchResult, rec: Option<ProviderRun>)

  // ---------- The tick as a function ----------

  function AfterSave(rec: Option<ProviderRun>, run: ProviderRun, save: SaveReply): Option<ProviderRun> {
    if save.Saved? || save.written then Some(run) else rec
  }

  predicate OutOfPatience(run: ProviderRun, now: int) {
    run.startedAt.Some? && now - run.startedAt.value > RUN_PATIENCE
  }

  function OutputOf(t: Tick, id: string): OutputReply {
    if id in t.outputs then t.outputs[id] else OutputError
  }

  predicate Readable(cfg: Config, t: Tick, id: string) {
    var o := OutputOf(t, id);
    o.Output? && o.mode == cfg.mode
  }

  /** The configured number of runs, or three. */
  lemma MaxRunsIsConfigured(cfg: Config)
    ensures cfg.maxRuns > 0 ==> cfg.MaxRuns() == cfg.maxRuns
    ensures cfg.maxRuns == 0 ==> cfg.MaxRuns() == 3
  {
  }

  function MarkCollected(rec: Option<ProviderRun>, id: string, attempts: nat, period: int, t: Tick): Effect {
    Effect(if t.save.Saved? then Ranked(id) else Failed(NotSaved),
           AfterSave(rec, ProviderRun(id, Collected, attempts, period, Some(t.later)), t.save))
  }

  /** None: the run ended without success and another may be considered. */
  function CollectStarted(cfg: Config, run: ProviderRun, period: int, t: Tick): Option<Effect> {
    var rec := Some(run);
    match t.info
    case InfoError => Some(Effect(Failed(ApiError), rec))
    case Info(remote) =>
      match remote.status
      case InFlight =>
        if !OutOfPatience(run, t.later) then Some(Effect(Pending, rec))
        else Some(Effect(Failed(if t.save.Saved? then Stalled else NotSaved),
                         AfterSave(rec, ProviderRun("", Abandoned, run.attempts, run.periodStart, run.startedAt), t.save)))
      case Succeeded =>
        if Readable(cfg, t, remote.id) then Some(MarkCollected(rec, remote.id, run.attempts, period, t))
        else Some(Effect(Failed(ApiError), rec))
      case Unsuccessful => None
  }

  predicate FromPeriod(run: RunInfo, period: int) {
    run.finishedAt.Some? && run.finishedAt.value >= period
  }

  /** Passed over: a run of an earlier period, or of the other ranking. */
  predicate NotToAdopt(cfg: Config, run: RunInfo, period: int, t: Tick) {
    !FromPeriod(run, period) ||
    (OutputOf(t, run.id).Output? && OutputOf(t, run.id).mode != cfg.mode)
  }

  function AdoptFrom(cfg: Config, rec: Option<ProviderRun>, runs: seq<RunInfo>, period: int, t: Tick): Option<Effect> {
    if runs == [] then None
    else if NotToAdopt(cfg, runs[0], period, t) then AdoptFrom(cfg, rec, runs[1..], period, t)
    else if Readable(cfg, t, runs[0].id) then Some(MarkCollected(rec, runs[0].id, 0, period, t))
    else Some(Effect(Failed(ApiError), rec))
  }

  /** The first listed run that is of the period and not known to be of the other
      ranking decides: unless its output is this ranking the tick fails and
      the record stays; if it is, the run goes on record as collected, with no
      attempts, and is handed out when that is confirmed. */
  lemma {:induction false} FirstRunDecides(cfg: Config, rec: Option<ProviderRun>, runs: seq<RunInfo>, period: int,
                                           t: Tick, i: nat)
    requires i < |runs| && forall j :: 0 <= j < i ==> NotToAdopt(cfg, runs[j], period, t)
    requires runs[i].finishedAt.Some? && runs[i].finishedAt.value >= period
    requires runs[i].id in t.outputs && t.outputs[runs[i].id].Output? ==> t.outputs[runs[i].id].mode == cfg.mode
    ensures var e := AdoptFrom(cfg, rec, runs, period, t);
            && e.Some?
            && (runs[i].id in t.outputs && t.outputs[runs[i].id].Output? ==>
                  && (e.value.result == if t.save.Saved? then Ranked(runs[i].id) else Failed(NotSaved))
                  && (e.value.rec == if t.save == SaveError(false) then rec
                                     else Some(ProviderRun(runs[i].id, Collected, 0, period, Some(t.later)))))
            && (!(runs[i].id in t.outputs && t.outputs[runs[i].id].Output?) ==> e.value == Effect(Failed(ApiError), rec))
  {
    if i > 0 {
      assert forall j :: 0 <= j < i - 1 ==> runs[1..][j] == runs[j + 1];
      FirstRunDecides(cfg, rec, runs[1..], period, t, i - 1);
    }
  }

  function AdoptFinished(cfg: Config, rec: Option<ProviderRun>, period: int, t: Tick): Option<Effect> {
    match t.list
    case ListError => Some(Effect(Failed(ApiError), rec))
    case NoSuchActor => None
    case Listed(runs) => AdoptFrom(cfg, rec, runs, period, t)
  }

  /** The attempts this period has already paid for, as far as the record
      knows. */
  function AttemptsIn(rec: Option<ProviderRun>, period: int): nat {
    if rec.Some? && rec.value.periodStart >= period then rec.value.attempts else 0
  }

  function StartRun(cfg: Config, rec: Option<ProviderRun>, period: int, t: Tick): Effect {
    var attempts := AttemptsIn(rec, period);
    if attempts >= cfg.MaxRuns() then Effect(Failed(OverBudget), rec)
    else if !t.post.Posted? || t.post.id == "" then Effect(Failed(ApiError), rec)
    else Effect(if t.save.Saved? then Pending else Failed(NotSaved),
                AfterSave(rec, ProviderRun(t.post.id, Running, attempts + 1, period, Some(t.now)), t.save))
  }

  /** What the tick does before it would start a run; None when it gets that
      far. */
  function BeforeStart(cfg: Config, rec: Option<ProviderRun>, t: Tick): Option<Effect> {
    var period := StartOfWeek(t.now);
    if !t.readable then Some(Effect(Failed(StateUnreadable), rec))
    else
      var collected := if rec.Some? && rec.value.runId != "" then CollectStarted(cfg, rec.value, period, t) else None;
      if collected.Some? then collected else AdoptFinished(cfg, rec, period, t)
  }

  function Fetch(cfg: Config, rec: Option<ProviderRun>, t: Tick): Effect {
    var e := BeforeStart(cfg, rec, t);
    if e.Some? then e.value else StartRun(cfg, rec, StartOfWeek(t.now), t)
  }

  /** A run on record that the remote side says is in flight is waited for up to six
      hours from its start, for ever if that is not known; then it is let go of,
      and the attempts of its period are kept. */
  lemma WaitsExactlyWhen(cfg: Config, run: ProviderRun, t: Tick)
    requires t.readable && run.runId != "" && t.info.Info? && t.info.run.status.InFlight?
    ensures var e, late := Fetch(cfg, Some(run), t), run.startedAt.Some? && t.later - run.startedAt.value > 6 * HOUR;
            && (e.result.Pending? <==> !late)
            && (!late ==> e.rec == Some(run))
            && (late ==> e.result == Failed(if t.save.Saved? then Stalled else NotSaved))
            && (late ==> e.rec == if t.save == SaveError(false) then Some(run)
                                  else Some(ProviderRun("", Abandoned, run.attempts, run.periodStart, run.startedAt)))
  {
  }

  /** A run on record that has succeeded decides the tick: its ranking is handed out
      once it is on record as collected, and nothing else is looked at. */
  lemma SuccessIsCollected(cfg: Config, run: ProviderRun, t: Tick)
    requires t.readable && run.runId != "" && t.info.Info? && t.info.run.status.Succeeded?
    ensures var e, id := Fetch(cfg, Some(run), t), t.info.run.id;
            if id in t.outputs && t.outputs[id].Output? && t.outputs[id].mode == cfg.mode then
              && (e.result == if t.save.Saved? then Ranked(id) else Failed(NotSaved))
              && (e.rec == if t.save == SaveError(false) then Some(run)
                           else Some(ProviderRun(id, Collected, run.attempts, StartOfWeek(t.now), Some(t.later))))
            else e == Effect(Failed(ApiError), Some(run))
  {
  }

  /** What keeps a tick from its decision: the record or the followed run cannot be
      read, or, with nothing to follow or a run that failed, the list cannot.
      The record stays. */
  lemma UnansweredChangesNothing(cfg: Config, rec: Option<ProviderRun>, t: Tick)
    ensures !t.readable ==> Fetch(cfg, rec, t) == Effect(Failed(StateUnreadable), rec)
    ensures t.readable && rec.Some? && rec.value.runId != "" && t.info.InfoError? ==>
              Fetch(cfg, rec, t) == Effect(Failed(ApiError), rec)
    ensures t.readable && t.list.ListError?
            && (rec.None? || rec.value.runId == "" || (t.info.Info? && t.info.run.status.Unsuccessful?))
            ==> Fetch(cfg, rec, t) == Effect(Failed(ApiError), rec)
  {
  }

  /** With nothing followed, or a run that failed, and nothing listed, a tick starts
      a run as long as the attempts on record for its week leave one; what it
      records counts it. */
  lemma StartsWhenNothingElse(cfg: Config, rec: Option<ProviderRun>, t: Tick)
    requires t.readable && (t.list.NoSuchActor? || t.list == Listed([]))
    requires rec.None? || rec.value.runId == "" || (t.info.Info? && t.info.run.status.Unsuccessful?)
    ensures var e, week := Fetch(cfg, rec, t), StartOfWeek(t.now);
            var attempts := if rec.Some? && rec.value.periodStart >= week then rec.value.attempts else 0;
            && (attempts >= cfg.MaxRuns() ==> e == Effect(Failed(OverBudget), rec))
            && (attempts < cfg.MaxRuns() && (!t.post.Posted? || t.post.id == "") ==> e == Effect(Failed(ApiError), rec))
            && (attempts < cfg.MaxRuns() && t.post.Posted? && t.post.id != "" ==>
                  && (e.result == if t.save.Saved? then Pending else Failed(NotSaved))
                  && (e.rec == if t.save == SaveError(false) then rec
                               else Some(ProviderRun(t.post.id, Running, attempts + 1, week, Some(t.now)))))
  {
  }

  /** The tick sends a request that may start a run. */
  predicate Sends(cfg: Config, rec: Option<ProviderRun>, t: Tick) {
    BeforeStart(cfg, rec, t).None? && AttemptsIn(rec, StartOfWeek(t.now)) < cfg.MaxRuns()
  }

  /** The remote side accepted the request and named the run. */
  predicate Posts(cfg: Config, rec: Option<ProviderRun>, t: Tick) {
    Sends(cfg, rec, t) && t.post.Posted? && t.post.id != ""
  }

  // ---------- The provider ----------

  type RunKey = (string, string)

  /** The repository of records, keyed by source and ranking mode. */
  class RunStore {
    var runs: map<RunKey, ProviderRun>

    constructor ()
      ensures runs == map[]
    {
      runs := map[];
    }

    function Lookup(key: RunKey): Option<ProviderRun>
      reads this
    {
      if key in runs then Some(runs[key]) else None
    }

    method SaveRun(key: RunKey, run: ProviderRun, reply: SaveReply) returns (ok: bool)
      modifies this
      ensures ok <==> reply.Saved?
      ensures Lookup(key) == AfterSave(old(Lookup(key)), run, reply)
      ensures runs - {key} == old(runs) - {key}
    {
      ok := reply.Saved?;
      if ok || reply.written {
        runs := runs[key := run];
      }
    }

    method ClearRun(key: RunKey)
      modifies this
      ensures Lookup(key).None?
      ensures runs - {key} == old(runs) - {key}
    {
      runs := map k | k in runs && k != key :: runs[k];
    }
  }

  class Provider {
    const cfg: Config
    const store: RunStore

    constructor (cfg: Config, store: RunStore)
      ensures this.cfg == cfg && this.store == store
    {
      this.cfg := cfg;
      this.store := store;
    }

    function Key(): RunKey {
      (cfg.source, cfg.mode)
    }

    function Record(): Option<ProviderRun>
      reads store
    {
      store.Lookup(Key())
    }

    /** One scheduler tick. Only this provider's own record may change. */
    method FetchRankings(t: Tick) returns (result: FetchResult)
      modifies store
      ensures Effect(result, Record()) == Fetch(cfg, old(Record()), t)
      ensures store.runs - {Key()} == old(store.runs) - {Key()}
    {
      var period := StartOfWeek(t.now);
      if !t.readable {
        return Failed(StateUnreadable);
      }
      var state := Record();
      if state.Some? && state.value.runId != "" {
        var done, r := CollectStartedRun(state.value, period, t);
        if done {
          return r;
        }
      }
      var adopted, r := AdoptFinishedRun(period, t);
      if adopted {
        return r;
      }
      result := StartPaidRun(period, t);
    }

    method CollectStartedRun(run: ProviderRun, period: int, t: Tick) returns (done: bool, result: FetchResult)
      requires Record() == Some(run)
      modifies store
      ensures done <==> CollectStarted(cfg, run, period, t).Some?
      ensures done ==> Effect(result, Record()) == CollectStarted(cfg, run, period, t).value
      ensures !done ==> Record() == old(Record())
      ensures store.runs - {Key()} == old(store.runs) - {Key()}
    {
      done, result := true, Failed(ApiError);
      if t.info.InfoError? {
        return;
      }
      match t.info.run.status
      case InFlight =>
        if !OutOfPatience(run, t.later) {
          result := Pending;
        } else {
          var ok := store.SaveRun(Key(), ProviderRun("", Abandoned, run.attempts, run.periodStart, run.startedAt), t.save);
          result := Failed(if ok then Stalled else NotSaved);
        }
      case Succeeded =>
        if Readable(cfg, t, t.info.run.id) {
          result := Collect(t.info.run.id, run.attempts, period, t);
        }
      case Unsuccessful =>
        done := false;
    }

    method AdoptFinishedRun(period: int, t: Tick) returns (done: bool, result: FetchResult)
      modifies store
      ensures done <==> AdoptFinished(cfg, old(Record()), period, t).Some?
      ensures done ==> Effect(result, Record()) == AdoptFinished(cfg, old(Record()), period, t).value
      ensures !done ==> Record() == old(Record())
      ensures store.runs - {Key()} == old(store.runs) - {Key()}
    {
      done, result := false, Failed(ApiError);
      if t.list.ListError? {
        return true, Failed(ApiError);
      }
      if t.list.NoSuchActor? {
        return;
      }
      var runs, i := t.list.runs, 0;
      while i < |runs|
        invariant 0 <= i <= |runs| && !done
        invariant store.runs == old(store.runs)
        invariant AdoptFrom(cfg, Record(), runs, period, t) == AdoptFrom(cfg, Record(), runs[i..], period, t)
      {
        var run := runs[i];
        if FromPeriod(run, period) {
          var output := OutputOf(t, run.id);
          if !output.Output? {
            return true, Failed(ApiError);
          }
          if output.mode == cfg.mode {
            result := Collect(run.id, 0, period, t);
            return true, result;
          }
        }
        assert runs[i..][1..] == runs[i + 1..];
        i := i + 1;
      }
    }

    method Collect(id: string, attempts: nat, period: int, t: Tick) returns (result: FetchResult)
      modifies store
      ensures Effect(result, Record()) == MarkCollected(old(Record()), id, attempts, period, t)
      ensures store.runs - {Key()} == old(store.runs) - {Key()}
    {
      var ok := store.SaveRun(Key(), ProviderRun(id, Collected, attempts, period, Some(t.later)), t.save);
      result := if ok then Ranked(id) else Failed(NotSaved);
    }

    method StartPaidRun(period: int, t: Tick) returns (result: FetchResult)
      modifies store
      ensures Effect(result, Record()) == StartRun(cfg, old(Record()), period, t)
      ensures store.runs - {Key()} == old(store.runs) - {Key()}
    {
      var state, attempts := Record(), 0;
      if state.Some? && !(state.value.periodStart < period) {
        attempts := state.value.attempts;
      }
      if attempts >= cfg.MaxRuns() {
        return Failed(OverBudget);
      }
      if !t.post.Posted? || t.post.id == "" {
        return Failed(ApiError);
      }
      var ok := store.SaveRun(Key(), ProviderRun(t.post.id, Running, attempts + 1, period, Some(t.now)), t.save);
      result := if ok then Pending else Failed(NotSaved);
    }

    /** The startup catch-up: reads finished runs, starts nothing and leaves
        the record alone. A run of the other ranking, a run whose output is
        gone and an empty ranking are passed over; only the first few runs
        are looked at. */
    method FetchLatestCached(t: Tick) returns (found: Option<string>, failed: bool)
      ensures failed ==> found.None?
      ensures found.Some? ==>
                && t.list.Listed? && found.value in t.outputs && t.outputs[found.value].Output?
                && t.outputs[found.value].mode == cfg.mode && t.outputs[found.value].teams > 0
                && exists i :: && 0 <= i < |t.list.runs| && i < CACHED_SCAN_LIMIT && found.value == t.list.runs[i].id
                               && forall k :: 0 <= k < i ==> PassedOver(t, t.list.runs[k].id)
      ensures found.None? && !failed && t.list.Listed? ==>
                forall k :: 0 <= k < |t.list.runs| && k < CACHED_SCAN_LIMIT ==> PassedOver(t, t.list.runs[k].id)
      ensures t.list.ListError? ==> failed
      ensures t.list.NoSuchActor? ==> found.None? && !failed
      ensures failed && t.list.Listed? ==>
                exists i :: && 0 <= i < |t.list.runs| && i < CACHED_SCAN_LIMIT
                            && (t.list.runs[i].id in t.outputs ==> t.outputs[t.list.runs[i].id].OutputError?)
                            && forall k :: 0 <= k < i ==> PassedOver(t, t.list.runs[k].id)
    {
      found, failed := None, t.list.ListError?;
      if !t.list.Listed? {
        return;
      }
      var runs := if |t.list.runs| > CACHED_SCAN_LIMIT then t.list.runs[..CACHED_SCAN_LIMIT] else t.list.runs;
      var i := 0;
      while i < |runs|
        invariant 0 <= i <= |runs|
        invariant forall k :: 0 <= k < i ==> PassedOver(t, runs[k].id)
      {
        var output := OutputOf(t, runs[i].id);
        if output.OutputError? {
          assert runs[i] == t.list.runs[i];
          return None, true;
        }
        if output.Output? && output.mode == cfg.mode && output.teams > 0 {
          assert runs[i] == t.list.runs[i];
          return Some(runs[i].id), false;
        }
        i := i + 1;
      }
    }

    /** The run's output is gone, of the other ranking, or empty. */
    predicate PassedOver(t: Tick, id: string) {
      id in t.outputs &&
      (t.outputs[id].OutputMissing?
       || (t.outputs[id].Output? && (t.outputs[id].mode != cfg.mode || t.outputs[id].teams == 0)))
    }
  }
}
