/** How far the promises of internal/adapter/apifyhltv/provider.go reach: where
    its header says a run is never started, the exact conditions, and for each
    a history in which one is. */
module PaidRunLimits {
  import opened Numerals
  import opened Wrappers
  import opened WeekClock
  import opened PaidRun
  import opened PaidRunHistory

  // ---------- Building histories ----------

  /** Nothing on record, nothing on the remote side. */
  function Born(now: int): World {
    World(now, None, map[], multiset{})
  }

  /** Ids told apart by their length. */
  function Id(n: nat): string {
    seq(n + 1, _ => 'r')
  }

  /** A tick that reads the truth about the followed run, finds nothing to adopt
      and gets its request for a run accepted. */
  function Posting(w: World, id: string, save: SaveReply): Tick {
    var followed := FollowedRun(w.rec);
    Tick(w.now, w.now, true,
         if followed in w.remote then Info(RunInfo(followed, w.remote[followed].status, w.remote[followed].finishedAt))
         else InfoError,
         Listed([]), map[], Posted(id), save)
  }

  function Post(w: World, id: string, save: SaveReply): Step {
    Run(None, Posting(w, id, save))
  }

  /** The same, but the reply to the request is lost. */
  function Unheard(w: World): Step {
    Run(None, Posting(w, "", Saved).(post := PostError))
  }

  /** The next tick is free to start a run: nothing is followed, or k runs of
      this week have been recorded and the last has ended without success. */
  predicate Ready(cfg: Config, w: World, k: nat, n: nat) {
    && (forall id :: id in w.remote ==> 0 < |id| <= n)
    && w.log[Surfaced(StartOfWeek(w.now))] <= w.log[NoAnswer(StartOfWeek(w.now))]
    && (k == 0 ==> w.rec.None?)
    && (k > 0 ==>
          && w.rec.Some? && w.rec.value.runId in w.remote
          && w.rec.value == ProviderRun(w.rec.value.runId, Running, k, StartOfWeek(w.now), w.rec.value.startedAt)
          && w.remote[w.rec.value.runId].status.Unsuccessful?)
  }

  lemma Prepend(cfg: Config, w: World, s: Step, next: World, rest: seq<Step>)
    requires Enabled(w, s) && next == Apply(cfg, w, s) && Possible(cfg, next, rest)
    ensures Possible(cfg, w, [s] + rest) && After(cfg, w, [s] + rest) == After(cfg, next, rest)
  {
    assert ([s] + rest)[1..] == rest;
  }

  lemma OneStep(cfg: Config, w: World, s: Step)
    requires Enabled(w, s)
    ensures Possible(cfg, w, [s]) && After(cfg, w, [s]) == Apply(cfg, w, s)
  {
    Prepend(cfg, w, s, Apply(cfg, w, s), []);
    assert [s] + [] == [s];
  }

  lemma TwoSteps(cfg: Config, w: World, s: Step, u: World, t: Step)
    requires Enabled(w, s) && u == Apply(cfg, w, s) && Enabled(u, t)
    ensures Possible(cfg, w, [s, t]) && After(cfg, w, [s, t]) == Apply(cfg, u, t)
  {
    OneStep(cfg, u, t);
    Prepend(cfg, w, s, u, [t]);
    assert [s, t] == [s] + [t];
  }

  /** How often something went wrong: a record was not saved, a request got no
      usable answer, a record was lost. */
  datatype Mishaps = Mishaps(unsaved: nat, unanswered: nat, lost: nat)

  const NO_MISHAPS := Mishaps(0, 0, 0)

  /** In the same instant, this many more runs started and so many mishaps. */
  predicate Moved(w: World, v: World, started: nat, m: Mishaps) {
    var p := StartOfWeek(w.now);
    && v.now == w.now
    && Started(v.log, p) == Started(w.log, p) + started
    && v.log[Unsaved(p)] == w.log[Unsaved(p)] + m.unsaved
    && v.log[NoAnswer(p)] == w.log[NoAnswer(p)] + m.unanswered
    && v.log[Lost(p)] == w.log[Lost(p)] + m.lost
  }

  lemma Accepts(cfg: Config, w: World, k: nat, n: nat, save: SaveReply)
    requires Ready(cfg, w, k, n) && k < cfg.MaxRuns()
    ensures Enabled(w, Post(w, Id(n), save)) && Posts(cfg, w.rec, Posting(w, Id(n), save))
    ensures Fetch(cfg, w.rec, Posting(w, Id(n), save)).rec ==
              AfterSave(w.rec, ProviderRun(Id(n), Running, k + 1, StartOfWeek(w.now), Some(w.now)), save)
    ensures !Fetch(cfg, w.rec, Posting(w, Id(n), save)).result.Ranked?
  {
  }

  lemma AcceptsMoves(cfg: Config, w: World, k: nat, n: nat, save: SaveReply)
    requires Ready(cfg, w, k, n) && k < cfg.MaxRuns()
    ensures var v := Apply(cfg, w, Post(w, Id(n), save));
            && Moved(w, v, 1, NO_MISHAPS.(unsaved := if save.Saved? then 0 else 1))
            && v.rec == AfterSave(w.rec, ProviderRun(Id(n), Running, k + 1, StartOfWeek(w.now), Some(w.now)), save)
            && v.remote == w.remote[Id(n) :=
                 Remote(InFlight, None, cfg.mode, if FollowedRun(v.rec) == Id(n) then Followed else Unrecorded, w.now)]
  {
    Accepts(cfg, w, k, n, save);
  }

  /** A run accepted and recorded, and over without success. */
  lemma OneRun(cfg: Config, w: World, k: nat, n: nat) returns (post: Step, v: World, finish: Step, u: World)
    requires Ready(cfg, w, k, n) && k < cfg.MaxRuns()
    ensures Enabled(w, post) && v == Apply(cfg, w, post) && Enabled(v, finish) && u == Apply(cfg, v, finish)
    ensures Ready(cfg, u, k + 1, n + 1) && Moved(w, u, 1, NO_MISHAPS)
  {
    Accepts(cfg, w, k, n, Saved);
    AcceptsMoves(cfg, w, k, n, Saved);
    post, finish := Post(w, Id(n), Saved), Finish(Id(n), Unsuccessful, w.now);
    v := Apply(cfg, w, post);
    u := Apply(cfg, v, finish);
  }

  /** A run accepted whose record could not be saved: nothing stops the next. */
  lemma UnsavedRun(cfg: Config, w: World, n: nat) returns (post: Step, v: World)
    requires Ready(cfg, w, 0, n)
    ensures Enabled(w, post) && v == Apply(cfg, w, post)
    ensures Ready(cfg, v, 0, n + 1) && Moved(w, v, 1, NO_MISHAPS.(unsaved := 1))
  {
    Accepts(cfg, w, 0, n, SaveError(false));
    AcceptsMoves(cfg, w, 0, n, SaveError(false));
    post := Post(w, Id(n), SaveError(false));
    v := Apply(cfg, w, post);
  }

  lemma NothingHeard(cfg: Config, w: World)
    requires w.rec.None? && "" !in w.remote
    ensures Enabled(w, Unheard(w))
    ensures Apply(cfg, w, Unheard(w)) == w.(log := w.log + multiset{NoAnswer(StartOfWeek(w.now))})
  {
    assert AttemptsIn(w.rec, StartOfWeek(w.now)) == 0;
  }

  /** A request without an answer that starts a run all the same: nothing stops
      the next. */
  lemma UnansweredRun(cfg: Config, w: World, n: nat) returns (ask: Step, v: World, surface: Step, u: World)
    requires Ready(cfg, w, 0, n)
    ensures ask == Unheard(w) && surface == Surface(Id(n), w.now)
    ensures Enabled(w, ask) && v == Apply(cfg, w, ask) && Enabled(v, surface) && u == Apply(cfg, v, surface)
    ensures Ready(cfg, u, 0, n + 1) && Moved(w, u, 1, NO_MISHAPS.(unanswered := 1))
    ensures u.remote == w.remote[Id(n) := Remote(InFlight, None, cfg.mode, Unrecorded, w.now)]
    ensures u.log == w.log + multiset{NoAnswer(StartOfWeek(w.now)), Surfaced(StartOfWeek(w.now))}
  {
    ask, surface := Unheard(w), Surface(Id(n), w.now);
    NothingHeard(cfg, w);
    v := w.(log := w.log + multiset{NoAnswer(StartOfWeek(w.now))});
    u := Apply(cfg, v, surface);
    assert u.log == w.log + multiset{NoAnswer(StartOfWeek(w.now)), Surfaced(StartOfWeek(w.now))};
  }

  lemma RecordLost(cfg: Config, w: World, k: nat, n: nat) returns (v: World)
    requires Ready(cfg, w, k, n)
    ensures Enabled(w, LoseRecord) && v == Apply(cfg, w, LoseRecord)
    ensures Ready(cfg, v, 0, n) && Moved(w, v, 0, NO_MISHAPS.(lost := 1))
  {
    v := Apply(cfg, w, LoseRecord);
  }

  /** Runs with unsaved records and without answers first; then a whole budget,
      and again after each loss of the record; k runs of the current budget are
      spent already. */
  lemma {:induction false} Spend(cfg: Config, w: World, k: nat, n: nat, m: Mishaps) returns (steps: seq<Step>)
    requires Ready(cfg, w, k, n) && k <= cfg.MaxRuns() && (m.unsaved + m.unanswered > 0 ==> k == 0)
    ensures Possible(cfg, w, steps)
    ensures Moved(w, After(cfg, w, steps), Whole(cfg, m.lost + 1) - k + m.unsaved + m.unanswered, m)
    decreases m.unsaved + m.unanswered, m.lost, cfg.MaxRuns() - k
  {
    assert Whole(cfg, m.lost + 1) == Whole(cfg, m.lost) + cfg.MaxRuns();
    if m.unsaved > 0 {
      var post, v := UnsavedRun(cfg, w, n);
      var rest := Spend(cfg, v, 0, n + 1, m.(unsaved := m.unsaved - 1));
      Prepend(cfg, w, post, v, rest);
      steps := [post] + rest;
    } else if m.unanswered > 0 {
      var ask, v, surface, u := UnansweredRun(cfg, w, n);
      var rest := Spend(cfg, u, 0, n + 1, m.(unanswered := m.unanswered - 1));
      Prepend(cfg, v, surface, u, rest);
      Prepend(cfg, w, ask, v, [surface] + rest);
      steps := [ask] + ([surface] + rest);
    } else if k < cfg.MaxRuns() {
      var post, v, finish, u := OneRun(cfg, w, k, n);
      var rest := Spend(cfg, u, k + 1, n + 1, m);
      Prepend(cfg, v, finish, u, rest);
      Prepend(cfg, w, post, v, [finish] + rest);
      steps := [post] + ([finish] + rest);
    } else if m.lost > 0 {
      var v := RecordLost(cfg, w, k, n);
      var rest := Spend(cfg, v, 0, n, m.(lost := m.lost - 1));
      Prepend(cfg, w, LoseRecord, v, rest);
      steps := [LoseRecord] + rest;
    } else {
      steps := [];
      assert Whole(cfg, 0) == 0;
    }
  }

  // ---------- The budget, exactly ----------

  predicate AtMost(log: multiset<Entry>, p: int, m: Mishaps) {
    log[Unsaved(p)] <= m.unsaved && log[NoAnswer(p)] <= m.unanswered && log[Lost(p)] <= m.lost
  }

  predicate Within(log: multiset<Entry>, p: int, m: Mishaps, bound: nat) {
    AtMost(log, p, m) ==> Started(log, p) <= bound
  }

  /** Over all histories, no more than bound runs are started in a week with no
      more than these mishaps. */
  ghost predicate StaysWithin(cfg: Config, m: Mishaps, bound: nat) {
    forall w, steps, p :: Fresh(w) && Possible(cfg, w, steps) ==> Within(After(cfg, w, steps).log, p, m, bound)
  }

  /** The bound is attained, for any configured number and any mishaps. */
  lemma BudgetIsAttained(cfg: Config, now: int, m: Mishaps) returns (steps: seq<Step>)
    ensures Possible(cfg, Born(now), steps)
    ensures var log, p := After(cfg, Born(now), steps).log, StartOfWeek(now);
            && Mishaps(log[Unsaved(p)], log[NoAnswer(p)], log[Lost(p)]) == m
            && Started(log, p) == cfg.MaxRuns() * (1 + m.lost) + m.unsaved + m.unanswered
  {
    steps := Spend(cfg, Born(now), 0, 0, m);
    WholeIsProduct(cfg, m.lost + 1);
  }

  lemma MishapsBound(cfg: Config, log: multiset<Entry>, p: int, m: Mishaps, bound: nat)
    requires Started(log, p) <= cfg.MaxRuns() * (1 + log[Lost(p)]) + log[Unsaved(p)] + log[NoAnswer(p)]
    requires bound >= cfg.MaxRuns() * (1 + m.lost) + m.unsaved + m.unanswered
    ensures Within(log, p, m, bound)
  {
    if log[Lost(p)] <= m.lost {
      MulMonotone(cfg.MaxRuns(), 1 + log[Lost(p)], 1 + m.lost);
    }
  }

  /** The least number of runs a week never exceeds. */
  lemma BudgetIsExactly(cfg: Config, m: Mishaps, bound: nat)
    ensures StaysWithin(cfg, m, bound) <==> bound >= cfg.MaxRuns() * (1 + m.lost) + m.unsaved + m.unanswered
  {
    if bound >= cfg.MaxRuns() * (1 + m.lost) + m.unsaved + m.unanswered {
      forall w, steps, p | Fresh(w) && Possible(cfg, w, steps)
        ensures Within(After(cfg, w, steps).log, p, m, bound)
      {
        WeeklyBudget(cfg, w, steps, p);
        MishapsBound(cfg, After(cfg, w, steps).log, p, m, bound);
      }
    } else {
      var steps := BudgetIsAttained(cfg, 0, m);
      assert !Within(After(cfg, Born(0), steps).log, StartOfWeek(0), m, bound);
    }
  }

  /** The promised limit itself, the configured number or three, holds exactly when
      every record is saved, every request answered and no record lost. */
  lemma LimitHoldsExactlyWhen(cfg: Config, m: Mishaps)
    ensures StaysWithin(cfg, m, if cfg.maxRuns > 0 then cfg.maxRuns else 3) <==> m == NO_MISHAPS
  {
    MaxRunsIsConfigured(cfg);
    BudgetIsExactly(cfg, m, cfg.MaxRuns());
    if m.lost > 0 {
      MulMonotone(cfg.MaxRuns(), 2, 1 + m.lost);
    }
  }

  // ---------- One run at a time, exactly ----------

  ghost predicate SomeUnheard(log: multiset<Entry>) {
    exists p :: log[Unsaved(p)] + log[NoAnswer(p)] > 0
  }

  ghost predicate SomeLost(log: multiset<Entry>) {
    exists p :: log[Lost(p)] > 0
  }

  /** A run nobody follows any more leaves its entry in the log. */
  ghost predicate StrayInv(w: World, id: string) {
    id in w.remote ==>
      && (w.remote[id].fate.Unrecorded? ==> SomeUnheard(w.log))
      && (w.remote[id].fate.Forgotten? ==> SomeLost(w.log))
  }

  lemma LogGrows(cfg: Config, w: World, s: Step)
    ensures SomeUnheard(w.log) ==> SomeUnheard(Apply(cfg, w, s).log)
    ensures SomeLost(w.log) ==> SomeLost(Apply(cfg, w, s).log)
  {
    var log := Apply(cfg, w, s).log;
    if p :| w.log[Unsaved(p)] + w.log[NoAnswer(p)] > 0 {
      assert log[Unsaved(p)] + log[NoAnswer(p)] > 0;
    }
    if p :| w.log[Lost(p)] > 0 {
      assert log[Lost(p)] > 0;
    }
  }

  lemma TickStrays(cfg: Config, w: World, t: Tick, sends: bool, posts: bool, e: Effect, id: string)
    requires RecordInv(cfg, w) && Shape(cfg, w, t, posts, e)
    ensures var v := AfterTick(cfg, w, t, sends, posts, e);
            && (id in v.remote && v.remote[id].fate.Unrecorded? && !(id in w.remote && w.remote[id].fate.Unrecorded?) ==>
                  SomeUnheard(v.log))
            && (id in v.remote && v.remote[id].fate.Forgotten? ==> id in w.remote && w.remote[id].fate.Forgotten?)
  {
    if posts && !t.save.Saved? {
      assert AfterTick(cfg, w, t, sends, posts, e).log[Unsaved(StartOfWeek(t.now))] > 0;
    }
  }

  lemma StepKeepsStray(cfg: Config, w: World, s: Step, id: string)
    requires RecordInv(cfg, w) && Enabled(w, s) && StrayInv(w, id)
    ensures StrayInv(Apply(cfg, w, s), id)
  {
    LogGrows(cfg, w, s);
    if s.LoseRecord? {
      assert Apply(cfg, w, s).log[Lost(StartOfWeek(w.now))] > 0;
    } else if s.Surface? {
      assert Apply(cfg, w, s).log[NoAnswer(StartOfWeek(s.startedAt))] > 0;
    } else if Fetches(w, s) {
      FetchShapes(cfg, w, s.t);
      TickStrays(cfg, w, s.t, Sends(cfg, w.rec, s.t), Posts(cfg, w.rec, s.t), Fetch(cfg, w.rec, s.t), id);
    }
  }

  lemma {:induction false} HistoryKeepsStray(cfg: Config, w: World, steps: seq<Step>, id: string)
    requires RecordInv(cfg, w) && StrayInv(w, id) && Possible(cfg, w, steps)
    ensures StrayInv(After(cfg, w, steps), id)
    decreases |steps|
  {
    if steps != [] {
      StepKeepsRecord(cfg, w, steps[0]);
      StepKeepsStray(cfg, w, steps[0], id);
      HistoryKeepsStray(cfg, Apply(cfg, w, steps[0]), steps[1..], id);
    }
  }

  /** No more than these mishaps in any period. */
  ghost predicate Kept(log: multiset<Entry>, m: Mishaps) {
    forall p :: AtMost(log, p, m)
  }

  /** Without mishaps, every run of this provider is followed or was given up. */
  lemma NoStrays(cfg: Config, w: World, steps: seq<Step>, id: string)
    requires Fresh(w) && Possible(cfg, w, steps) && Kept(After(cfg, w, steps).log, NO_MISHAPS)
    ensures var v := After(cfg, w, steps);
            id in v.remote ==> v.remote[id].fate.Foreign? || v.remote[id].fate.Followed? || v.remote[id].fate.GivenUp?
  {
    HistoryKeepsStray(cfg, w, steps, id);
    var log := After(cfg, w, steps).log;
    forall p ensures log[Unsaved(p)] + log[NoAnswer(p)] + log[Lost(p)] == 0 {
      assert AtMost(log, p, NO_MISHAPS);
    }
  }

  /** A run of this provider is in the way of starting another. */
  predicate InTheWay(w: World, t: Tick, id: string) {
    && id in w.remote && w.remote[id].status.InFlight? && !w.remote[id].fate.Foreign?
    && !(w.remote[id].fate.GivenUp? && t.now - w.remote[id].startedAt > RUN_PATIENCE)
  }

  /** Over all histories with no more than these mishaps in any period: no run is
      started while another of this provider's is in flight, save one given up
      more than the patience ago. */
  ghost predicate StartsAlone(cfg: Config, m: Mishaps) {
    forall w, steps, t, id ::
      && Fresh(w) && Possible(cfg, w, steps) && Kept(After(cfg, w, steps).log, m)
      && Enabled(After(cfg, w, steps), Run(None, t)) && Posts(cfg, After(cfg, w, steps).rec, t)
      ==> !InTheWay(After(cfg, w, steps), t, id)
  }

  lemma AloneWhenKept(cfg: Config, w: World, steps: seq<Step>, t: Tick, id: string)
    requires Fresh(w) && Possible(cfg, w, steps) && Kept(After(cfg, w, steps).log, NO_MISHAPS)
    requires Enabled(After(cfg, w, steps), Run(None, t)) && Posts(cfg, After(cfg, w, steps).rec, t)
    ensures !InTheWay(After(cfg, w, steps), t, id)
  {
    NoStrays(cfg, w, steps, id);
    OneRunAtATime(cfg, w, steps, t, id);
  }

  lemma SecondStarts(cfg: Config, v: World)
    requires Ready(cfg, v, 0, 1) && Id(0) in v.remote && v.remote[Id(0)].status.InFlight?
    requires v.remote[Id(0)].fate.Unrecorded? || v.remote[Id(0)].fate.Forgotten?
    ensures var t := Posting(v, Id(1), Saved); Enabled(v, Run(None, t)) && Posts(cfg, v.rec, t) && InTheWay(v, t, Id(0))
  {
    Accepts(cfg, v, 0, 1, Saved);
  }

  /** A run whose record was not saved is still in flight when the next tick
      starts a second. */
  lemma SecondRunBesideUnsaved(cfg: Config, now: int)
    ensures var first := Post(Born(now), Id(0), SaveError(false));
            var v := Apply(cfg, Born(now), first);
            var t := Posting(v, Id(1), Saved);
            && Possible(cfg, Born(now), [first]) && After(cfg, Born(now), [first]) == v
            && Kept(v.log, NO_MISHAPS.(unsaved := 1))
            && Enabled(v, Run(None, t)) && Posts(cfg, v.rec, t) && InTheWay(v, t, Id(0))
  {
    Accepts(cfg, Born(now), 0, 0, SaveError(false));
    AcceptsMoves(cfg, Born(now), 0, 0, SaveError(false));
    OneStep(cfg, Born(now), Post(Born(now), Id(0), SaveError(false)));
    SecondStarts(cfg, Apply(cfg, Born(now), Post(Born(now), Id(0), SaveError(false))));
  }

  /** So is a run whose record was lost. */
  lemma SecondRunBesideLost(cfg: Config, now: int)
    ensures var first := Post(Born(now), Id(0), Saved);
            var v := Apply(cfg, Apply(cfg, Born(now), first), LoseRecord);
            var t := Posting(v, Id(1), Saved);
            && Possible(cfg, Born(now), [first, LoseRecord]) && After(cfg, Born(now), [first, LoseRecord]) == v
            && Kept(v.log, NO_MISHAPS.(lost := 1))
            && Enabled(v, Run(None, t)) && Posts(cfg, v.rec, t) && InTheWay(v, t, Id(0))
  {
    Accepts(cfg, Born(now), 0, 0, Saved);
    AcceptsMoves(cfg, Born(now), 0, 0, Saved);
    var first := Post(Born(now), Id(0), Saved);
    var u := Apply(cfg, Born(now), first);
    TwoSteps(cfg, Born(now), first, u, LoseRecord);
    SecondStarts(cfg, Apply(cfg, u, LoseRecord));
  }

  /** And so is a run whose request never got its answer. */
  lemma SecondRunBesideUnanswered(cfg: Config, now: int)
    ensures var first, second := Unheard(Born(now)), Surface(Id(0), now);
            var v := Apply(cfg, Apply(cfg, Born(now), first), second);
            var t := Posting(v, Id(1), Saved);
            && Possible(cfg, Born(now), [first, second]) && After(cfg, Born(now), [first, second]) == v
            && Kept(v.log, NO_MISHAPS.(unanswered := 1))
            && Enabled(v, Run(None, t)) && Posts(cfg, v.rec, t) && InTheWay(v, t, Id(0))
  {
    var first, u, second, v := UnansweredRun(cfg, Born(now), 0);
    TwoSteps(cfg, Born(now), first, u, second);
    SecondStarts(cfg, v);
    assert Kept(v.log, NO_MISHAPS.(unanswered := 1));
  }

  lemma FewerMishaps(log: multiset<Entry>, few: Mishaps, m: Mishaps)
    requires Kept(log, few) && few.unsaved <= m.unsaved && few.unanswered <= m.unanswered && few.lost <= m.lost
    ensures Kept(log, m)
  {
    forall p ensures AtMost(log, p, m) {
      assert AtMost(log, p, few);
    }
  }

  lemma NotAlone(cfg: Config, m: Mishaps, now: int, steps: seq<Step>, few: Mishaps)
    requires var v := After(cfg, Born(now), steps);
             var t := Posting(v, Id(1), Saved);
             && Possible(cfg, Born(now), steps) && Kept(v.log, few)
             && Enabled(v, Run(None, t)) && Posts(cfg, v.rec, t) && InTheWay(v, t, Id(0))
    requires few.unsaved <= m.unsaved && few.unanswered <= m.unanswered && few.lost <= m.lost
    ensures !StartsAlone(cfg, m)
  {
    FewerMishaps(After(cfg, Born(now), steps).log, few, m);
  }

  /** The promise of one run at a time holds exactly when every record is saved,
      every request answered and no record lost. */
  lemma StartsAloneExactlyWhen(cfg: Config, m: Mishaps)
    ensures StartsAlone(cfg, m) <==> m == NO_MISHAPS
  {
    if m == NO_MISHAPS {
      forall w, steps, t, id |
          && Fresh(w) && Possible(cfg, w, steps) && Kept(After(cfg, w, steps).log, m)
          && Enabled(After(cfg, w, steps), Run(None, t)) && Posts(cfg, After(cfg, w, steps).rec, t)
        ensures !InTheWay(After(cfg, w, steps), t, id)
      {
        AloneWhenKept(cfg, w, steps, t, id);
      }
    } else if m.unsaved > 0 {
      SecondRunBesideUnsaved(cfg, 0);
      NotAlone(cfg, m, 0, [Post(Born(0), Id(0), SaveError(false))], NO_MISHAPS.(unsaved := 1));
    } else if m.unanswered > 0 {
      SecondRunBesideUnanswered(cfg, 0);
      NotAlone(cfg, m, 0, [Unheard(Born(0)), Surface(Id(0), 0)], NO_MISHAPS.(unanswered := 1));
    } else {
      SecondRunBesideLost(cfg, 0);
      NotAlone(cfg, m, 0, [Post(Born(0), Id(0), Saved), LoseRecord], NO_MISHAPS.(lost := 1));
    }
  }

  // ---------- Last week's ranking as this week's ----------

  /** A tick that reads the output of a successful run. */
  function Reading(now: int, id: string, mode: string, finishedAt: int): Tick {
    Tick(now, now, true, Info(RunInfo(id, Succeeded, Some(finishedAt))), Listed([]), map[id := Output(mode, 30)],
         PostError, Saved)
  }

  /** Three gated ticks: a run is started and finishes, its ranking is collected,
      and a week later it is collected again. */
  function Stale(cfg: Config, now: int): seq<Step> {
    [Run(Some(now), Posting(Born(now), Id(0), Saved)), Finish(Id(0), Succeeded, now),
     Run(Some(now), Reading(now, Id(0), cfg.mode, now)), Run(Some(now + WEEK), Reading(now + WEEK, Id(0), cfg.mode, now))]
  }

  lemma StaleStarts(cfg: Config, now: int)
    requires ShouldRun(None, now)
    ensures var s, w := Stale(cfg, now), Born(now);
            && Enabled(w, s[0]) && Enabled(Apply(cfg, w, s[0]), s[1])
            && Apply(cfg, Apply(cfg, w, s[0]), s[1]) ==
                 World(now, Some(ProviderRun(Id(0), Running, 1, StartOfWeek(now), Some(now))),
                       map[Id(0) := Remote(Succeeded, Some(now), cfg.mode, Followed, now)],
                       multiset{Accepted(StartOfWeek(now))})
  {
    Accepts(cfg, Born(now), 0, 0, Saved);
  }

  function CollectedAt(run: ProviderRun, now: int): ProviderRun {
    run.(status := Collected, periodStart := StartOfWeek(now), startedAt := Some(now))
  }

  function Handed(week: int, id: string): multiset<Entry> {
    multiset{Result(week), ResultFrom(id)}
  }

  /** Reading a successful run on record collects it, in the week of the tick. */
  lemma ReadingCollects(cfg: Config, w: World, now: int, id: string, finishedAt: int)
    requires w.rec.Some? && w.rec.value.runId == id && id != "" && w.now <= now && ShouldRun(w.rec, now)
    requires id in w.remote && w.remote[id].mode == cfg.mode
    requires w.remote[id].status.Succeeded? && w.remote[id].finishedAt == Some(finishedAt)
    ensures var s := Run(Some(now), Reading(now, id, cfg.mode, finishedAt));
            && Enabled(w, s)
            && Apply(cfg, w, s) == World(now, Some(CollectedAt(w.rec.value, now)), w.remote,
                                         w.log + Handed(StartOfWeek(now), id))
  {
  }

  lemma StaleEnds(cfg: Config, w: World, now: int)
    requires w.now <= now && ShouldRun(None, now) && w.rec.Some? && w.rec.value.runId == Id(0) && w.rec.value.status.Running?
    requires Id(0) in w.remote && w.remote[Id(0)] == Remote(Succeeded, Some(now), cfg.mode, Followed, now)
    ensures var week := StartOfWeek(now + WEEK);
            var v := World(now + WEEK, Some(CollectedAt(w.rec.value, now + WEEK)), w.remote,
                           w.log + Handed(StartOfWeek(now), Id(0)) + Handed(week, Id(0)));
            Possible(cfg, w, Stale(cfg, now)[2..]) && After(cfg, w, Stale(cfg, now)[2..]) == v
  {
    WeekContains(now);
    NextWeek(now);
    var third, fourth := Stale(cfg, now)[2], Stale(cfg, now)[3];
    ReadingCollects(cfg, w, now, Id(0), now);
    var v := Apply(cfg, w, third);
    ReadingCollects(cfg, v, now + WEEK, Id(0), now);
    OneStep(cfg, v, fourth);
    Prepend(cfg, w, third, v, [fourth]);
    assert Stale(cfg, now)[2..] == [third] + [fourth];
  }

  lemma StaleCounts(first: int, second: int)
    requires first != second
    ensures var log := multiset{Accepted(first)} + Handed(first, Id(0)) + Handed(second, Id(0));
            log[Result(first)] == 1 && log[Result(second)] == 1 && log[ResultFrom(Id(0))] == 2
  {
  }

  /** Behind the gate as well: one run, two weeks, two rankings, the second of a
      run that finished before its week began. */
  lemma StaleRankingIsHandedOut(cfg: Config, now: int)
    requires ShouldRun(None, now)
    ensures Possible(cfg, Born(now), Stale(cfg, now))
    ensures var v, week := After(cfg, Born(now), Stale(cfg, now)), StartOfWeek(now + WEEK);
            && v.log[Result(StartOfWeek(now))] == 1 && v.log[Result(week)] == 1 && v.log[ResultFrom(Id(0))] == 2
            && CollectedIn(v.rec, week) && v.rec.value.runId == Id(0) && !FinishedSince(v, Id(0), week)
  {
    StaleStarts(cfg, now);
    var steps := Stale(cfg, now);
    var v := Apply(cfg, Born(now), steps[0]);
    var u := Apply(cfg, v, steps[1]);
    StaleEnds(cfg, u, now);
    Prepend(cfg, v, steps[1], u, steps[2..]);
    Prepend(cfg, Born(now), steps[0], v, [steps[1]] + steps[2..]);
    assert steps == [steps[0]] + ([steps[1]] + steps[2..]);
    WeekContains(now);
    NextWeek(now);
    StaleCounts(StartOfWeek(now), StartOfWeek(now + WEEK));
  }

  // ---------- Rankings a week, exactly ----------

  /** A gated tick that is shown one successful run of this week, and adopts it. */
  function Adopting(cfg: Config, now: int): Step {
    Run(Some(now), Tick(now, now, true, InfoError, Listed([RunInfo("r", Succeeded, Some(now))]),
                        map["r" := Output(cfg.mode, 30)], PostError, Saved))
  }

  function Unread(cfg: Config, now: int, log: multiset<Entry>): World {
    World(now, None, map["r" := Remote(Succeeded, Some(now), cfg.mode, Foreign, now)], log)
  }

  lemma AdoptsAndLoses(cfg: Config, now: int, log: multiset<Entry>) returns (adopted: World)
    requires ShouldRun(None, now)
    ensures Enabled(Unread(cfg, now, log), Adopting(cfg, now))
    ensures adopted == Apply(cfg, Unread(cfg, now, log), Adopting(cfg, now))
    ensures adopted.log == log + Handed(StartOfWeek(now), "r")
    ensures Apply(cfg, adopted, LoseRecord) == Unread(cfg, now, adopted.log + multiset{Lost(StartOfWeek(now))})
  {
    WeekContains(now);
    adopted := Apply(cfg, Unread(cfg, now, log), Adopting(cfg, now));
  }

  /** The same run is handed out once more after each loss of the record. */
  lemma {:induction false} Handouts(cfg: Config, now: int, log: multiset<Entry>, lost: nat) returns (steps: seq<Step>)
    requires ShouldRun(None, now)
    ensures Possible(cfg, Unread(cfg, now, log), steps) && Gated(steps)
    ensures var v, p := After(cfg, Unread(cfg, now, log), steps).log, StartOfWeek(now);
            v[Result(p)] == log[Result(p)] + 1 + lost && v[Lost(p)] == log[Lost(p)] + lost
    decreases lost
  {
    var w := Unread(cfg, now, log);
    var adopted := AdoptsAndLoses(cfg, now, log);
    if lost == 0 {
      OneStep(cfg, w, Adopting(cfg, now));
      steps := [Adopting(cfg, now)];
    } else {
      var u := Apply(cfg, adopted, LoseRecord);
      var rest := Handouts(cfg, now, u.log, lost - 1);
      Prepend(cfg, adopted, LoseRecord, u, rest);
      Prepend(cfg, w, Adopting(cfg, now), adopted, [LoseRecord] + rest);
      steps := [Adopting(cfg, now)] + ([LoseRecord] + rest);
    }
  }

  predicate HandsOut(log: multiset<Entry>, p: int, lost: nat, bound: nat) {
    log[Lost(p)] <= lost ==> log[Result(p)] <= bound
  }

  /** Over all histories behind the gate, a week with no more than so many lost
      records has no more than bound rankings handed out. */
  ghost predicate HandsOutWithin(cfg: Config, lost: nat, bound: nat) {
    forall w, steps, p ::
      Fresh(w) && Possible(cfg, w, steps) && Gated(steps) ==> HandsOut(After(cfg, w, steps).log, p, lost, bound)
  }

  /** The least number of rankings a week never exceeds: one, and one more for
      each loss of the record. */
  lemma RankingsPerWeekExactly(cfg: Config, lost: nat, bound: nat)
    ensures HandsOutWithin(cfg, lost, bound) <==> bound >= 1 + lost
  {
    if bound >= 1 + lost {
      forall w, steps, p | Fresh(w) && Possible(cfg, w, steps) && Gated(steps)
        ensures HandsOut(After(cfg, w, steps).log, p, lost, bound)
      {
        OneRankingPerWeek(cfg, w, steps, p);
      }
    } else {
      WeekContains(0);
      var now := StartOfWeek(0) + END_OF_DAY_HOUR * HOUR;
      WeekIsUnique(StartOfWeek(0), now);
      var steps := Handouts(cfg, now, multiset{}, lost);
      var w := Unread(cfg, now, multiset{});
      assert Fresh(w) && !HandsOut(After(cfg, w, steps).log, StartOfWeek(now), lost, bound);
    }
  }

  // ---------- A run beside this week's result ----------

  const ADOPT_SCAN_LIMIT: nat := 10

  predicate Lists(runs: seq<RunInfo>, id: string) {
    exists i :: 0 <= i < |runs| && runs[i].id == id
  }

  /** What the list query asks for: the newest ten successful runs started in
      the period. */
  predicate ListedByQuery(w: World, runs: seq<RunInfo>, period: int) {
    && |runs| <= ADOPT_SCAN_LIMIT
    && (forall i :: 0 <= i < |runs| ==> runs[i].id in w.remote && w.remote[runs[i].id].startedAt >= period)
    && (forall id ::
          id in w.remote && w.remote[id].status.Succeeded? && w.remote[id].startedAt >= period && !Lists(runs, id) ==>
            && |runs| == ADOPT_SCAN_LIMIT
            && forall i :: 0 <= i < |runs| ==> w.remote[runs[i].id].startedAt >= w.remote[id].startedAt)
  }

  /** This week's result, on the remote side. */
  predicate IsResult(cfg: Config, w: World, id: string, period: int) {
    && id in w.remote && w.remote[id].status.Succeeded? && w.remote[id].mode == cfg.mode
    && FinishedSince(w, id, period)
  }

  lemma ListedResultIsAdopted(cfg: Config, w: World, t: Tick, i: nat)
    requires Honest(w, t) && t.list.Listed? && i < |t.list.runs|
    requires IsResult(cfg, w, t.list.runs[i].id, StartOfWeek(t.now))
    ensures !NotToAdopt(cfg, t.list.runs[i], StartOfWeek(t.now), t)
  {
    assert ReportsTruly(w, t.list.runs[i]);
  }

  /** The query does not show this run: it was started in an earlier week, or
      the ten runs listed are all newer and of no use. */
  predicate OutOfSight(cfg: Config, w: World, t: Tick, id: string)
    requires id in w.remote && t.list.Listed?
  {
    var runs, period := t.list.runs, StartOfWeek(t.now);
    || w.remote[id].startedAt < period
    || (&& |runs| == ADOPT_SCAN_LIMIT
        && forall i :: 0 <= i < |runs| ==>
             && NotToAdopt(cfg, runs[i], period, t)
             && runs[i].id in w.remote && w.remote[runs[i].id].startedAt >= w.remote[id].startedAt)
  }

  /** A run is started beside this week's result only if the query does not show
      it. */
  lemma StartBesideResult(cfg: Config, w: World, t: Tick, id: string)
    requires RecordInv(cfg, w) && Honest(w, t) && Posts(cfg, w.rec, t) && t.list.Listed?
    requires ListedByQuery(w, t.list.runs, StartOfWeek(t.now)) && IsResult(cfg, w, id, StartOfWeek(t.now))
    ensures OutOfSight(cfg, w, t, id)
  {
    NothingToAdopt(cfg, w.rec, t.list.runs, StartOfWeek(t.now), t);
    forall i | 0 <= i < |t.list.runs| ensures t.list.runs[i].id != id {
      if t.list.runs[i].id == id {
        ListedResultIsAdopted(cfg, w, t, i);
      }
    }
  }

  /** Every question of the tick was answered, in full, and the budget leaves room
      for a run. */
  predicate Answered(cfg: Config, w: World, t: Tick) {
    && Honest(w, t) && t.readable && (FollowedRun(w.rec) != "" ==> t.info.Info?)
    && t.list.Listed? && ListedByQuery(w, t.list.runs, StartOfWeek(t.now))
    && (forall i :: 0 <= i < |t.list.runs| ==> OutputOf(t, t.list.runs[i].id).Output?)
    && AttemptsIn(w.rec, StartOfWeek(t.now)) < cfg.MaxRuns() && t.post.Posted? && t.post.id != ""
  }

  lemma AdoptableIsResult(cfg: Config, w: World, t: Tick, i: nat)
    requires Answered(cfg, w, t) && i < |t.list.runs| && !NotToAdopt(cfg, t.list.runs[i], StartOfWeek(t.now), t)
    ensures IsResult(cfg, w, t.list.runs[i].id, StartOfWeek(t.now)) && !OutOfSight(cfg, w, t, t.list.runs[i].id)
  {
    assert ReportsTruly(w, t.list.runs[i]);
  }

  lemma NotHeldIsNotCollected(cfg: Config, w: World, t: Tick)
    requires RecordInv(cfg, w) && Answered(cfg, w, t)
    ensures Held(w) ==> BeforeStart(cfg, w.rec, t).Some?
    ensures !Held(w) ==> BeforeStart(cfg, w.rec, t) == AdoptFrom(cfg, w.rec, t.list.runs, StartOfWeek(t.now), t)
  {
  }

  /** With every question answered, a run is started exactly when the record
      follows none that is in flight or has succeeded, and each result of this
      week is out of the query's sight. */
  lemma StartsExactlyWhen(cfg: Config, w: World, t: Tick)
    requires RecordInv(cfg, w) && Answered(cfg, w, t)
    ensures Posts(cfg, w.rec, t) <==>
              !Held(w) && forall id :: IsResult(cfg, w, id, StartOfWeek(t.now)) ==> OutOfSight(cfg, w, t, id)
  {
    var runs, period := t.list.runs, StartOfWeek(t.now);
    NotHeldIsNotCollected(cfg, w, t);
    NothingToAdopt(cfg, w.rec, runs, period, t);
    if Posts(cfg, w.rec, t) {
      forall id | IsResult(cfg, w, id, period) ensures OutOfSight(cfg, w, t, id) {
        StartBesideResult(cfg, w, t, id);
      }
    } else if !Held(w) {
      var i :| 0 <= i < |runs| && !NotToAdopt(cfg, runs[i], period, t);
      AdoptableIsResult(cfg, w, t, i);
    }
  }

  /** A run started just before midnight on Sunday that finished just after: this
      week's result, out of the query's sight. */
  lemma ResultFromOverMidnight(cfg: Config, now: int)
    requires StartOfWeek(now) < now
    ensures var week := StartOfWeek(now);
            var w := Born(now).(remote := map["old" := Remote(Succeeded, Some(week), cfg.mode, Foreign, week - 1)]);
            var t := Posting(w, "new", Saved);
            && Fresh(w) && Enabled(w, Run(None, t)) && Posts(cfg, w.rec, t)
            && ListedByQuery(w, t.list.runs, week) && IsResult(cfg, w, "old", week)
  {
  }

  /** The remote side holds a run of this ranking, "a", and ten of another. */
  const CROWD: set<string> := {"a", "b", "c", "d", "e", "f", "g", "h", "i", "j", "k"}

  function Crowd(cfg: Config, now: int, other: string): map<string, Remote> {
    map id | id in CROWD ::
      if id == "a" then Remote(Succeeded, Some(now), cfg.mode, Foreign, StartOfWeek(now))
      else Remote(Succeeded, Some(now), other, Foreign, now)
  }

  function CrowdOutputs(cfg: Config, other: string): map<string, OutputReply> {
    map id | id in CROWD :: Output(if id == "a" then cfg.mode else other, 30)
  }

  function CrowdRuns(now: int): seq<RunInfo> {
    seq(ADOPT_SCAN_LIMIT, i requires 0 <= i < ADOPT_SCAN_LIMIT => RunInfo([(98 + i) as char], Succeeded, Some(now)))
  }

  lemma CrowdIds(id: string)
    ensures id in CROWD <==> |id| == 1 && 'a' <= id[0] <= 'k'
  {
    if |id| == 1 && 'a' <= id[0] <= 'k' {
      assert id == [id[0]];
      var c := id[0];
      assert c == 'a' || c == 'b' || c == 'c' || c == 'd' || c == 'e' || c == 'f' || c == 'g' || c == 'h' || c == 'i'
             || c == 'j' || c == 'k';
    }
  }

  lemma CrowdIsListed(cfg: Config, now: int, other: string)
    requires StartOfWeek(now) <= now
    ensures ListedByQuery(Born(now).(remote := Crowd(cfg, now, other)), CrowdRuns(now), StartOfWeek(now))
    ensures forall i :: 0 <= i < |CrowdRuns(now)| ==> CrowdRuns(now)[i].id in CROWD - {"a"}
  {
    var w, runs := Born(now).(remote := Crowd(cfg, now, other)), CrowdRuns(now);
    forall i | 0 <= i < |runs| ensures runs[i].id in CROWD - {"a"} {
      CrowdIds(runs[i].id);
      assert runs[i].id[0] == (98 + i) as char;
    }
    forall id | id in CROWD && id != "a" ensures Lists(runs, id) {
      CrowdIds(id);
      var i := id[0] as int - 98;
      assert id == [id[0]] && runs[i].id == id;
    }
  }

  lemma CrowdIsOfNoUse(cfg: Config, now: int, other: string, t: Tick)
    requires other != cfg.mode && StartOfWeek(now) <= now
    requires t.now == now && t.readable && t.list == Listed(CrowdRuns(now)) && t.outputs == CrowdOutputs(cfg, other)
    ensures BeforeStart(cfg, None, t).None?
  {
    var runs := CrowdRuns(now);
    CrowdIsListed(cfg, now, other);
    forall i | 0 <= i < |runs| ensures NotToAdopt(cfg, runs[i], StartOfWeek(now), t) {
      assert runs[i].id in CROWD - {"a"};
    }
    NothingToAdopt(cfg, None, runs, StartOfWeek(now), t);
  }

  /** Ten newer runs of the other ranking hide one of this. */
  lemma ResultHiddenInCrowd(cfg: Config, now: int, other: string)
    requires other != cfg.mode && StartOfWeek(now) <= now
    ensures var w := Born(now).(remote := Crowd(cfg, now, other));
            var t := Posting(w, "new", Saved).(list := Listed(CrowdRuns(now)), outputs := CrowdOutputs(cfg, other));
            && Fresh(w) && Enabled(w, Run(None, t)) && Posts(cfg, w.rec, t)
            && ListedByQuery(w, t.list.runs, StartOfWeek(now)) && IsResult(cfg, w, "a", StartOfWeek(now))
  {
    var w, runs := Born(now).(remote := Crowd(cfg, now, other)), CrowdRuns(now);
    var t := Posting(w, "new", Saved).(list := Listed(runs), outputs := CrowdOutputs(cfg, other));
    CrowdIsListed(cfg, now, other);
    CrowdIds("new");
    CrowdIds("");
    CrowdIds("a");
    CrowdIsOfNoUse(cfg, now, other, t);
  }

  /** Results of the week were started in the week. */
  predicate InTime(w: World, period: int) {
    forall id :: id in w.remote && w.remote[id].status.Succeeded? && FinishedSince(w, id, period) ==>
                   w.remote[id].startedAt >= period
  }

  /** Over all histories, with runs that go over midnight on Sunday and full
      lists or without: no run is started while this week's result exists. */
  ghost predicate NoneBesideResult(cfg: Config, late: bool, crowd: bool) {
    forall w, steps, t, id ::
      && Fresh(w) && Possible(cfg, w, steps)
      && Enabled(After(cfg, w, steps), Run(None, t)) && Posts(cfg, After(cfg, w, steps).rec, t)
      && t.list.Listed? && ListedByQuery(After(cfg, w, steps), t.list.runs, StartOfWeek(t.now))
      && (late || InTime(After(cfg, w, steps), StartOfWeek(t.now))) && (crowd || |t.list.runs| < ADOPT_SCAN_LIMIT)
      ==> !IsResult(cfg, After(cfg, w, steps), id, StartOfWeek(t.now))
  }

  /** The promise holds exactly when no run goes over midnight on Sunday and no
      list is full. */
  lemma NoneBesideResultExactlyWhen(cfg: Config, late: bool, crowd: bool)
    ensures NoneBesideResult(cfg, late, crowd) <==> !late && !crowd
  {
    if !late && !crowd {
      forall w, steps, t, id |
          && Fresh(w) && Possible(cfg, w, steps)
          && Enabled(After(cfg, w, steps), Run(None, t)) && Posts(cfg, After(cfg, w, steps).rec, t)
          && t.list.Listed? && ListedByQuery(After(cfg, w, steps), t.list.runs, StartOfWeek(t.now))
          && InTime(After(cfg, w, steps), StartOfWeek(t.now)) && |t.list.runs| < ADOPT_SCAN_LIMIT
        ensures !IsResult(cfg, After(cfg, w, steps), id, StartOfWeek(t.now))
      {
        HistoryKeepsFate(cfg, w, steps, id);
        if IsResult(cfg, After(cfg, w, steps), id, StartOfWeek(t.now)) {
          StartBesideResult(cfg, After(cfg, w, steps), t, id);
        }
      }
    } else if late {
      WeekContains(0);
      ResultFromOverMidnight(cfg, 0);
      var week := StartOfWeek(0);
      var w := Born(0).(remote := map["old" := Remote(Succeeded, Some(week), cfg.mode, Foreign, week - 1)]);
      assert After(cfg, w, []) == w && Possible(cfg, w, []);
      assert IsResult(cfg, After(cfg, w, []), "old", StartOfWeek(Posting(w, "new", Saved).now));
    } else {
      WeekContains(0);
      var other := cfg.mode + "x";
      ResultHiddenInCrowd(cfg, 0, other);
      var w := Born(0).(remote := Crowd(cfg, 0, other));
      var t := Posting(w, "new", Saved).(list := Listed(CrowdRuns(0)), outputs := CrowdOutputs(cfg, other));
      assert After(cfg, w, []) == w && Possible(cfg, w, []) && InTime(w, StartOfWeek(0));
      assert IsResult(cfg, After(cfg, w, []), "a", StartOfWeek(t.now));
    }
  }
}
