/** Which tournaments the match sync asks about (internal/app/sync.go), and how
    the gateway splits them by provider (internal/app/gateway.go). Instants and
    durations are nanoseconds. */
module MatchSync {
  import opened Wrappers
  import opened WeekClock
  import opened Gateway

  const HOT_LEAD: int := 90 * 60 * SECOND
  type EventId = nat

  datatype EventStatus = Upcoming | Running | Finished

  /** provider is the upper-cased name of the event's provider. */
  datatype Event = Event(id: EventId, provider: string, status: EventStatus)

  /** A match that has not started; None is a match with no published time. */
  datatype LocalMatch = LocalMatch(event: EventId, scheduledAt: Option<int>)

  /** What the catalog can tell about matches in play. */
  datatype Live = NoLiveCatalog | LiveUnread | LiveEvents(ids: seq<EventId>)

  // ---------- Choosing the tournaments ----------

  predicate Soon(m: LocalMatch, now: int) {
    m.scheduledAt.None? || m.scheduledAt.value <= now + HOT_LEAD
  }

  /** Something about the event can change before long, as far as is known. */
  predicate Hot(e: Event, unstarted: seq<LocalMatch>, live: Live, now: int) {
    || (exists m :: m in unstarted && m.event == e.id && Soon(m, now))
    || (live.LiveEvents? && e.id in live.ids)
    || (live.NoLiveCatalog? && e.status.Running?)
  }

  predicate Known(e: Event, unstarted: seq<LocalMatch>, live: Live) {
    (exists m :: m in unstarted && m.event == e.id) || (live.LiveEvents? && e.id in live.ids)
  }

  predicate SweepDue(now: int, lastSweep: int, cold: int) {
    cold <= 0 || now - lastSweep >= cold
  }

  /** Asked about on this run. */
  predicate Selected(e: Event, unstarted: Option<seq<LocalMatch>>, live: Live, now: int, sweep: bool) {
    || sweep || unstarted.None? || live.LiveUnread?
    || Hot(e, unstarted.value, live, now)
    || (!Known(e, unstarted.value, live) && !e.status.Finished?)
  }

  function Kept(events: seq<Event>, unstarted: Option<seq<LocalMatch>>, live: Live, now: int, sweep: bool): seq<Event> {
    if events == [] then []
    else
      var rest := Kept(events[..|events| - 1], unstarted, live, now, sweep);
      if Selected(events[|events| - 1], unstarted, live, now, sweep) then rest + [events[|events| - 1]] else rest
  }

  lemma {:induction false} KeptAll(events: seq<Event>, unstarted: Option<seq<LocalMatch>>, live: Live, now: int, sweep: bool)
    requires forall i :: 0 <= i < |events| ==> Selected(events[i], unstarted, live, now, sweep)
    ensures Kept(events, unstarted, live, now, sweep) == events
  {
    if events != [] {
      KeptAll(events[..|events| - 1], unstarted, live, now, sweep);
    }
  }

  lemma {:induction false} KeptMeans(events: seq<Event>, unstarted: Option<seq<LocalMatch>>, live: Live,
                                     now: int, sweep: bool, e: Event)
    ensures e in Kept(events, unstarted, live, now, sweep) <==> e in events && Selected(e, unstarted, live, now, sweep)
  {
    if events != [] {
      var n := |events| - 1;
      KeptMeans(events[..n], unstarted, live, now, sweep, e);
      assert e in events <==> e in events[..n] || e == events[n];
    }
  }

  lemma {:induction false} KeptInOrder(events: seq<Event>, more: seq<Event>, unstarted: Option<seq<LocalMatch>>,
                                       live: Live, now: int, sweep: bool)
    ensures Kept(events + more, unstarted, live, now, sweep) ==
              Kept(events, unstarted, live, now, sweep) + Kept(more, unstarted, live, now, sweep)
    decreases |more|
  {
    if more == [] {
      assert events + more == events;
    } else {
      var n := |more| - 1;
      KeptInOrder(events, more[..n], unstarted, live, now, sweep);
      assert (events + more)[..|events + more| - 1] == events + more[..n];
    }
  }

  /** An event is passed over exactly between sweeps, with everything known read,
      nothing of it in play, every known match of it more than ninety minutes
      away, and either such a match or the event being finished. */
  lemma PassedOverIsQuiet(events: seq<Event>, unstarted: Option<seq<LocalMatch>>, live: Live,
                          now: int, sweep: bool, e: Event)
    requires e in events
    ensures e !in Kept(events, unstarted, live, now, sweep) <==>
              && !sweep && unstarted.Some? && !live.LiveUnread?
              && (live.LiveEvents? ==> e.id !in live.ids) && (live.NoLiveCatalog? ==> !e.status.Running?)
              && (forall m :: m in unstarted.value && m.event == e.id ==>
                    m.scheduledAt.Some? && m.scheduledAt.value > now + 90 * 60 * SECOND)
              && (e.status.Finished? || exists m :: m in unstarted.value && m.event == e.id)
  {
    KeptMeans(events, unstarted, live, now, sweep, e);
  }

  /** What one run of the sync knows. */
  datatype Picture = Picture(now: int, unstarted: Option<seq<LocalMatch>>, live: Live, sweep: bool)

  /** Runs no further apart than the hot lead, the match being listed as not
      started wherever that could be read. */
  predicate Watched(runs: seq<Picture>, m: LocalMatch) {
    runs == [] ||
    var n := |runs| - 1;
    && (runs[n].unstarted.Some? ==> m in runs[n].unstarted.value)
    && (n > 0 ==> runs[n].now - runs[n - 1].now <= HOT_LEAD)
    && Watched(runs[..n], m)
  }

  /** However the lists change meanwhile, a match that is known is asked about by
      some run within the last ninety minutes before its start, as long as the
      runs are no further apart than that. */
  lemma {:induction false} AskedBeforeStart(e: Event, m: LocalMatch, runs: seq<Picture>) returns (i: nat)
    requires m.event == e.id && m.scheduledAt.Some? && Watched(runs, m)
    requires |runs| > 1 && runs[0].now <= m.scheduledAt.value < runs[|runs| - 1].now
    ensures i < |runs| && m.scheduledAt.value - HOT_LEAD <= runs[i].now <= m.scheduledAt.value
    ensures Selected(e, runs[i].unstarted, runs[i].live, runs[i].now, runs[i].sweep)
  {
    var n := |runs| - 1;
    if runs[n - 1].now <= m.scheduledAt.value {
      i := n - 1;
      assert Watched(runs[..n], m) && runs[..n][n - 1] == runs[i];
    } else {
      i := AskedBeforeStart(e, m, runs[..n]);
    }
  }

  /** When the last full sweep was, after runs at these instants. */
  function LastSweep(start: int, cold: int, ticks: seq<int>): int {
    if ticks == [] then start
    else
      var now, last := ticks[|ticks| - 1], LastSweep(start, cold, ticks[..|ticks| - 1]);
      if SweepDue(now, last, cold) then now else last
  }

  lemma {:induction false} LastSweepIsARun(start: int, cold: int, ticks: seq<int>)
    ensures LastSweep(start, cold, ticks) == start
         || exists i :: 0 <= i < |ticks| && ticks[i] == LastSweep(start, cold, ticks)
                        && SweepDue(ticks[i], LastSweep(start, cold, ticks[..i]), cold)
  {
    if ticks != [] {
      var n := |ticks| - 1;
      LastSweepIsARun(start, cold, ticks[..n]);
      if !SweepDue(ticks[n], LastSweep(start, cold, ticks[..n]), cold) && LastSweep(start, cold, ticks) != start {
        var i :| 0 <= i < n && ticks[..n][i] == LastSweep(start, cold, ticks[..n])
                 && SweepDue(ticks[..n][i], LastSweep(start, cold, ticks[..n][..i]), cold);
        assert ticks[..n][..i] == ticks[..i] && ticks[..n][i] == ticks[i];
      }
    }
  }

  /** Whatever happens to a tournament at some instant, a full sweep sees it by
      the first run an interval later. */
  lemma SweptInTime(start: int, cold: int, ticks: seq<int>, happened: int)
    requires cold > 0 && ticks != [] && start <= happened && ticks[|ticks| - 1] >= happened + cold
    ensures exists i :: 0 <= i < |ticks| && ticks[i] > happened && SweepDue(ticks[i], LastSweep(start, cold, ticks[..i]), cold)
  {
    LastSweepIsARun(start, cold, ticks);
  }

  lemma {:induction false} SweepIsRemembered(start: int, cold: int, ticks: seq<int>, i: nat, j: nat)
    requires i < j <= |ticks| && (forall k, l :: 0 <= k <= l < |ticks| ==> ticks[k] <= ticks[l])
    requires SweepDue(ticks[i], LastSweep(start, cold, ticks[..i]), cold)
    ensures LastSweep(start, cold, ticks[..j]) >= ticks[i]
    decreases j
  {
    assert ticks[..j][..j - 1] == ticks[..j - 1];
    if i < j - 1 {
      SweepIsRemembered(start, cold, ticks, i, j - 1);
    }
  }

  /** Two full sweeps are an interval apart. */
  lemma SweepsAreApart(start: int, cold: int, ticks: seq<int>, i: nat, j: nat)
    requires cold > 0 && i < j < |ticks| && (forall k, l :: 0 <= k <= l < |ticks| ==> ticks[k] <= ticks[l])
    requires SweepDue(ticks[i], LastSweep(start, cold, ticks[..i]), cold)
    requires SweepDue(ticks[j], LastSweep(start, cold, ticks[..j]), cold)
    ensures ticks[j] - ticks[i] >= cold
  {
    SweepIsRemembered(start, cold, ticks, i, j);
  }

  predicate OncePerId(events: seq<Event>) {
    forall i, j :: 0 <= i < j < |events| ==> events[i].id != events[j].id
  }

  class CompetitionSynchronization {
    const coldInterval: int
    var lastFullMatchSync: int

    constructor (coldInterval: int, lastFullMatchSync: int)
      ensures this.coldInterval == coldInterval && this.lastFullMatchSync == lastFullMatchSync
    {
      this.coldInterval := coldInterval;
      this.lastFullMatchSync := lastFullMatchSync;
    }

    method SelectEventsToSync(now: int, events: seq<Event>, unstarted: Option<seq<LocalMatch>>, live: Live)
      returns (selected: seq<Event>)
      requires OncePerId(events)
      modifies this
      ensures lastFullMatchSync == if SweepDue(now, old(lastFullMatchSync), coldInterval) then now else old(lastFullMatchSync)
      ensures selected == Kept(events, unstarted, live, now, SweepDue(now, old(lastFullMatchSync), coldInterval))
      ensures coldInterval > 0 ==> now - lastFullMatchSync < coldInterval
      ensures coldInterval <= 0 ==> selected == events
    {
      if coldInterval <= 0 || now - lastFullMatchSync >= coldInterval {
        lastFullMatchSync := now;
        KeptAll(events, unstarted, live, now, true);
        return events;
      }
      if unstarted.None? || live.LiveUnread? {
        KeptAll(events, unstarted, live, now, false);
        return events;
      }
      var hot, known := Classify(now, events, unstarted.value, live);
      selected := [];
      for i := 0 to |events|
        invariant selected == Kept(events[..i], unstarted, live, now, false)
      {
        assert events[..i + 1][..i] == events[..i];
        if events[i].id in hot || (events[i].id !in known && !events[i].status.Finished?) {
          selected := selected + [events[i]];
        }
      }
      assert events[..|events|] == events;
    }

    method Classify(now: int, events: seq<Event>, unstarted: seq<LocalMatch>, live: Live)
      returns (hot: set<EventId>, known: set<EventId>)
      requires !live.LiveUnread?
      requires OncePerId(events)
      ensures forall e :: e in events ==> (e.id in hot <==> Hot(e, unstarted, live, now))
      ensures forall e :: e in events ==> (e.id in known <==> Known(e, unstarted, live))
    {
      hot, known := {}, {};
      for i := 0 to |unstarted|
        invariant forall id :: id in hot <==> exists k :: 0 <= k < i && unstarted[k].event == id && Soon(unstarted[k], now)
        invariant forall id :: id in known <==> exists k :: 0 <= k < i && unstarted[k].event == id
      {
        known := known + {unstarted[i].event};
        if unstarted[i].scheduledAt.None? || !(unstarted[i].scheduledAt.value > now + HOT_LEAD) {
          hot := hot + {unstarted[i].event};
        }
      }
      ghost var due := hot;
      if live.NoLiveCatalog? {
        for i := 0 to |events|
          invariant forall id :: id in hot <==>
                      id in due || exists k :: 0 <= k < i && events[k].id == id && events[k].status.Running?
        {
          if events[i].status.Running? {
            hot := hot + {events[i].id};
          }
        }
      } else {
        ghost var listed := known;
        for i := 0 to |live.ids|
          invariant hot == due + (set k | 0 <= k < i :: live.ids[k])
          invariant known == listed + (set k | 0 <= k < i :: live.ids[k])
        {
          known := known + {live.ids[i]};
          hot := hot + {live.ids[i]};
        }
      }
    }
  }

  // ---------- Asking provider by provider ----------

  /** The events of one provider, in the order they came in. */
  function GroupOf(events: seq<Event>, provider: string): seq<Event> {
    if events == [] then []
    else
      var rest := GroupOf(events[..|events| - 1], provider);
      if events[|events| - 1].provider == provider then rest + [events[|events| - 1]] else rest
  }

  lemma {:induction false} GroupHolds(events: seq<Event>, provider: string)
    ensures forall e :: e in GroupOf(events, provider) <==> e in events && e.provider == provider
  {
    if events != [] {
      var n := |events| - 1;
      GroupHolds(events[..n], provider);
      assert events == events[..n] + [events[n]];
    }
  }

  /** The order, and how often an event is listed, are kept. */
  lemma {:induction false} GroupsInOrder(events: seq<Event>, more: seq<Event>, provider: string)
    ensures GroupOf(events + more, provider) == GroupOf(events, provider) + GroupOf(more, provider)
    decreases |more|
  {
    if more == [] {
      assert events + more == events;
    } else {
      var n := |more| - 1;
      GroupsInOrder(events, more[..n], provider);
      assert (events + more)[..|events + more| - 1] == events + more[..n];
    }
  }

  /** The providers in the order they first appear. */
  function FirstSeen(events: seq<Event>): seq<string> {
    if events == [] then []
    else
      var rest, last := FirstSeen(events[..|events| - 1]), events[|events| - 1].provider;
      if last in rest then rest else rest + [last]
  }

  /** Every provider of some event is listed, once, and no other. */
  lemma {:induction false} FirstSeenOnce(events: seq<Event>)
    ensures forall i, j :: 0 <= i < j < |FirstSeen(events)| ==> FirstSeen(events)[i] != FirstSeen(events)[j]
    ensures forall p :: p in FirstSeen(events) <==> exists e :: e in events && e.provider == p
  {
    if events != [] {
      var n := |events| - 1;
      FirstSeenOnce(events[..n]);
      assert events == events[..n] + [events[n]];
    }
  }

  /** What was seen first stays first. */
  lemma {:induction false} FirstSeenFirst(events: seq<Event>, more: seq<Event>)
    ensures FirstSeen(events) <= FirstSeen(events + more)
    decreases |more|
  {
    if more == [] {
      assert events + more == events;
    } else {
      var n := |more| - 1;
      FirstSeenFirst(events, more[..n]);
      assert (events + more)[..|events + more| - 1] == events + more[..n];
    }
  }

  lemma Ungrouped(events: seq<Event>, provider: string)
    requires provider !in FirstSeen(events)
    ensures GroupOf(events, provider) == []
  {
    FirstSeenOnce(events);
    GroupHolds(events, provider);
    assert forall e :: e !in GroupOf(events, provider);
  }

  method GroupByProvider(events: seq<Event>) returns (order: seq<string>, groups: map<string, seq<Event>>)
    ensures order == FirstSeen(events)
    ensures forall p :: p in groups <==> p in order
    ensures forall p :: p in groups ==> groups[p] == GroupOf(events, p)
  {
    order, groups := [], map[];
    for i := 0 to |events|
      invariant order == FirstSeen(events[..i])
      invariant forall p :: p in groups <==> p in order
      invariant forall p :: p in groups ==> groups[p] == GroupOf(events[..i], p)
    {
      var provider := events[i].provider;
      assert events[..i + 1][..i] == events[..i];
      if provider !in groups {
        Ungrouped(events[..i], provider);
        order := order + [provider];
        groups := groups[provider := [events[i]]];
      } else {
        groups := groups[provider := groups[provider] + [events[i]]];
      }
    }
    assert events[..|events|] == events;
  }

  /** One group's turn: for each provider in the group's order of preference,
      how a call to it would go, and the matches it would find. */
  datatype Turn<T> = Turn(calls: seq<Call>, found: seq<seq<T>>)

  datatype Answer<T> = Answer(state: State, matches: seq<T>, ok: bool)

  predicate Playable<T>(cfg: Config, known: set<string>, order: seq<string>, turns: seq<Turn<T>>) {
    && |turns| == |order|
    && forall i :: 0 <= i < |order| ==>
         |turns[i].calls| == |turns[i].found| == |Preference(cfg, known, Some(order[i]))|
  }

  lemma {:induction false} WinnerInRange(cfg: Config, st: State, providers: seq<string>, calls: seq<Call>, i: nat)
    requires |calls| == |providers| && i <= |providers|
    ensures var w := ExecuteFrom(cfg, st, providers, calls, i).winner; w.Some? ==> i <= w.value < |providers|
    decreases |providers| - i
  {
    FailoverPicksFirstHealthy(cfg, st, providers, calls, i);
  }

  /** Groups in order, each with the gateway's failover, in the state the ones
      before have left. */
  function Asked<T>(cfg: Config, known: set<string>, st: State, order: seq<string>, turns: seq<Turn<T>>): Answer<T>
    requires Playable(cfg, known, order, turns)
  {
    if order == [] then Answer(st, [], true)
    else
      var n := |order| - 1;
      var before := Asked(cfg, known, st, order[..n], turns[..n]);
      var providers := Preference(cfg, known, Some(order[n]));
      var served := ExecuteFrom(cfg, before.state, providers, turns[n].calls, 0);
      WinnerInRange(cfg, before.state, providers, turns[n].calls, 0);
      if served.winner.None? then Answer(served.state, before.matches, false)
      else Answer(served.state, before.matches + turns[n].found[served.winner.value], before.ok)
  }

  /** What the i-th group's turn comes to, in the state the ones before have left. */
  function GroupServed<T>(cfg: Config, known: set<string>, st: State, order: seq<string>, turns: seq<Turn<T>>, i: nat): Served
    requires Playable(cfg, known, order, turns) && i < |order|
  {
    ExecuteFrom(cfg, Asked(cfg, known, st, order[..i], turns[..i]).state, Preference(cfg, known, Some(order[i])),
                turns[i].calls, 0)
  }

  lemma LastGroup<T>(cfg: Config, known: set<string>, st: State, order: seq<string>, turns: seq<Turn<T>>)
    requires Playable(cfg, known, order, turns) && order != []
    ensures var n := |order| - 1;
            Asked(cfg, known, st, order, turns).ok <==>
              Asked(cfg, known, st, order[..n], turns[..n]).ok && GroupServed(cfg, known, st, order, turns, n).winner.Some?
  {
  }

  /** No failure is reported exactly when every group is answered. */
  lemma {:induction false} AskedExactlyWhen<T>(cfg: Config, known: set<string>, st: State, order: seq<string>,
                                               turns: seq<Turn<T>>)
    requires Playable(cfg, known, order, turns)
    ensures Asked(cfg, known, st, order, turns).ok <==>
              forall i :: 0 <= i < |order| ==> GroupServed(cfg, known, st, order, turns, i).winner.Some?
    decreases |order|
  {
    if order != [] {
      var n := |order| - 1;
      AskedExactlyWhen(cfg, known, st, order[..n], turns[..n]);
      forall i | 0 <= i < n
        ensures GroupServed(cfg, known, st, order, turns, i) == GroupServed(cfg, known, st, order[..n], turns[..n], i)
      {
        assert order[..n][..i] == order[..i] && turns[..n][..i] == turns[..i];
      }
      LastGroup(cfg, known, st, order, turns);
    }
  }

  /** A group goes unanswered exactly when each of its providers was seen open
      or failed. */
  lemma AnsweredExactlyWhen(cfg: Config, st: State, providers: seq<string>, calls: seq<Call>)
    requires |calls| == |providers|
    ensures ExecuteFrom(cfg, st, providers, calls, 0).winner.Some? <==>
              exists k :: 0 <= k < |providers| && calls[k].ok && !SeenOpen(cfg, st, providers, calls, 0, k)
  {
    FailoverPicksFirstHealthy(cfg, st, providers, calls, 0);
    var r := ExecuteFrom(cfg, st, providers, calls, 0);
    if r.winner.Some? {
      var k := r.winner.value;
      assert calls[k].ok && !SeenOpen(cfg, st, providers, calls, 0, k);
    } else {
      forall k | 0 <= k < |providers| ensures !calls[k].ok || SeenOpen(cfg, st, providers, calls, 0, k) {
        assert k in r.called <==> !SeenOpen(cfg, st, providers, calls, 0, k);
      }
    }
  }

  /** A failing group costs its own matches only, and is reported: the others
      are still asked. */
  method AskEach<T>(gateway: ProviderGateway, order: seq<string>, turns: seq<Turn<T>>) returns (all: seq<T>, ok: bool)
    requires Playable(gateway.cfg, gateway.known, order, turns)
    modifies gateway
    ensures Answer(gateway.Snapshot(), all, ok) == Asked(gateway.cfg, gateway.known, old(gateway.Snapshot()), order, turns)
  {
    all, ok := [], true;
    for i := 0 to |order|
      invariant Answer(gateway.Snapshot(), all, ok) ==
                Asked(gateway.cfg, gateway.known, old(gateway.Snapshot()), order[..i], turns[..i])
    {
      assert order[..i + 1][..i] == order[..i] && turns[..i + 1][..i] == turns[..i];
      var providers := gateway.OrderedProviders(Some(order[i]));
      WinnerInRange(gateway.cfg, gateway.Snapshot(), providers, turns[i].calls, 0);
      var winner, _ := gateway.Execute(providers, turns[i].calls);
      if winner.Some? {
        all := all + turns[i].found[winner.value];
      } else {
        ok := false;
      }
    }
    assert order[..|order|] == order && turns[..|order|] == turns;
  }
}
